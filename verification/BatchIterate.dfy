/**
 Replaying a write batch to a handler: one record at a time, with a second offer after `TryAgain`, and a check of
 the number of records against the header.
 */
module BatchIterate {
  import opened Coding
  import opened BatchCodec

  datatype Status = Ok | TryAgain | Corruption | NotSupported | MemoryLimit | NotFound | InvalidArgument | Other(code: nat)

  datatype OptionState = Unspecified | Enabled | Disabled

  /** A handler is a state and what it does with each record; `apply` also gets whether the batch so far is
      empty. The handler of a `TimedPut` gets value and time, which are the packed value unpacked. */
  datatype Handler<!H> = Handler(
    continues: H -> bool,
    apply: (H, Record, bool) -> (H, Status),
    writeAfterCommit: OptionState,
    writeBeforePrepare: OptionState)

  const HEADER: nat := 12

  /** The records that the header counts. */
  predicate Counted(r: Record) {
    r.Kv? || r.Key?
  }

  /** A packed value has room for the time. */
  predicate Unpackable(r: Record) {
    r.Kv? && r.kind.TimedPut? ==> |r.value| >= 8
  }

  /** The status of an offer, given what the handler returned: log data has none, and markers of another
      write policy are refused. */
  function Effective<H>(hd: Handler<H>, r: Record, s: Status): Status {
    match r
    case Blob(LogData, _) => Ok
    case Mark(BeginPrepare) =>
      if hd.writeBeforePrepare.Enabled? || hd.writeAfterCommit.Disabled? then NotSupported else s
    case Mark(BeginPersistedPrepare) =>
      if hd.writeAfterCommit.Enabled? then NotSupported else s
    case Mark(BeginUnprepare) =>
      if hd.writeBeforePrepare.Disabled? || hd.writeAfterCommit.Enabled? then NotSupported else s
    case _ => s
  }

  function EmptyAfter(r: Record, empty: bool, s: Status): bool {
    match r
    case Kv(PutBlobIndex, _, _, _) => empty
    case Kv(_, _, _, _) => empty && s != Ok
    case Key(_, _, _) => empty && s != Ok
    case Blob(LogData, _) => false
    case Blob(_, _) => true
    case CommitAt(_, _) => empty || s == Ok
    case Mark(Noop) => true
    case Mark(_) => false
  }

  /** The state of a replay between two offers. */
  datatype Progress<H> = Progress(h: H, status: Status, empty: bool, found: uint32)

  function Offer<H>(hd: Handler<H>, h: H, r: Record, empty: bool, found: uint32): Progress<H> {
    var (h1, s) := hd.apply(h, r, empty);
    var s1 := Effective(hd, r, s);
    Progress(h1, s1, EmptyAfter(r, empty, s1), if Counted(r) && s1 == Ok then (found + 1) % TWO32 else found)
  }

  /** `defined` is false when the replay met a packed value without room for the time: the source reads before its start. */
  datatype Outcome<H> = Outcome(h: H, status: Status, found: uint32, continued: bool, defined: bool := true)

  /** What a replay of `input` leads to. */
  function Replay<H>(hd: Handler<H>, h: H, empty: bool, found: uint32, input: Bytes): Outcome<H>
    decreases |input|, 1
  {
    if input == [] then Outcome(h, Ok, found, true)
    else if !hd.continues(h) then Outcome(h, Ok, found, false)
    else
      match ReadRecord(input)
      case None => Outcome(h, Corruption, found, true)
      case Some((r, rest)) =>
        if !Unpackable(r) then Outcome(h, Ok, found, true, false)
        else
          var p := Offer(hd, h, r, empty, found);
          if p.status == TryAgain then ReplayAgain(hd, p, r, rest)
          else if p.status == Ok then Replay(hd, p.h, p.empty, p.found, rest)
          else Outcome(p.h, p.status, p.found, true)
  }

  /** After `TryAgain` the same record is offered once more; a second `TryAgain` is an error. */
  function ReplayAgain<H>(hd: Handler<H>, p: Progress<H>, r: Record, rest: Bytes): Outcome<H>
    decreases |rest|, 2
  {
    if !hd.continues(p.h) then Outcome(p.h, TryAgain, p.found, false)
    else
      var q := Offer(hd, p.h, r, p.empty, p.found);
      if q.status == TryAgain then TwiceAgain(hd, q)
      else if q.status == Ok then Replay(hd, q.h, q.empty, q.found, rest)
      else Outcome(q.h, q.status, q.found, true)
  }

  function TwiceAgain<H>(hd: Handler<H>, q: Progress<H>): Outcome<H> {
    if hd.continues(q.h) then Outcome(q.h, Corruption, q.found, true) else Outcome(q.h, TryAgain, q.found, false)
  }

  function Count(rep: Bytes): uint32
    requires |rep| >= HEADER
  {
    DecodeFixed32(rep[8..12])
  }

  /** The status of the whole replay: the number of records is checked when the whole batch was replayed. */
  function Verdict<H>(o: Outcome<H>, whole: bool, count: uint32): Status {
    if o.status != Ok then o.status
    else if o.continued && whole && o.found != count then Corruption
    else Ok
  }

  /** What remains to be replayed when the loop has status `p.status` and last read `r`. */
  ghost function Ahead<H>(hd: Handler<H>, p: Progress<H>, again: bool, r: Record, input: Bytes): Outcome<H> {
    if p.status == Ok then Replay(hd, p.h, p.empty, p.found, input)
    else if p.status == TryAgain then (if again then TwiceAgain(hd, p) else ReplayAgain(hd, p, r, input))
    else Outcome(p.h, p.status, p.found, true)
  }

  /** The loop. What it leads to is stated for replays that are defined; `DefinedIff` says which are. */
  method Iterate<H>(hd: Handler<H>, h0: H, rep: Bytes, begin: nat, end: nat) returns (h: H, status: Status, defined: bool)
    requires |rep| >= HEADER
    ensures begin <= end <= |rep| ==>
              var o := Replay(hd, h0, true, 0, rep[begin..end]);
              defined == o.defined && (defined ==> h == o.h && status == Verdict(o, begin == HEADER && end == |rep|, Count(rep)))
    ensures !(begin <= end <= |rep|) ==> h == h0 && status == Corruption && defined
  {
    h := h0;
    if begin > |rep| || end > |rep| || end < begin {
      return h, Corruption, true;
    }
    var input := rep[begin..end];
    var p, again, continued := Progress(h0, Ok, true, 0), false, true;
    var r := Mark(Noop);
    ghost var goal := Replay(hd, h0, true, 0, input);
    while continued && ((p.status == Ok && input != []) || p.status == TryAgain)
      invariant continued ==> Ahead(hd, p, again, r, input) == goal
      invariant !continued ==> goal == Outcome(p.h, p.status, p.found, false)
      decreases continued, |input|, p.status == TryAgain && !again, p.status == TryAgain
    {
      continued := hd.continues(p.h);
      if continued {
        if p.status != TryAgain {
          again := false;
          match ReadRecord(input) {
            case None =>
              return p.h, Corruption, true;
            case Some((r1, rest)) =>
              r, input := r1, rest;
          }
          if !Unpackable(r) {
            return p.h, Ok, false;
          }
        } else {
          if again {
            return p.h, Corruption, true;
          }
          again := true;
        }
        p := Offer(hd, p.h, r, p.empty, p.found);
      }
    }
    h, defined := p.h, true;
    if p.status != Ok {
      status := p.status;
    } else if continued && begin == HEADER && end == |rep| && p.found != Count(rep) {
      status := Corruption;
    } else {
      status := Ok;
    }
  }

  /** A whole batch; one without a header is corrupt. */
  method IterateAll<H>(hd: Handler<H>, h0: H, rep: Bytes) returns (h: H, status: Status, defined: bool)
    ensures |rep| < HEADER ==> h == h0 && status == Corruption && defined
    ensures |rep| >= HEADER ==>
              var o := Replay(hd, h0, true, 0, rep[HEADER..]);
              defined == o.defined && (defined ==> h == o.h && status == Verdict(o, true, Count(rep)))
  {
    if |rep| < HEADER {
      return h0, Corruption, true;
    }
    assert rep[HEADER..|rep|] == rep[HEADER..];
    h, status, defined := Iterate(hd, h0, rep, HEADER, |rep|);
  }

  /* ---------- when a replay is defined ---------- */

  /** The records of the input, up to the first that cannot be read. */
  function Parsed(input: Bytes): seq<Record>
    decreases |input|
  {
    if input == [] then []
    else
      match ReadRecord(input)
      case None => []
      case Some((r, rest)) => [r] + Parsed(rest)
  }

  /** The records that a replay reads. */
  function ReadBy<H>(hd: Handler<H>, h: H, empty: bool, found: uint32, input: Bytes): seq<Record>
    decreases |input|
  {
    if input == [] || !hd.continues(h) then []
    else
      match ReadRecord(input)
      case None => []
      case Some((r, rest)) =>
        if !Unpackable(r) then [r]
        else
          var p := Offer(hd, h, r, empty, found);
          if p.status == Ok then [r] + ReadBy(hd, p.h, p.empty, p.found, rest)
          else if p.status != TryAgain || !hd.continues(p.h) then [r]
          else
            var q := Offer(hd, p.h, r, p.empty, p.found);
            if q.status == Ok then [r] + ReadBy(hd, q.h, q.empty, q.found, rest) else [r]
  }

  /** The replay reads records of the input, in order, from the start. */
  lemma {:induction false} ReadsPrefix<H>(hd: Handler<H>, h: H, empty: bool, found: uint32, input: Bytes)
    ensures ReadBy(hd, h, empty, found, input) <= Parsed(input)
    decreases |input|
  {
    if input != [] && hd.continues(h) && ReadRecord(input).Some? {
      var (r, rest) := ReadRecord(input).value;
      if Unpackable(r) {
        var p := Offer(hd, h, r, empty, found);
        if p.status == Ok {
          ReadsPrefix(hd, p.h, p.empty, p.found, rest);
        } else if p.status == TryAgain && hd.continues(p.h) {
          var q := Offer(hd, p.h, r, p.empty, p.found);
          if q.status == Ok {
            ReadsPrefix(hd, q.h, q.empty, q.found, rest);
          }
        }
      }
    }
  }

  ghost predicate AllUnpackable(rs: seq<Record>) {
    forall r :: r in rs ==> (r.Kv? && r.kind.TimedPut? ==> |r.value| >= 8)
  }

  lemma UnpackableMore(r: Record, rs: seq<Record>)
    ensures AllUnpackable([r] + rs) <==> Unpackable(r) && AllUnpackable(rs)
  {
    if AllUnpackable([r] + rs) {
      assert r in [r] + rs;
      forall q | q in rs ensures Unpackable(q) {
        assert q in [r] + rs;
      }
    }
  }

  /** A replay of any input to any handler is defined if and only if every timed put it reads has room for the time. */
  lemma {:induction false} DefinedIff<H>(hd: Handler<H>, h: H, empty: bool, found: uint32, input: Bytes)
    ensures Replay(hd, h, empty, found, input).defined <==> AllUnpackable(ReadBy(hd, h, empty, found, input))
    decreases |input|
  {
    if input != [] && hd.continues(h) && ReadRecord(input).Some? {
      var (r, rest) := ReadRecord(input).value;
      UnpackableMore(r, []);
      assert [r] + [] == [r];
      if Unpackable(r) {
        var p := Offer(hd, h, r, empty, found);
        if p.status == Ok {
          DefinedIff(hd, p.h, p.empty, p.found, rest);
          UnpackableMore(r, ReadBy(hd, p.h, p.empty, p.found, rest));
        } else if p.status == TryAgain && hd.continues(p.h) {
          var q := Offer(hd, p.h, r, p.empty, p.found);
          if q.status == Ok {
            DefinedIff(hd, q.h, q.empty, q.found, rest);
            UnpackableMore(r, ReadBy(hd, q.h, q.empty, q.found, rest));
          }
        }
      }
    }
  }

  /** Three bytes whose replay is not defined: a timed put of an empty key and an empty packed value. */
  lemma ShortTimedPut<H>(hd: Handler<H>, h: H)
    requires hd.continues(h)
    ensures ReadRecord([0x18, 0, 0]) == Some((Kv(TimedPut, 0, [], []), [])) && !Replay(hd, h, true, 0, [0x18, 0, 0]).defined
  {
    var r := Kv(TimedPut, 0, [], []);
    assert Encode(r) + [] == [0x18, 0, 0];
    RecordRoundTrip(r, [], [0x18, 0, 0]);
  }

  /* ---------- batches that were written by the append operations ---------- */

  /** Replaying records directly. */
  function ReplayList<H>(hd: Handler<H>, h: H, empty: bool, found: uint32, rs: seq<Record>): Outcome<H>
    decreases |rs|
  {
    if rs == [] then Outcome(h, Ok, found, true)
    else if !hd.continues(h) then Outcome(h, Ok, found, false)
    else
      var p := Offer(hd, h, rs[0], empty, found);
      if p.status == Ok then ReplayList(hd, p.h, p.empty, p.found, rs[1..])
      else if p.status != TryAgain then Outcome(p.h, p.status, p.found, true)
      else if !hd.continues(p.h) then Outcome(p.h, TryAgain, p.found, false)
      else
        var q := Offer(hd, p.h, rs[0], p.empty, p.found);
        if q.status == TryAgain then TwiceAgain(hd, q)
        else if q.status == Ok then ReplayList(hd, q.h, q.empty, q.found, rs[1..])
        else Outcome(q.h, q.status, q.found, true)
  }

  /** The bytes of a list of records replay as the list itself, to every handler. */
  lemma {:induction false} ReplayOfEncoded<H>(hd: Handler<H>, h: H, empty: bool, found: uint32, rs: seq<Record>)
    requires forall r :: r in rs ==> Fits(r) && Unpackable(r)
    ensures Replay(hd, h, empty, found, EncodeAll(rs)) == ReplayList(hd, h, empty, found, rs)
    decreases |rs|
  {
    if rs != [] && hd.continues(h) {
      var r, rest := rs[0], EncodeAll(rs[1..]);
      RecordRoundTrip(r, rest, Encode(r) + rest);
      var p := Offer(hd, h, r, empty, found);
      if p.status == Ok {
        ReplayOfEncoded(hd, p.h, p.empty, p.found, rs[1..]);
      } else if p.status == TryAgain && hd.continues(p.h) {
        var q := Offer(hd, p.h, r, p.empty, p.found);
        if q.status == Ok {
          ReplayOfEncoded(hd, q.h, q.empty, q.found, rs[1..]);
        }
      }
    }
  }

  function CountedIn(rs: seq<Record>): nat {
    if rs == [] then 0 else (if Counted(rs[0]) then 1 else 0) + CountedIn(rs[1..])
  }

  /** The handler takes every record. */
  ghost predicate Accepts<H(!new)>(hd: Handler<H>) {
    forall h, r, e :: hd.continues(h) && Effective(hd, r, hd.apply(h, r, e).1) == Ok
  }

  /** The state of a handler that takes every record: all of them, in order. */
  function Folded<H>(hd: Handler<H>, h: H, empty: bool, rs: seq<Record>): H
    decreases |rs|
  {
    if rs == [] then h else Folded(hd, hd.apply(h, rs[0], empty).0, EmptyAfter(rs[0], empty, Ok), rs[1..])
  }

  lemma {:induction false} AcceptedReplay<H(!new)>(hd: Handler<H>, h: H, empty: bool, found: uint32, rs: seq<Record>)
    requires Accepts(hd)
    ensures ReplayList(hd, h, empty, found, rs) == Outcome(Folded(hd, h, empty, rs), Ok, (found + CountedIn(rs)) % TWO32, true)
    decreases |rs|
  {
    if rs != [] {
      var p := Offer(hd, h, rs[0], empty, found);
      assert p.status == Ok;
      AcceptedReplay(hd, p.h, p.empty, p.found, rs[1..]);
      WrapTwice(found, CountedIn(rs[1..]));
    }
  }

  lemma WrapTwice(a: nat, b: nat)
    ensures ((a + 1) % TWO32 + b) % TWO32 == (a + (1 + b)) % TWO32
  {
  }

  /** The whole batch `header + records` replays to every accepting handler, in order, and passes the count
      check exactly when the header counts the counted records, modulo 2^32. */
  lemma BatchReplays<H(!new)>(hd: Handler<H>, h: H, rs: seq<Record>, count: uint32)
    requires Accepts(hd) && forall r :: r in rs ==> Fits(r) && Unpackable(r)
    ensures var o := Replay(hd, h, true, 0, EncodeAll(rs));
            o.defined && o.h == Folded(hd, h, true, rs) && o.status == Ok && (Verdict(o, true, count) == Ok <==> count == CountedIn(rs) % TWO32)
  {
    ReplayOfEncoded(hd, h, true, 0, rs);
    AcceptedReplay(hd, h, true, 0, rs);
  }

  /* ---------- write policies ---------- */

  datatype Policy = WriteCommitted | WritePrepared | WriteUnprepared

  /** The handler of a policy, which takes everything it is offered. */
  ghost predicate Follows<H(!new)>(hd: Handler<H>, policy: Policy) {
    && hd.writeAfterCommit == (if policy.WriteCommitted? then Enabled else Disabled)
    && hd.writeBeforePrepare == (if policy.WriteUnprepared? then Enabled else Disabled)
    && forall h, r, e :: hd.continues(h) && hd.apply(h, r, e).1 == Ok
  }

  /** The markers that begin a section: one for the first policy, one that the other two share, and one for the last alone. */
  predicate Foreign(policy: Policy, r: Record) {
    r.Mark? &&
    match r.mark
    case Noop => false
    case BeginPrepare => !policy.WriteCommitted?
    case BeginPersistedPrepare => policy.WriteCommitted?
    case BeginUnprepare => !policy.WriteUnprepared?
  }

  lemma {:induction false} ListForPolicy<H(!new)>(hd: Handler<H>, policy: Policy, h: H, empty: bool, found: uint32, rs: seq<Record>, o: Outcome<H>)
    requires Follows(hd, policy) && o == ReplayList(hd, h, empty, found, rs)
    ensures o.status == if exists r :: r in rs && Foreign(policy, r) then NotSupported else Ok
    decreases |rs|
  {
    if rs != [] {
      var p := Offer(hd, h, rs[0], empty, found);
      assert p.status == if Foreign(policy, rs[0]) then NotSupported else Ok;
      assert forall r :: r in rs <==> r == rs[0] || r in rs[1..];
      if p.status == Ok {
        ListForPolicy(hd, policy, p.h, p.empty, p.found, rs[1..], o);
      }
    }
  }

  /** A handler refuses a batch if and only if a section in it begins with the marker of another policy. */
  lemma ForeignRefused<H(!new)>(hd: Handler<H>, policy: Policy, h: H, rs: seq<Record>, o: Outcome<H>)
    requires Follows(hd, policy) && (forall r :: r in rs ==> Fits(r) && Unpackable(r)) && o == Replay(hd, h, true, 0, EncodeAll(rs))
    ensures o.status == if exists r :: r in rs && Foreign(policy, r) then NotSupported else Ok
  {
    ReplayOfEncoded(hd, h, true, 0, rs);
    ListForPolicy(hd, policy, h, true, 0, rs, o);
  }

  /** A record that is put off twice is an error, unless the handler stops. */
  lemma PutOffTwice<H>(hd: Handler<H>, h: H, empty: bool, found: uint32, input: Bytes, r: Record, rest: Bytes, p: Progress<H>, q: Progress<H>)
    requires input != [] && hd.continues(h) && ReadRecord(input) == Some((r, rest)) && Unpackable(r)
    requires p == Offer(hd, h, r, empty, found) && p.status == TryAgain && hd.continues(p.h)
    requires q == Offer(hd, p.h, r, p.empty, p.found) && q.status == TryAgain
    ensures Replay(hd, h, empty, found, input).status == if hd.continues(q.h) then Corruption else TryAgain
  {
  }

  /* ---------- how often a record is offered ---------- */

  datatype Offered = Offered(r: Record, s: Status, empty: bool)

  /** The handler that also logs what it was offered, how that ended, and whether the batch so far was empty. */
  function Logging<H>(hd: Handler<H>): Handler<(H, seq<Offered>)> {
    Handler(
      (l: (H, seq<Offered>)) => hd.continues(l.0),
      (l: (H, seq<Offered>), r: Record, e: bool) =>
        ((hd.apply(l.0, r, e).0, l.1 + [Offered(r, Effective(hd, r, hd.apply(l.0, r, e).1), e)]), hd.apply(l.0, r, e).1),
      hd.writeAfterCommit, hd.writeBeforePrepare)
  }

  /** The offers follow the records of the input; a record is offered a second time only after `TryAgain`,
      and nothing is offered after an error. */
  ghost predicate Orderly(t: seq<Offered>, input: Bytes)
    decreases |t|
  {
    t == [] ||
    (input != [] && ReadRecord(input).Some? &&
     var (r, rest) := ReadRecord(input).value;
     t[0].r == r &&
     (match t[0].s
      case Ok => Orderly(t[1..], rest)
      case TryAgain => |t| == 1 || (t[1].r == r && (if t[1].s == Ok then Orderly(t[2..], rest) else |t| == 2))
      case _ => |t| == 1))
  }

  function CountedOk(t: seq<Offered>): nat {
    if t == [] then 0 else (if Counted(t[0].r) && t[0].s == Ok then 1 else 0) + CountedOk(t[1..])
  }

  lemma OfferLogs<H>(hd: Handler<H>, h: H, log: seq<Offered>, r: Record, empty: bool, found: uint32, p: Progress<H>, p': Progress<(H, seq<Offered>)>)
    requires p == Offer(hd, h, r, empty, found) && p' == Progress((p.h, log + [Offered(r, p.status, empty)]), p.status, p.empty, p.found)
    ensures Offer(Logging(hd), (h, log), r, empty, found) == p'
  {
  }

  /** The logging handler ends like the plain one, having logged `t` more. */
  ghost predicate Logs<H>(o: Outcome<H>, o': Outcome<(H, seq<Offered>)>, log: seq<Offered>, t: seq<Offered>, found: uint32) {
    o' == Outcome((o.h, log + t), o.status, o.found, o.continued, o.defined) && o.found == (found + CountedOk(t)) % TWO32
  }

  lemma CountedStep(found: uint32, r: Record, e: bool, t1: seq<Offered>, t: seq<Offered>)
    requires t == [Offered(r, Ok, e)] + t1
    ensures ((if Counted(r) then (found + 1) % TWO32 else found) + CountedOk(t1)) % TWO32 == (found + CountedOk(t)) % TWO32
  {
    assert t[1..] == t1;
    WrapTwice(found, CountedOk(t1));
  }

  /** A record is taken, the rest is replayed. */
  lemma LogsTaken<H>(o: Outcome<H>, o': Outcome<(H, seq<Offered>)>, log: seq<Offered>, r: Record, e: bool, t1: seq<Offered>, t: seq<Offered>, found: uint32)
    requires Logs(o, o', log + [Offered(r, Ok, e)], t1, if Counted(r) then (found + 1) % TWO32 else found)
    requires t == [Offered(r, Ok, e)] + t1
    ensures Logs(o, o', log, t, found)
  {
    assert log + [Offered(r, Ok, e)] + t1 == log + t;
    CountedStep(found, r, e, t1, t);
  }

  /** A record is refused for now, and offered again. */
  lemma LogsRetried<H>(o: Outcome<H>, o': Outcome<(H, seq<Offered>)>, log: seq<Offered>, r: Record, e: bool, t1: seq<Offered>, t: seq<Offered>, found: uint32)
    requires Logs(o, o', log + [Offered(r, TryAgain, e)], t1, found) && t == [Offered(r, TryAgain, e)] + t1
    ensures Logs(o, o', log, t, found)
  {
    assert log + [Offered(r, TryAgain, e)] + t1 == log + t;
    assert t[1..] == t1;
  }

  lemma OrderlyTaken(r: Record, e: bool, rest: Bytes, t1: seq<Offered>, t: seq<Offered>, input: Bytes)
    requires input != [] && ReadRecord(input) == Some((r, rest)) && Orderly(t1, rest) && t == [Offered(r, Ok, e)] + t1
    ensures Orderly(t, input)
  {
    assert t[1..] == t1;
  }

  /** The offers of a record after `TryAgain`: one more, and when it is taken those of the rest. */
  ghost predicate OrderlyAgain(t: seq<Offered>, r: Record, rest: Bytes) {
    t == [] || (t[0].r == r && if t[0].s == Ok then Orderly(t[1..], rest) else |t| == 1)
  }

  lemma OrderlyRetried(r: Record, e: bool, rest: Bytes, t1: seq<Offered>, t: seq<Offered>, input: Bytes)
    requires input != [] && ReadRecord(input) == Some((r, rest)) && OrderlyAgain(t1, r, rest) && t == [Offered(r, TryAgain, e)] + t1
    ensures Orderly(t, input)
  {
    assert t[0] == Offered(r, TryAgain, e) && |t| == 1 + |t1|;
    if t1 != [] {
      assert t[1] == t1[0] && t[2..] == t1[1..];
    }
  }

  lemma LogsOne<H>(o: Outcome<H>, o': Outcome<(H, seq<Offered>)>, log: seq<Offered>, r: Record, s: Status, e: bool, found: uint32)
    requires s != Ok && o' == Outcome((o.h, log + [Offered(r, s, e)]), o.status, o.found, o.continued, o.defined) && o.found == found
    ensures Logs(o, o', log, [Offered(r, s, e)], found)
  {
  }

  lemma ReplayTaken<H>(hd: Handler<H>, h: H, empty: bool, found: uint32, input: Bytes, r: Record, rest: Bytes, p: Progress<H>, o: Outcome<H>)
    requires input != [] && hd.continues(h) && ReadRecord(input) == Some((r, rest)) && Unpackable(r) && p == Offer(hd, h, r, empty, found)
    requires o == Replay(hd, h, empty, found, input)
    ensures o == if p.status == TryAgain then ReplayAgain(hd, p, r, rest)
                 else if p.status == Ok then Replay(hd, p.h, p.empty, p.found, rest)
                 else Outcome(p.h, p.status, p.found, true)
  {
  }

  lemma AgainTaken<H>(hd: Handler<H>, p: Progress<H>, r: Record, rest: Bytes, q: Progress<H>, o: Outcome<H>)
    requires hd.continues(p.h) && q == Offer(hd, p.h, r, p.empty, p.found) && o == ReplayAgain(hd, p, r, rest)
    ensures o == if q.status == TryAgain then TwiceAgain(hd, q)
                 else if q.status == Ok then Replay(hd, q.h, q.empty, q.found, rest)
                 else Outcome(q.h, q.status, q.found, true)
  {
  }

  lemma AgainLogged<H>(hd: Handler<H>, p: Progress<H>, log: seq<Offered>, r: Record, rest: Bytes, p': Progress<(H, seq<Offered>)>,
                       q: Progress<H>, q': Progress<(H, seq<Offered>)>, o': Outcome<(H, seq<Offered>)>)
    requires hd.continues(p.h) && p' == Progress((p.h, log), p.status, p.empty, p.found) && q == Offer(hd, p.h, r, p.empty, p.found)
    requires q' == Progress((q.h, log + [Offered(r, q.status, p.empty)]), q.status, q.empty, q.found) && o' == ReplayAgain(Logging(hd), p', r, rest)
    ensures o' == if q.status == TryAgain then TwiceAgain(Logging(hd), q')
                  else if q.status == Ok then Replay(Logging(hd), q'.h, q.empty, q.found, rest)
                  else Outcome(q'.h, q.status, q.found, true)
  {
    OfferLogs(hd, p.h, log, r, p.empty, p.found, q, q');
  }

  lemma LogsNone<H>(o: Outcome<H>, o': Outcome<(H, seq<Offered>)>, log: seq<Offered>, found: uint32)
    requires o' == Outcome((o.h, log), o.status, o.found, o.continued, o.defined) && o.found == found
    ensures Logs(o, o', log, [], found)
  {
    assert log + [] == log;
  }

  /** The second offer was not taken. */
  lemma AgainRefused<H>(hd: Handler<H>, log: seq<Offered>, r: Record, rest: Bytes, e: bool, q: Progress<H>, o: Outcome<H>, o': Outcome<(H, seq<Offered>)>, found: uint32)
    requires q.status != Ok && q.found == found
    requires o == if q.status == TryAgain then TwiceAgain(hd, q) else Outcome(q.h, q.status, q.found, true)
    requires var q' := Progress((q.h, log + [Offered(r, q.status, e)]), q.status, q.empty, q.found);
             o' == if q.status == TryAgain then TwiceAgain(Logging(hd), q') else Outcome(q'.h, q.status, q.found, true)
    ensures Logs(o, o', log, [Offered(r, q.status, e)], found) && OrderlyAgain([Offered(r, q.status, e)], r, rest)
  {
    LogsOne(o, o', log, r, q.status, e, found);
  }

  lemma {:induction false} AgainIsOrderly<H>(hd: Handler<H>, p: Progress<H>, log: seq<Offered>, r: Record, rest: Bytes,
                                             p': Progress<(H, seq<Offered>)>, o: Outcome<H>, o': Outcome<(H, seq<Offered>)>)
    returns (t: seq<Offered>)
    requires p' == Progress((p.h, log), p.status, p.empty, p.found)
    requires o == ReplayAgain(hd, p, r, rest) && o' == ReplayAgain(Logging(hd), p', r, rest)
    ensures Logs(o, o', log, t, p.found) && OrderlyAgain(t, r, rest)
    decreases |rest|, 2
  {
    if !hd.continues(p.h) {
      t := [];
      assert o == Outcome(p.h, TryAgain, p.found, false) && o' == Outcome((p.h, log), TryAgain, p.found, false);
      LogsNone(o, o', log, p.found);
    } else {
      var q := Offer(hd, p.h, r, p.empty, p.found);
      var log1 := log + [Offered(r, q.status, p.empty)];
      var q' := Progress((q.h, log1), q.status, q.empty, q.found);
      AgainTaken(hd, p, r, rest, q, o);
      AgainLogged(hd, p, log, r, rest, p', q, q', o');
      if q.status == Ok {
        t := AgainAccepted(hd, q, log, log1, r, p.empty, rest, p.found, o, o');
      } else {
        t := [Offered(r, q.status, p.empty)];
        AgainRefused(hd, log, r, rest, p.empty, q, o, o', p.found);
      }
    }
  }

  /** The second offer was taken. */
  lemma {:induction false} AgainAccepted<H>(hd: Handler<H>, q: Progress<H>, log: seq<Offered>, log1: seq<Offered>, r: Record, e: bool, rest: Bytes, found: uint32,
                                            o: Outcome<H>, o': Outcome<(H, seq<Offered>)>)
    returns (t: seq<Offered>)
    requires q.found == (if Counted(r) then (found + 1) % TWO32 else found) && log1 == log + [Offered(r, Ok, e)]
    requires o == Replay(hd, q.h, q.empty, q.found, rest) && o' == Replay(Logging(hd), (q.h, log1), q.empty, q.found, rest)
    ensures Logs(o, o', log, t, found) && OrderlyAgain(t, r, rest)
    decreases |rest|, 1
  {
    var t1 := OffersAreOrderly(hd, q.h, log1, q.empty, q.found, rest, o, o');
    t := [Offered(r, Ok, e)] + t1;
    assert t[1..] == t1;
    LogsTaken(o, o', log, r, e, t1, t, found);
  }

  /** A replay that offers nothing ends at once. */
  lemma ReplayStops<H>(hd: Handler<H>, h: H, log: seq<Offered>, empty: bool, found: uint32, input: Bytes, o: Outcome<H>, o': Outcome<(H, seq<Offered>)>)
    requires o == Replay(hd, h, empty, found, input) && o' == Replay(Logging(hd), (h, log), empty, found, input)
    requires input != [] && hd.continues(h) && ReadRecord(input).Some? ==> !Unpackable(ReadRecord(input).value.0)
    ensures o' == Outcome((o.h, log), o.status, o.found, o.continued, o.defined) && o.found == found
  {
  }

  /** Logging changes nothing; the log is orderly, and the records found are those that were taken. */
  lemma {:induction false} OffersAreOrderly<H>(hd: Handler<H>, h: H, log: seq<Offered>, empty: bool, found: uint32, input: Bytes,
                                               o: Outcome<H>, o': Outcome<(H, seq<Offered>)>)
    returns (t: seq<Offered>)
    requires o == Replay(hd, h, empty, found, input) && o' == Replay(Logging(hd), (h, log), empty, found, input)
    ensures Logs(o, o', log, t, found) && Orderly(t, input)
    decreases |input|, 0
  {
    if input != [] && hd.continues(h) && ReadRecord(input).Some? && Unpackable(ReadRecord(input).value.0) {
      var (r, rest) := ReadRecord(input).value;
      t := OffersOf(hd, h, log, empty, found, input, r, rest, o, o');
    } else {
      t := [];
      ReplayStops(hd, h, log, empty, found, input, o, o');
      LogsNone(o, o', log, found);
    }
  }

  lemma {:induction false} OffersOf<H>(hd: Handler<H>, h: H, log: seq<Offered>, empty: bool, found: uint32, input: Bytes,
                                       r: Record, rest: Bytes, o: Outcome<H>, o': Outcome<(H, seq<Offered>)>)
    returns (t: seq<Offered>)
    requires input != [] && hd.continues(h) && ReadRecord(input) == Some((r, rest)) && Unpackable(r)
    requires o == Replay(hd, h, empty, found, input) && o' == Replay(Logging(hd), (h, log), empty, found, input)
    ensures Logs(o, o', log, t, found) && Orderly(t, input)
    decreases |rest|, 3
  {
    var p := Offer(hd, h, r, empty, found);
    var log1 := log + [Offered(r, p.status, empty)];
    var p' := Progress((p.h, log1), p.status, p.empty, p.found);
    OfferLogs(hd, h, log, r, empty, found, p, p');
    ReplayTaken(hd, h, empty, found, input, r, rest, p, o);
    ReplayTaken(Logging(hd), (h, log), empty, found, input, r, rest, p', o');
    if p.status == Ok {
      var t1 := OffersAreOrderly(hd, p.h, log1, p.empty, p.found, rest, o, o');
      t := [Offered(r, Ok, empty)] + t1;
      LogsTaken(o, o', log, r, empty, t1, t, found);
      OrderlyTaken(r, empty, rest, t1, t, input);
    } else if p.status == TryAgain {
      var t1 := AgainIsOrderly(hd, p, log1, r, rest, p', o, o');
      t := [Offered(r, TryAgain, empty)] + t1;
      LogsRetried(o, o', log, r, empty, t1, t, found);
      OrderlyRetried(r, empty, rest, t1, t, input);
    } else {
      t := [Offered(r, p.status, empty)];
      LogsOne(o, o', log, r, p.status, empty, found);
      OrderlyOne(r, rest, p.status, empty, input);
    }
  }

  lemma OrderlyOne(r: Record, rest: Bytes, s: Status, e: bool, input: Bytes)
    requires input != [] && ReadRecord(input) == Some((r, rest)) && s != Ok
    ensures Orderly([Offered(r, s, e)], input)
  {
  }

  /* ---------- whether the batch so far is empty ---------- */

  /** Each offer is told what the one before it left. */
  ghost predicate Flagged(t: seq<Offered>, empty: bool)
    decreases |t|
  {
    t == [] || (t[0].empty == empty && Flagged(t[1..], EmptyAfter(t[0].r, empty, t[0].s)))
  }

  /** Every offer of a replay is told the flag. */
  lemma {:induction false} OffersAreFlagged<H>(hd: Handler<H>, h: H, log: seq<Offered>, empty: bool, found: uint32, input: Bytes)
    returns (t: seq<Offered>)
    ensures Replay(Logging(hd), (h, log), empty, found, input).h.1 == log + t && Flagged(t, empty)
    decreases |input|, 0
  {
    t := [];
    if input != [] && hd.continues(h) && ReadRecord(input).Some? && Unpackable(ReadRecord(input).value.0) {
      var (r, rest) := ReadRecord(input).value;
      var p := Offer(hd, h, r, empty, found);
      var x := Offered(r, p.status, empty);
      OfferLogs(hd, h, log, r, empty, found, p, Progress((p.h, log + [x]), p.status, p.empty, p.found));
      if p.status == Ok {
        t := OffersAreFlagged(hd, p.h, log + [x], p.empty, p.found, rest);
      } else if p.status == TryAgain && hd.continues(p.h) {
        t := SecondIsFlagged(hd, p, log + [x], r, rest);
      }
      FlaggedFirst(log, x, t);
      t := [x] + t;
    } else {
      assert log + [] == log;
    }
  }

  lemma FlaggedFirst(log: seq<Offered>, x: Offered, t: seq<Offered>)
    requires Flagged(t, EmptyAfter(x.r, x.empty, x.s))
    ensures Flagged([x] + t, x.empty) && log + [x] + t == log + ([x] + t)
  {
    assert ([x] + t)[1..] == t;
  }

  lemma {:induction false} SecondIsFlagged<H>(hd: Handler<H>, p: Progress<H>, log: seq<Offered>, r: Record, rest: Bytes)
    returns (t: seq<Offered>)
    requires hd.continues(p.h)
    ensures ReplayAgain(Logging(hd), Progress((p.h, log), p.status, p.empty, p.found), r, rest).h.1 == log + t && Flagged(t, p.empty)
    decreases |rest|, 1
  {
    var q := Offer(hd, p.h, r, p.empty, p.found);
    var y := Offered(r, q.status, p.empty);
    OfferLogs(hd, p.h, log, r, p.empty, p.found, q, Progress((q.h, log + [y]), q.status, q.empty, q.found));
    t := [];
    if q.status == Ok {
      t := OffersAreFlagged(hd, q.h, log + [y], q.empty, q.found, rest);
    }
    FlaggedFirst(log, y, t);
    t := [y] + t;
  }

  /** What makes a batch not empty: data other than a blob index, when it is taken, log data, and the start of a section. */
  predicate Fills(o: Offered) {
    || (Counted(o.r) && !(o.r.Kv? && o.r.kind.PutBlobIndex?) && o.s == Ok)
    || (o.r.Blob? && o.r.blobKind.LogData?)
    || (o.r.Mark? && !o.r.mark.Noop?)
  }

  /** What ends a batch, so that an empty one begins: a no-op, the end of a section, and the end of a transaction. */
  predicate Empties(o: Offered) {
    || (o.r.Mark? && o.r.mark.Noop?)
    || (o.r.Blob? && !o.r.blobKind.LogData?)
    || (o.r.CommitAt? && o.s == Ok)
  }

  /** Nothing has been put into the batch since it was last ended. */
  ghost predicate NothingSince(t: seq<Offered>, n: nat)
    requires n <= |t|
  {
    forall i :: 0 <= i < n && Fills(t[i]) ==> exists j :: i < j < n && Empties(t[j])
  }

  lemma {:induction false} FlaggedNext(t: seq<Offered>, empty: bool, n: nat, before: Offered)
    requires Flagged(t, empty) && n < |t| && (n > 0 ==> before == t[n - 1])
    ensures t[n].empty == if n == 0 then empty else EmptyAfter(before.r, before.empty, before.s)
    decreases n
  {
    if n > 0 {
      var e := EmptyAfter(t[0].r, empty, t[0].s);
      assert t[n] == t[1..][n - 1];
      assert n > 1 ==> before == t[1..][n - 2];
      FlaggedNext(t[1..], e, n - 1, before);
    }
  }

  lemma NothingSinceNext(t: seq<Offered>, n: nat, last: nat)
    requires n <= |t| && n == last + 1
    ensures NothingSince(t, n) <==> Empties(t[last]) || (!Fills(t[last]) && NothingSince(t, last))
  {
    if Empties(t[last]) {
    } else if NothingSince(t, n) {
      forall i | 0 <= i < last && Fills(t[i]) ensures exists j :: i < j < last && Empties(t[j]) {
        var j :| i < j < n && Empties(t[j]);
        assert j != last;
      }
    }
  }

  lemma {:induction false} FlagMeans(t: seq<Offered>, n: nat)
    requires Flagged(t, true) && n < |t|
    ensures t[n].empty <==> NothingSince(t, n)
  {
    FlaggedNext(t, true, n, t[if n > 0 then n - 1 else 0]);
    if n > 0 {
      FlagMeans(t, n - 1);
      NothingSinceNext(t, n, n - 1);
    }
  }

  /** In every replay, to every handler, an offer is told that the batch is empty if and only if nothing has been put into it since
      it was last ended. */
  lemma ToldEmptyIff<H>(hd: Handler<H>, h: H, input: Bytes, t: seq<Offered>, n: nat)
    requires t == Replay(Logging(hd), (h, []), true, 0, input).h.1 && n < |t|
    ensures t[n].empty <==> NothingSince(t, n)
  {
    var t' := OffersAreFlagged(hd, h, [], true, 0, input);
    assert [] + t' == t';
    FlagMeans(t, n);
  }
}
