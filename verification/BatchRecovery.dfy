/**
 Inserting batches into memtables, and recovery from the log under the write-committed policy: a prepared section
 is rebuilt as a transaction and applied when its commit marker is met. The memtable is the list of what was
 added to it, the recovered transactions are a map from names.
 */
module BatchRecovery {
  import opened Coding
  import opened BatchCodec
  import opened BatchIterate
  import opened BatchState
  import opened Seal

  /** What the inserter knows about column families: which exist, up to which log each has been flushed, which can
      merge, which support range deletion, and how user keys compare. */
  datatype Config = Config(
    logOf: map<uint32, nat>, ignoreMissing: bool, allow2pc: bool, mergeable: set<uint32>, ranged: set<uint32>,
    compare: (Bytes, Bytes) -> int)

  datatype Insert = Insert(seqno: nat, r: Record, logRef: nat)

  type Data = r: Record | Counted(r) witness Key(Delete, 0, [])

  /** A prepared transaction: the log of its section and the records in it. */
  datatype Txn = Txn(log: nat, rs: seq<Data>)

  datatype State = State(seqno: nat, rebuilding: Option<seq<Data>>, inserts: seq<Insert>, txns: map<Bytes, Txn>)

  datatype Seek = Found | Skip | Missing

  /** A family that already holds the updates of the log being recovered is skipped. */
  function SeekToColumnFamily(cfg: Config, log: nat, cf: uint32): Seek {
    if cf !in cfg.logOf then (if cfg.ignoreMissing then Skip else Missing)
    else if log != 0 && log < cfg.logOf[cf] then Skip
    else Found
  }

  predicate EmptyRange(cfg: Config, r: Record) {
    r.Kv? && r.kind.DeleteRange? && cfg.compare(r.key, r.value) == 0
  }

  /** Adds one record to the memtable of its family. A skipped record uses up its sequence number, an empty range
      does not. */
  function ApplyData(cfg: Config, log: nat, logRef: nat, st: State, r: Data): (State, Status) {
    var next := st.(seqno := st.seqno + 1);
    match SeekToColumnFamily(cfg, log, r.cf)
    case Missing => (st, InvalidArgument)
    case Skip => (next, Ok)
    case Found =>
      if r.Kv? && r.kind.Merge? && r.cf !in cfg.mergeable then (st, InvalidArgument)
      else if r.Kv? && r.kind.DeleteRange? && r.cf !in cfg.ranged then (st, NotSupported)
      else if r.Kv? && r.kind.DeleteRange? && cfg.compare(r.key, r.value) > 0 then (st, InvalidArgument)
      else if EmptyRange(cfg, r) then (st, Ok)
      else (next.(inserts := st.inserts + [Insert(st.seqno, r, logRef)]), Ok)
  }

  /** The records of a transaction, one after the other. */
  function ApplyAll(cfg: Config, log: nat, logRef: nat, st: State, rs: seq<Data>): (State, Status)
    decreases |rs|
  {
    if rs == [] then (st, Ok)
    else
      var (st1, s) := ApplyData(cfg, log, logRef, st, rs[0]);
      if s != Ok then (st1, s) else ApplyAll(cfg, log, logRef, st1, rs[1..])
  }

  /** Timed puts and blob indexes cannot be part of a transaction. */
  predicate Rebuildable(r: Data) {
    !(r.Kv? && (r.kind.TimedPut? || r.kind.PutBlobIndex?))
  }

  /** The inserter as a handler; `log` is the log being recovered, zero for ordinary writes. */
  function Apply(cfg: Config, log: nat, logRef: nat, st: State, r: Record): (State, Status) {
    match r
    case Kv(_, _, _, _) => ApplyOrRebuild(cfg, log, logRef, st, r)
    case Key(_, _, _) => ApplyOrRebuild(cfg, log, logRef, st, r)
    case Blob(LogData, _) => (st, Ok)
    case Mark(Noop) => (st, Ok)
    case Mark(_) =>
      if log == 0 then (st, Ok)
      else if !cfg.allow2pc then (st, NotSupported)
      else (st.(rebuilding := Some([])), Ok)
    case Blob(EndPrepare, name) =>
      if log == 0 then (st, Ok)
      else if st.rebuilding.None? then (st, Corruption)
      else (st.(txns := st.txns[name := Txn(log, st.rebuilding.value)], rebuilding := None), Ok)
    case Blob(Commit, name) =>
      if log == 0 || name !in st.txns then (st, Ok)
      else
        var (st1, s) := ApplyAll(cfg, log, st.txns[name].log, st, st.txns[name].rs);
        if s == Ok then (st1.(txns := st1.txns - {name}), Ok) else (st1, s)
    case Blob(Rollback, name) => (if log == 0 then st else st.(txns := st.txns - {name}), Ok)
    case CommitAt(_, _) => (st, NotSupported)
  }

  function ApplyOrRebuild(cfg: Config, log: nat, logRef: nat, st: State, r: Data): (State, Status) {
    match st.rebuilding
    case None => ApplyData(cfg, log, logRef, st, r)
    case Some(rs) => if Rebuildable(r) then (st.(rebuilding := Some(rs + [r])), Ok) else (st, NotSupported)
  }

  function Inserter(cfg: Config, log: nat, logRef: nat): Handler<State> {
    Handler(
      (st: State) => true,
      (st: State, r: Record, e: bool) => Apply(cfg, log, logRef, st, r),
      Enabled, Disabled)
  }

  /* ---------- replaying a list to the inserter ---------- */

  function Run(cfg: Config, log: nat, logRef: nat, st: State, rs: seq<Record>): (State, Status)
    decreases |rs|
  {
    if rs == [] then (st, Ok)
    else
      var (st1, s) := Apply(cfg, log, logRef, st, rs[0]);
      if s != Ok then (st1, s) else Run(cfg, log, logRef, st1, rs[1..])
  }

  lemma {:induction false} NeverTryAgain(cfg: Config, log: nat, logRef: nat, st: State, rs: seq<Data>)
    ensures ApplyAll(cfg, log, logRef, st, rs).1 != TryAgain
    decreases |rs|
  {
    if rs != [] {
      NeverTryAgain(cfg, log, logRef, ApplyData(cfg, log, logRef, st, rs[0]).0, rs[1..]);
    }
  }

  lemma ApplyNeverTryAgain(cfg: Config, log: nat, logRef: nat, st: State, r: Record)
    ensures Apply(cfg, log, logRef, st, r).1 != TryAgain
  {
    if r.Blob? && r.blobKind.Commit? && r.data in st.txns {
      NeverTryAgain(cfg, log, st.txns[r.data].log, st, st.txns[r.data].rs);
    }
  }

  /** Markers of the write-committed policy, the only ones a log of that policy holds. */
  predicate Committed(r: Record) {
    !r.CommitAt? && (r.Mark? ==> r.mark.Noop? || r.mark.BeginPrepare?)
  }

  lemma OfferIsApply(cfg: Config, log: nat, logRef: nat, st: State, r: Record, empty: bool, found: uint32)
    requires Committed(r)
    ensures var p, a := Offer(Inserter(cfg, log, logRef), st, r, empty, found), Apply(cfg, log, logRef, st, r);
            p.h == a.0 && p.status == a.1
  {
  }

  /** A replay stops at the first record the inserter refuses. */
  lemma {:induction false} ReplayIsRun(cfg: Config, log: nat, logRef: nat, st: State, rs: seq<Record>, empty: bool, found: uint32)
    requires forall r :: r in rs ==> Committed(r)
    ensures var o := ReplayList(Inserter(cfg, log, logRef), st, empty, found, rs);
            (o.h, o.status) == Run(cfg, log, logRef, st, rs) && o.continued && o.defined && (o.status == Ok ==> o.found == (found + CountedIn(rs)) % TWO32)
    decreases |rs|
  {
    if rs != [] {
      var p := Offer(Inserter(cfg, log, logRef), st, rs[0], empty, found);
      OfferIsApply(cfg, log, logRef, st, rs[0], empty, found);
      ApplyNeverTryAgain(cfg, log, logRef, st, rs[0]);
      if p.status == Ok {
        ReplayIsRun(cfg, log, logRef, p.h, rs[1..], p.empty, p.found);
        WrapTwice(found, CountedIn(rs[1..]));
      }
    }
  }

  lemma ReplayOfBody(hd: Handler<State>, st: State, rs: seq<Record>, body: Bytes, o: Outcome<State>)
    requires body == EncodeAll(rs) && (forall r :: r in rs ==> Fits(r) && Unpackable(r)) && o == Replay(hd, st, true, 0, body)
    ensures o == ReplayList(hd, st, true, 0, rs)
  {
    ReplayOfEncoded(hd, st, true, 0, rs);
  }

  lemma ListReplayIsRun(cfg: Config, log: nat, logRef: nat, rs: seq<Record>, st: State, o: Outcome<State>, count: uint32)
    requires (forall r :: r in rs ==> Committed(r)) && o == ReplayList(Inserter(cfg, log, logRef), st, true, 0, rs) && count == CountedIn(rs) % TWO32
    ensures (o.h, Verdict(o, true, count)) == Run(cfg, log, logRef, st, rs) && o.defined
  {
    ReplayIsRun(cfg, log, logRef, st, rs, true, 0);
    VerdictIs(o, Run(cfg, log, logRef, st, rs), count);
  }

  lemma BatchReplayIsRun(cfg: Config, log: nat, logRef: nat, b: Batch, rs: seq<Record>, st: State, o: Outcome<State>)
    requires b.body == EncodeAll(rs) && b.count == CountedIn(rs) % TWO32 && (forall r :: r in rs ==> Fits(r) && Unpackable(r) && Committed(r))
    requires o == Replay(Inserter(cfg, log, logRef), st, true, 0, b.body)
    ensures (o.h, Verdict(o, true, b.count)) == Run(cfg, log, logRef, st, rs) && o.defined
  {
    ReplayOfBody(Inserter(cfg, log, logRef), st, rs, b.body, o);
    ListReplayIsRun(cfg, log, logRef, rs, st, o, b.count);
  }

  lemma VerdictIs(o: Outcome<State>, run: (State, Status), count: uint32)
    requires (o.h, o.status) == run && (o.status == Ok ==> o.found == count)
    ensures (o.h, Verdict(o, true, count)) == run
  {
  }

  /* ---------- what recovery should do ---------- */

  /** One record of the log, with the number of the log file it is in; the first of a batch has the batch's sequence number. */
  datatype Event = Event(log: nat, r: Record, start: Option<nat>)

  predicate IsBegin(r: Record) {
    r == Mark(BeginPrepare)
  }

  predicate IsEnd(r: Record) {
    r.Blob? && r.blobKind.EndPrepare?
  }

  /** Whether position `n` is between a begin marker and its end marker. */
  ghost predicate InSection(es: seq<Event>, n: nat)
    requires n <= |es|
  {
    n > 0 && (IsBegin(es[n - 1].r) || (!IsEnd(es[n - 1].r) && InSection(es, n - 1)))
  }

  /** The records since the last begin marker. */
  ghost function Section(es: seq<Event>, n: nat): seq<Data>
    requires n <= |es|
  {
    if n == 0 || IsBegin(es[n - 1].r) then []
    else Section(es, n - 1) + if Counted(es[n - 1].r) then [es[n - 1].r] else []
  }

  /** The section that is prepared under `name` at position `n`: the last one with that name, unless it has been
      committed or rolled back since. */
  ghost function PreparedAt(es: seq<Event>, n: nat, name: Bytes): Option<Txn>
    requires n <= |es|
  {
    if n == 0 then None
    else
      match es[n - 1].r
      case Blob(EndPrepare, x) => if x == name then Some(Txn(es[n - 1].log, Section(es, n - 1))) else PreparedAt(es, n - 1, name)
      case Blob(Commit, x) => if x == name then None else PreparedAt(es, n - 1, name)
      case Blob(Rollback, x) => if x == name then None else PreparedAt(es, n - 1, name)
      case _ => PreparedAt(es, n - 1, name)
  }

  /** The record goes into a memtable: its family exists and has not been flushed past this log, and it is no empty range. */
  predicate Reaches(cfg: Config, log: nat, r: Data) {
    && r.cf in cfg.logOf && (log == 0 || cfg.logOf[r.cf] <= log)
    && !(r.Kv? && r.kind.DeleteRange? && cfg.compare(r.key, r.value) == 0)
  }

  /** An empty range of a family that would take it. */
  predicate Idle(cfg: Config, log: nat, r: Data) {
    && r.cf in cfg.logOf && (log == 0 || cfg.logOf[r.cf] <= log)
    && r.Kv? && r.kind.DeleteRange? && cfg.compare(r.key, r.value) == 0
  }

  /** What the memtables get from records that are recovered with the sequence numbers from `seqno` on. A family that is
      skipped uses up a number, an empty range does not. */
  function Placed(cfg: Config, log: nat, seqno: nat, logRef: nat, rs: seq<Data>): seq<Insert>
    decreases |rs|
  {
    if rs == [] then []
    else if Reaches(cfg, log, rs[0]) then [Insert(seqno, rs[0], logRef)] + Placed(cfg, log, seqno + 1, logRef, rs[1..])
    else Placed(cfg, log, seqno + (if Idle(cfg, log, rs[0]) then 0 else 1), logRef, rs[1..])
  }

  /** The sequence numbers these records use up. */
  function UsedUp(cfg: Config, log: nat, rs: seq<Data>): nat {
    if rs == [] then 0 else (if Idle(cfg, log, rs[0]) then 0 else 1) + UsedUp(cfg, log, rs[1..])
  }

  /** How many of these records go into a memtable. */
  ghost function Reaching(cfg: Config, log: nat, rs: seq<Data>): nat {
    if rs == [] then 0 else (if Reaches(cfg, log, rs[0]) then 1 else 0) + Reaching(cfg, log, rs[1..])
  }

  /** The records that event `n` brings to the memtables, and the log they refer to: a record outside sections brings itself, a
      commit the section it commits, whose log it refers to; nothing else brings anything. */
  ghost function Brought(es: seq<Event>, n: nat): (seq<Data>, nat)
    requires n < |es|
  {
    var r := es[n].r;
    if r.Blob? && r.blobKind.Commit? then (match PreparedAt(es, n, r.data) case None => ([], 0) case Some(txn) => (txn.rs, txn.log))
    else if Counted(r) && !InSection(es, n) then ([r], 0)
    else ([], 0)
  }

  /** The sequence number at event `n`: that of its batch, and one more for every number used up in the batch so far. */
  ghost function SeqnoAt(cfg: Config, es: seq<Event>, n: nat): nat
    requires n < |es|
  {
    match es[n].start
    case Some(s) => s
    case None => if n == 0 then 0 else SeqnoAt(cfg, es, n - 1) + UsedUp(cfg, es[n - 1].log, Brought(es, n - 1).0)
  }

  /** What event `n` adds to the memtables. */
  ghost function Contribution(cfg: Config, es: seq<Event>, n: nat): seq<Insert>
    requires n < |es|
  {
    Placed(cfg, es[n].log, SeqnoAt(cfg, es, n), Brought(es, n).1, Brought(es, n).0)
  }

  ghost function Work(cfg: Config, es: seq<Event>, n: nat): seq<Insert>
    requires n <= |es|
  {
    if n == 0 then [] else Work(cfg, es, n - 1) + Contribution(cfg, es, n - 1)
  }

  /** Markers come in order: sections do not nest, and commits and rollbacks are outside. */
  ghost predicate Bracketed(es: seq<Event>, n: nat)
    requires n < |es|
  {
    var r := es[n].r;
    && es[n].log > 0 && Committed(r)
    && (IsBegin(r) ==> !InSection(es, n))
    && (IsEnd(r) ==> InSection(es, n))
    && (r.Blob? && (r.blobKind.Commit? || r.blobKind.Rollback?) ==> !InSection(es, n))
  }

  /** A memtable takes the record, or its family is skipped: it does not exist, or has been flushed past this log. */
  predicate Takes(cfg: Config, log: nat, r: Data) {
    if r.cf !in cfg.logOf then cfg.ignoreMissing
    else if 0 < log < cfg.logOf[r.cf] then true
    else
      && (r.Kv? && r.kind.Merge? ==> r.cf in cfg.mergeable)
      && (r.Kv? && r.kind.DeleteRange? ==> r.cf in cfg.ranged && cfg.compare(r.key, r.value) <= 0)
  }

  /** The configuration allows what event `n` asks for. */
  ghost predicate Supported(cfg: Config, es: seq<Event>, n: nat)
    requires n < |es|
  {
    var log, r := es[n].log, es[n].r;
    && (IsBegin(r) ==> cfg.allow2pc)
    && (Counted(r) ==> if InSection(es, n) then !(r.Kv? && r.kind in {TimedPut, PutBlobIndex}) else Takes(cfg, log, r))
    && (r.Blob? && r.blobKind.Commit? ==>
          match PreparedAt(es, n, r.data) case None => true case Some(txn) => forall q :: q in txn.rs ==> Takes(cfg, log, q))
  }

  /* ---------- what recovery does ---------- */

  ghost predicate TxnIs(es: seq<Event>, n: nat, txns: map<Bytes, Txn>, name: Bytes)
    requires n <= |es|
  {
    PreparedAt(es, n, name) == if name in txns then Some(txns[name]) else None
  }

  /** After `n` events the inserter is where it should be. */
  ghost predicate Caught(cfg: Config, es: seq<Event>, n: nat, st: State) {
    && n <= |es|
    && st.rebuilding == (if InSection(es, n) then Some(Section(es, n)) else None)
    && st.inserts == Work(cfg, es, n)
    && (forall name {:trigger TxnIs(es, n, st.txns, name)} :: TxnIs(es, n, st.txns, name))
  }

  lemma PlacedOne(cfg: Config, log: nat, seqno: nat, logRef: nat, r: Data)
    ensures UsedUp(cfg, log, [r]) == if Idle(cfg, log, r) then 0 else 1
    ensures Placed(cfg, log, seqno, logRef, [r]) == if Reaches(cfg, log, r) then [Insert(seqno, r, logRef)] else []
  {
    assert [r][1..] == [];
  }

  lemma ApplyDataIs(cfg: Config, log: nat, logRef: nat, st: State, r: Data, st': State)
    requires ApplyData(cfg, log, logRef, st, r) == (st', Ok)
    ensures st'.inserts == st.inserts + Placed(cfg, log, st.seqno, logRef, [r]) && st'.seqno == st.seqno + UsedUp(cfg, log, [r])
    ensures st'.txns == st.txns && st'.rebuilding == st.rebuilding
  {
    PlacedOne(cfg, log, st.seqno, logRef, r);
    assert st.inserts + [] == st.inserts;
  }

  lemma PlacedFirst(cfg: Config, log: nat, seqno: nat, logRef: nat, rs: seq<Data>)
    requires rs != []
    ensures UsedUp(cfg, log, rs) == UsedUp(cfg, log, [rs[0]]) + UsedUp(cfg, log, rs[1..])
    ensures Placed(cfg, log, seqno, logRef, rs) ==
              Placed(cfg, log, seqno, logRef, [rs[0]]) + Placed(cfg, log, seqno + UsedUp(cfg, log, [rs[0]]), logRef, rs[1..])
  {
    PlacedOne(cfg, log, seqno, logRef, rs[0]);
  }

  lemma {:induction false} ApplyAllIs(cfg: Config, log: nat, logRef: nat, st: State, rs: seq<Data>, st': State)
    requires ApplyAll(cfg, log, logRef, st, rs) == (st', Ok)
    ensures st'.inserts == st.inserts + Placed(cfg, log, st.seqno, logRef, rs) && st'.seqno == st.seqno + UsedUp(cfg, log, rs)
    ensures st'.txns == st.txns && st'.rebuilding == st.rebuilding
    decreases |rs|
  {
    if rs == [] {
      assert st.inserts + [] == st.inserts;
    } else {
      var st1 := ApplyData(cfg, log, logRef, st, rs[0]).0;
      ApplyDataIs(cfg, log, logRef, st, rs[0], st1);
      ApplyAllIs(cfg, log, logRef, st1, rs[1..], st');
      PlacedFirst(cfg, log, st.seqno, logRef, rs);
      Assoc3(st.inserts, Placed(cfg, log, st.seqno, logRef, [rs[0]]), Placed(cfg, log, st1.seqno, logRef, rs[1..]));
    }
  }

  lemma {:induction false} RunIsApplyAll(cfg: Config, log: nat, logRef: nat, st: State, rs: seq<Data>, all: seq<Record>)
    requires st.rebuilding.None? && all == rs
    ensures Run(cfg, log, logRef, st, all) == ApplyAll(cfg, log, logRef, st, rs)
    decreases |rs|
  {
    if rs != [] {
      var (st1, s) := ApplyData(cfg, log, logRef, st, rs[0]);
      if s == Ok {
        ApplyDataIs(cfg, log, logRef, st, rs[0], st1);
        RunIsApplyAll(cfg, log, logRef, st1, rs[1..], all[1..]);
      }
    }
  }

  /** The source rebuilds a prepared section as a batch, and a commit replays the bytes of that batch: this is what applying its
      records one after the other does. */
  lemma RebuiltBatchReplays(cfg: Config, log: nat, logRef: nat, st: State, hs: Hasher, b: Batch, rs: seq<Data>, all: seq<Record>)
    requires st.rebuilding.None? && all == rs && Represents(hs, b, all) && forall r :: r in rs ==> Fits(r) && Unpackable(r)
    ensures var o := Replay(Inserter(cfg, log, logRef), st, true, 0, b.body);
            o.defined && (o.h, Verdict(o, true, b.count)) == ApplyAll(cfg, log, logRef, st, rs)
  {
    forall r | r in all ensures Fits(r) && Unpackable(r) && Committed(r) {
      assert r in rs;
    }
    BatchReplayIsRun(cfg, log, logRef, b, all, st, Replay(Inserter(cfg, log, logRef), st, true, 0, b.body));
    RunIsApplyAll(cfg, log, logRef, st, rs, all);
  }

  lemma TxnKept(es: seq<Event>, n: nat, m: nat, txns: map<Bytes, Txn>)
    requires n < |es| && m == n + 1 && (forall name :: TxnIs(es, n, txns, name))
    requires !(es[n].r.Blob? && !es[n].r.blobKind.LogData?)
    ensures forall name {:trigger TxnIs(es, m, txns, name)} :: TxnIs(es, m, txns, name)
  {
    forall name ensures TxnIs(es, m, txns, name) {
      assert TxnIs(es, n, txns, name);
    }
  }

  lemma TxnChanged(es: seq<Event>, n: nat, m: nat, txns: map<Bytes, Txn>, x: Bytes, txns': map<Bytes, Txn>)
    requires n < |es| && m == n + 1 && (forall name :: TxnIs(es, n, txns, name)) && es[n].r.Blob? && es[n].r.data == x
    requires match es[n].r.blobKind
             case EndPrepare => txns' == txns[x := Txn(es[n].log, Section(es, n))]
             case LogData => txns' == txns
             case _ => txns' == txns - {x}
    ensures forall name {:trigger TxnIs(es, m, txns', name)} :: TxnIs(es, m, txns', name)
  {
    forall name ensures TxnIs(es, m, txns', name) {
      assert TxnIs(es, n, txns, name);
    }
  }

  /** The next event of the same batch goes on with the sequence number this one left. */
  ghost predicate GoesOn(cfg: Config, es: seq<Event>, n: nat, st: State) {
    n < |es| && es[n].start.None? ==> st.seqno == SeqnoAt(cfg, es, n)
  }

  lemma CaughtData(cfg: Config, es: seq<Event>, n: nat, m: nat, st: State, st': State)
    requires Caught(cfg, es, n, st) && n < |es| && m == n + 1 && Bracketed(es, n) && Counted(es[n].r) && st.seqno == SeqnoAt(cfg, es, n)
    requires ApplyOrRebuild(cfg, es[n].log, 0, st, es[n].r) == (st', Ok)
    ensures Caught(cfg, es, m, st') && GoesOn(cfg, es, m, st')
  {
    TxnKept(es, n, m, st.txns);
    if st.rebuilding.None? {
      ApplyDataIs(cfg, es[n].log, 0, st, es[n].r, st');
    } else {
      assert Work(cfg, es, n) + [] == Work(cfg, es, n);
    }
  }

  lemma CaughtCommit(cfg: Config, es: seq<Event>, n: nat, m: nat, st: State, name: Bytes, st': State)
    requires Caught(cfg, es, n, st) && n < |es| && m == n + 1 && Bracketed(es, n) && es[n].r == Blob(Commit, name) && st.seqno == SeqnoAt(cfg, es, n)
    requires Apply(cfg, es[n].log, 0, st, es[n].r) == (st', Ok)
    ensures Caught(cfg, es, m, st') && GoesOn(cfg, es, m, st')
  {
    assert TxnIs(es, n, st.txns, name);
    if name in st.txns {
      var txn := st.txns[name];
      var st1 := ApplyAll(cfg, es[n].log, txn.log, st, txn.rs).0;
      ApplyAllIs(cfg, es[n].log, txn.log, st, txn.rs, st1);
    } else {
      assert st.txns - {name} == st.txns;
      assert Work(cfg, es, n) + [] == Work(cfg, es, n);
    }
    TxnChanged(es, n, m, st.txns, name, st'.txns);
  }

  lemma CaughtMarker(cfg: Config, es: seq<Event>, n: nat, m: nat, st: State, st': State)
    requires Caught(cfg, es, n, st) && n < |es| && m == n + 1 && Bracketed(es, n) && st.seqno == SeqnoAt(cfg, es, n)
    requires !Counted(es[n].r) && !(es[n].r.Blob? && es[n].r.blobKind.Commit?)
    requires Apply(cfg, es[n].log, 0, st, es[n].r) == (st', Ok)
    ensures Caught(cfg, es, m, st') && GoesOn(cfg, es, m, st')
  {
    assert Work(cfg, es, n) + [] == Work(cfg, es, n);
    var r := es[n].r;
    if r.Blob? {
      TxnChanged(es, n, m, st.txns, r.data, st'.txns);
    } else {
      TxnKept(es, n, m, st.txns);
    }
    if InSection(es, n) && !IsEnd(r) {
      assert Section(es, n) + [] == Section(es, n);
    }
  }

  ghost predicate CaughtUp(cfg: Config, es: seq<Event>, n: nat, st: State) {
    forall k: nat {:trigger Open(k)} :: Open(k) ==> Caught(cfg, es, n, st)
  }

  /** One event keeps the inserter where it should be. */
  lemma CaughtStep(cfg: Config, es: seq<Event>, n: nat, m: nat, st: State, st': State)
    requires Caught(cfg, es, n, st) && n < |es| && m == n + 1 && Bracketed(es, n) && st.seqno == SeqnoAt(cfg, es, n)
    requires Apply(cfg, es[n].log, 0, st, es[n].r) == (st', Ok)
    ensures Caught(cfg, es, m, st') && GoesOn(cfg, es, m, st')
  {
    var r := es[n].r;
    if Counted(r) {
      CaughtData(cfg, es, n, m, st, st');
    } else if r.Blob? && r.blobKind.Commit? {
      CaughtCommit(cfg, es, n, m, st, r.data, st');
    } else {
      CaughtMarker(cfg, es, n, m, st, st');
    }
  }

  lemma {:induction false} ApplyAllOkIff(cfg: Config, log: nat, logRef: nat, st: State, rs: seq<Data>)
    ensures ApplyAll(cfg, log, logRef, st, rs).1 == Ok <==> forall q :: q in rs ==> Takes(cfg, log, q)
    decreases |rs|
  {
    if rs != [] {
      var (st1, s) := ApplyData(cfg, log, logRef, st, rs[0]);
      assert s == Ok <==> Takes(cfg, log, rs[0]);
      ApplyAllOkIff(cfg, log, logRef, st1, rs[1..]);
      assert forall q :: q in rs <==> q == rs[0] || q in rs[1..];
    }
  }

  /** An event is refused exactly when the configuration does not allow it. */
  lemma StepOkIff(cfg: Config, es: seq<Event>, n: nat, st: State)
    requires Caught(cfg, es, n, st) && n < |es| && Bracketed(es, n)
    ensures Apply(cfg, es[n].log, 0, st, es[n].r).1 == Ok <==> Supported(cfg, es, n)
  {
    var log, r := es[n].log, es[n].r;
    if r.Blob? && r.blobKind.Commit? {
      assert TxnIs(es, n, st.txns, r.data);
      if r.data in st.txns {
        ApplyAllOkIff(cfg, log, st.txns[r.data].log, st, st.txns[r.data].rs);
      }
    }
  }

  /** The events of a batch, or of the rest of one. */
  ghost predicate EventsAre(es: seq<Event>, n: nat, log: nat, start: Option<nat>, rs: seq<Record>) {
    n + |rs| <= |es| && forall i :: 0 <= i < |rs| ==> es[n + i] == Event(log, rs[i], if i == 0 then start else None)
  }

  lemma EventsNext(es: seq<Event>, n: nat, log: nat, start: Option<nat>, rs: seq<Record>, n': nat)
    requires EventsAre(es, n, log, start, rs) && rs != [] && n' == n + 1
    ensures es[n] == Event(log, rs[0], start) && EventsAre(es, n', log, None, rs[1..]) && (|rs| > 1 ==> es[n'].start == None)
  {
    assert es[n + 0] == Event(log, rs[0], start);
    forall i | 0 <= i < |rs[1..]| ensures es[n' + i] == Event(log, rs[1..][i], None) {
      assert es[n + (i + 1)] == Event(log, rs[i + 1], None);
    }
    if |rs| > 1 {
      assert es[n + 1] == Event(log, rs[1], None);
    }
  }

  ghost predicate AllSupported(cfg: Config, es: seq<Event>, n: nat, m: nat) {
    m <= |es| && forall k: nat {:trigger Open(k)} :: Open(k) ==> forall i :: n <= i < m ==> Supported(cfg, es, i)
  }

  lemma AllSupportedJoins(cfg: Config, es: seq<Event>, a: nat, n: nat, m: nat)
    requires a <= n <= m <= |es|
    ensures AllSupported(cfg, es, a, m) <==> AllSupported(cfg, es, a, n) && AllSupported(cfg, es, n, m)
  {
    assert Open(0);
  }

  lemma AllSupportedOne(cfg: Config, es: seq<Event>, n: nat)
    requires n <= |es|
    ensures AllSupported(cfg, es, n, n) && (n < |es| ==> (AllSupported(cfg, es, n, n + 1) <==> Supported(cfg, es, n)))
  {
    assert Open(0);
  }

  /** A batch is replayed to its end exactly when the configuration allows all of it. */
  lemma {:induction false} CaughtRun(cfg: Config, es: seq<Event>, n: nat, m: nat, log: nat, start: Option<nat>, st: State, rs: seq<Record>)
    requires Caught(cfg, es, n, st) && EventsAre(es, n, log, start, rs) && m == n + |rs| && forall i :: 0 <= i < |es| ==> Bracketed(es, i)
    requires rs != [] ==> st.seqno == SeqnoAt(cfg, es, n)
    ensures Run(cfg, log, 0, st, rs).1 == Ok <==> AllSupported(cfg, es, n, m)
    ensures Run(cfg, log, 0, st, rs).1 == Ok ==> Caught(cfg, es, m, Run(cfg, log, 0, st, rs).0)
    decreases |rs|
  {
    AllSupportedOne(cfg, es, n);
    if rs != [] {
      var n' := n + 1;
      AllSupportedJoins(cfg, es, n, n', m);
      EventsNext(es, n, log, start, rs, n');
      var (st1, s) := Apply(cfg, log, 0, st, rs[0]);
      StepOkIff(cfg, es, n, st);
      if s == Ok {
        CaughtStep(cfg, es, n, n', st, st1);
        CaughtRun(cfg, es, n', m, log, None, st1, rs[1..]);
      }
    }
  }

  /** The log: its batches, with the number of the log file each is in. */
  datatype LogEntry = LogEntry(log: nat, b: Batch)

  /** Where the events of batch `i` start. */
  ghost function StartOf(rss: seq<seq<Record>>, i: nat): nat
    requires i <= |rss|
  {
    if i == 0 then 0 else StartOf(rss, i - 1) + |rss[i - 1]|
  }

  ghost predicate AllBracketed(es: seq<Event>) {
    forall k: nat {:trigger Open(k)} :: Open(k) ==> forall i :: 0 <= i < |es| ==> Bracketed(es, i)
  }

  /** Batch `w` holds the events from position `n` on, which is outside sections. */
  ghost predicate Holds(hs: Hasher, w: LogEntry, rs: seq<Record>, es: seq<Event>, n: nat) {
    && Represents(hs, w.b, rs) && (forall r :: r in rs ==> Fits(r) && Unpackable(r) && Committed(r))
    && EventsAre(es, n, w.log, Some(w.b.seqno), rs) && !InSection(es, n)
  }

  /** `es` are the records of the log, batch by batch. */
  ghost predicate IsLog(hs: Hasher, wal: seq<LogEntry>, rss: seq<seq<Record>>, es: seq<Event>) {
    && |rss| == |wal| && |es| == StartOf(rss, |rss|) && AllBracketed(es)
    && (forall k: nat {:trigger Open(k)} :: Open(k) ==> forall i :: 0 <= i < |wal| ==> Holds(hs, wal[i], rss[i], es, StartOf(rss, i)))
  }

  lemma {:induction false} StartsGrow(rss: seq<seq<Record>>, i: nat, j: nat)
    requires i <= j <= |rss|
    ensures StartOf(rss, i) <= StartOf(rss, j)
  {
    if i < j {
      StartsGrow(rss, i, j - 1);
    }
  }

  /** Replays one batch of the log to a new inserter; the batch brings its own sequence number. */
  method RecoverBatch(cfg: Config, w: LogEntry, st: State, ghost hs: Hasher, ghost rs: seq<Record>, ghost es: seq<Event>, ghost n: nat, ghost m: nat)
    returns (st': State, status: Status)
    requires Holds(hs, w, rs, es, n) && m == n + |rs| && CaughtUp(cfg, es, n, st) && AllBracketed(es)
    ensures status == Ok ==> CaughtUp(cfg, es, m, st')
    ensures status == Ok <==> AllSupported(cfg, es, n, m)
  {
    RepReads(w.b);
    var rep := Rep(w.b);
    var start := st.(seqno := w.b.seqno, rebuilding := None);
    var defined;
    st', status, defined := Iterate(Inserter(cfg, w.log, 0), start, rep, HEADER, |rep|);
    assert rep[HEADER..|rep|] == w.b.body;
    BatchReplayIsRun(cfg, w.log, 0, w.b, rs, start, Replay(Inserter(cfg, w.log, 0), start, true, 0, w.b.body));
    BatchCaught(cfg, es, n, m, w.log, w.b.seqno, st, start, rs);
  }

  lemma BatchCaught(cfg: Config, es: seq<Event>, n: nat, m: nat, log: nat, seqno: nat, st: State, start: State, rs: seq<Record>)
    requires CaughtUp(cfg, es, n, st) && AllBracketed(es) && EventsAre(es, n, log, Some(seqno), rs) && m == n + |rs| && !InSection(es, n)
    requires start == st.(seqno := seqno, rebuilding := None)
    ensures Run(cfg, log, 0, start, rs).1 == Ok <==> AllSupported(cfg, es, n, m)
    ensures Run(cfg, log, 0, start, rs).1 == Ok ==> CaughtUp(cfg, es, m, Run(cfg, log, 0, start, rs).0)
  {
    assert Open(0);
    assert Caught(cfg, es, n, start);
    if rs != [] {
      EventsNext(es, n, log, Some(seqno), rs, n + 1);
    }
    CaughtRun(cfg, es, n, m, log, Some(seqno), start, rs);
  }

  lemma BatchAt(hs: Hasher, wal: seq<LogEntry>, rss: seq<seq<Record>>, es: seq<Event>, i: nat, n: nat, m: nat)
    requires IsLog(hs, wal, rss, es) && i < |wal| && n == StartOf(rss, i) && m == StartOf(rss, i + 1)
    ensures Holds(hs, wal[i], rss[i], es, n) && m == n + |rss[i]| <= |es|
  {
    assert Open(0);
    StartsGrow(rss, i + 1, |rss|);
  }

  lemma CaughtAtStart(cfg: Config, es: seq<Event>, st: State)
    requires st.rebuilding == None && st.inserts == [] && st.txns == map[]
    ensures CaughtUp(cfg, es, 0, st)
  {
    forall name ensures TxnIs(es, 0, st.txns, name) {
    }
  }

  /** The memtables hold exactly the committed work, in order, with the sequence numbers of the batches that brought it and
      the logs it refers to; the recovered transactions are exactly those still prepared. */
  ghost predicate Recovered(cfg: Config, es: seq<Event>, st: State) {
    && st.inserts == Work(cfg, es, |es|)
    && (forall name {:trigger TxnIs(es, |es|, st.txns, name)} :: TxnIs(es, |es|, st.txns, name))
  }

  lemma CaughtAtEnd(cfg: Config, es: seq<Event>, n: nat, st: State)
    requires CaughtUp(cfg, es, n, st) && n == |es|
    ensures Recovered(cfg, es, st)
  {
    assert Open(0);
  }

  lemma SupportedSoFar(cfg: Config, es: seq<Event>, n: nat, m: nat)
    requires n <= m <= |es| && AllSupported(cfg, es, 0, n)
    ensures AllSupported(cfg, es, n, m) ==> AllSupported(cfg, es, 0, m)
    ensures !AllSupported(cfg, es, n, m) ==> !AllSupported(cfg, es, 0, |es|)
  {
    AllSupportedJoins(cfg, es, 0, n, m);
    AllSupportedJoins(cfg, es, 0, m, |es|);
  }

  /** Recovery of a whole log succeeds exactly when the configuration allows every event; then it recovers exactly
      what was committed and what is still prepared. */
  method Recover(cfg: Config, wal: seq<LogEntry>, ghost hs: Hasher, ghost rss: seq<seq<Record>>, ghost es: seq<Event>)
    returns (st: State, status: Status)
    requires IsLog(hs, wal, rss, es)
    ensures status == Ok <==> AllSupported(cfg, es, 0, |es|)
    ensures status == Ok ==> Recovered(cfg, es, st)
  {
    st, status := State(0, None, [], map[]), Ok;
    CaughtAtStart(cfg, es, st);
    AllSupportedOne(cfg, es, 0);
    var i := 0;
    ghost var n := 0;
    while i < |wal| && status == Ok
      invariant i <= |wal|
      invariant status == Ok ==> n == StartOf(rss, i) && CaughtUp(cfg, es, n, st) && AllSupported(cfg, es, 0, n)
      invariant status != Ok ==> !AllSupported(cfg, es, 0, |es|)
    {
      ghost var m := StartOf(rss, i + 1);
      BatchAt(hs, wal, rss, es, i, n, m);
      st, status := RecoverBatch(cfg, wal[i], st, hs, rss[i], es, n, m);
      SupportedSoFar(cfg, es, n, m);
      i, n := i + 1, m;
    }
    if status == Ok {
      CaughtAtEnd(cfg, es, n, st);
    }
  }

  lemma {:induction false} PlacedAt(cfg: Config, log: nat, seqno: nat, logRef: nat, rs: seq<Data>, q: nat, k: nat, added: seq<Insert>)
    requires q < |rs| && k == Reaching(cfg, log, rs[..q]) && added == Placed(cfg, log, seqno, logRef, rs)
    ensures Reaches(cfg, log, rs[q]) ==> k < |added| && added[k] == Insert(seqno + UsedUp(cfg, log, rs[..q]), rs[q], logRef)
    decreases |rs|
  {
    if q > 0 {
      var rest, used := rs[1..], UsedUp(cfg, log, [rs[0]]);
      assert rs[..q][0] == rs[0] && rs[..q][1..] == rest[..q - 1] && rest[q - 1] == rs[q];
      PlacedOne(cfg, log, seqno, logRef, rs[0]);
      PlacedFirst(cfg, log, seqno, logRef, rs);
      PlacedAt(cfg, log, seqno + used, logRef, rest, q - 1, Reaching(cfg, log, rest[..q - 1]), Placed(cfg, log, seqno + used, logRef, rest));
    }
  }

  lemma {:induction false} PlacedReach(cfg: Config, log: nat, seqno: nat, logRef: nat, rs: seq<Data>, added: seq<Insert>)
    requires added == Placed(cfg, log, seqno, logRef, rs)
    ensures |added| == Reaching(cfg, log, rs)
    ensures forall k :: 0 <= k < |added| ==> added[k].r in rs && Counted(added[k].r) && Reaches(cfg, log, added[k].r) && added[k].logRef == logRef
    decreases |rs|
  {
    if rs != [] {
      var next := seqno + UsedUp(cfg, log, [rs[0]]);
      PlacedOne(cfg, log, seqno, logRef, rs[0]);
      PlacedFirst(cfg, log, seqno, logRef, rs);
      PlacedReach(cfg, log, next, logRef, rs[1..], Placed(cfg, log, next, logRef, rs[1..]));
    }
  }

  lemma {:induction false} WorkGrows(cfg: Config, es: seq<Event>, n: nat, m: nat, work: seq<Insert>, all: seq<Insert>)
    requires n <= m <= |es| && work == Work(cfg, es, n) && all == Work(cfg, es, m)
    ensures |work| <= |all| && all[..|work|] == work
    decreases m
  {
    if n < m {
      var before := Work(cfg, es, m - 1);
      WorkGrows(cfg, es, n, m - 1, work, before);
      assert all[..|work|] == before[..|work|];
    }
  }

  /** Of the records that an event brings, recovery puts into the memtables, in order, exactly those whose family exists and has
      not been flushed past the event's log, apart from empty ranges. Record `q` has the number of the event and one more for each
      record before it that is no such empty range, and refers to the log of its section. */
  lemma RecordRecoveredIff(cfg: Config, es: seq<Event>, st: State, n: nat, rs: seq<Data>, logRef: nat, q: nat, lo: nat, hi: nat)
    requires Recovered(cfg, es, st) && n < |es| && es[n].log > 0 && Brought(es, n) == (rs, logRef) && q < |rs|
    requires lo == |Work(cfg, es, n)| && hi == lo + Reaching(cfg, es[n].log, rs)
    ensures hi <= |st.inserts| && hi == |Work(cfg, es, n + 1)|
    ensures (exists k :: lo <= k < hi && st.inserts[k].r == rs[q]) <==>
            && rs[q].cf in cfg.logOf && cfg.logOf[rs[q].cf] <= es[n].log
            && !(rs[q].Kv? && rs[q].kind.DeleteRange? && cfg.compare(rs[q].key, rs[q].value) == 0)
    ensures var k := lo + Reaching(cfg, es[n].log, rs[..q]);
            Reaches(cfg, es[n].log, rs[q]) ==>
              k < hi && st.inserts[k] == Insert(SeqnoAt(cfg, es, n) + UsedUp(cfg, es[n].log, rs[..q]), rs[q], logRef)
  {
    var log, work, next := es[n].log, Work(cfg, es, n), Work(cfg, es, n + 1);
    var added := Placed(cfg, log, SeqnoAt(cfg, es, n), logRef, rs);
    assert next == work + added;
    PlacedReach(cfg, log, SeqnoAt(cfg, es, n), logRef, rs, added);
    WorkGrows(cfg, es, n + 1, |es|, next, st.inserts);
    forall k | lo <= k < hi ensures st.inserts[k] == added[k - lo] {
      assert st.inserts[..hi][k] == next[k];
    }
    var k := Reaching(cfg, log, rs[..q]);
    PlacedAt(cfg, log, SeqnoAt(cfg, es, n), logRef, rs, q, k, added);
    if Reaches(cfg, log, rs[q]) {
      assert st.inserts[lo + k] == added[k];
    }
  }

  /** A transaction that was committed or rolled back is not applied again, unless prepared again. */
  lemma {:induction false} EndedStaysEnded(es: seq<Event>, i: nat, k: nat, name: Bytes)
    requires i < k <= |es| && (es[i].r == Blob(Commit, name) || es[i].r == Blob(Rollback, name))
    requires forall j :: i < j < k ==> es[j].r != Blob(EndPrepare, name)
    ensures PreparedAt(es, k, name) == None
    decreases k
  {
    if k > i + 1 {
      EndedStaysEnded(es, i, k - 1, name);
    }
  }

  /* ---------- sequence numbers of a write group ---------- */

  /** The sequence numbers a list of records uses up in ordinary writes: one for each data record, none for an empty
      range of an existing family. */
  function Uses(cfg: Config, rs: seq<Record>): nat {
    if rs == [] then 0
    else (if Counted(rs[0]) && !Idle(cfg, 0, rs[0]) then 1 else 0) + Uses(cfg, rs[1..])
  }

  /** From index `k` on, the inserts have increasing numbers from `lo` up to but excluding `hi`. */
  ghost predicate Numbered(inserts: seq<Insert>, k: nat, lo: nat, hi: nat) {
    && (forall j :: k <= j < |inserts| ==> lo <= inserts[j].seqno < hi)
    && (forall i, j :: k <= i < j < |inserts| ==> inserts[i].seqno < inserts[j].seqno)
  }

  lemma NumberedMore(inserts: seq<Insert>, k: nat, lo: nat, mid: nat, more: seq<Insert>, hi: nat)
    requires Numbered(inserts, k, lo, mid) && k <= |inserts| <= |more| && more[..|inserts|] == inserts && lo <= mid <= hi
    requires Numbered(more, |inserts|, mid, hi)
    ensures Numbered(more, k, lo, hi)
  {
    forall j | 0 <= j < |inserts| ensures more[j] == inserts[j] {
      assert more[..|inserts|][j] == inserts[j];
    }
  }

  lemma StepNumbers(cfg: Config, logRef: nat, st: State, r: Record, st': State)
    requires st.rebuilding.None? && Apply(cfg, 0, logRef, st, r) == (st', Ok)
    ensures st'.rebuilding.None? && st'.seqno == st.seqno + Uses(cfg, [r])
    ensures |st.inserts| <= |st'.inserts| && st'.inserts[..|st.inserts|] == st.inserts && Numbered(st'.inserts, |st.inserts|, st.seqno, st'.seqno)
  {
    assert [r][1..] == [];
  }

  /** In ordinary writes every record that reaches a memtable gets a number of its own, in order. */
  lemma {:induction false} RunNumbers(cfg: Config, logRef: nat, st: State, rs: seq<Record>, st': State)
    requires st.rebuilding.None? && Run(cfg, 0, logRef, st, rs) == (st', Ok)
    ensures st'.rebuilding.None? && st'.seqno == st.seqno + Uses(cfg, rs)
    ensures |st.inserts| <= |st'.inserts| && st'.inserts[..|st.inserts|] == st.inserts && Numbered(st'.inserts, |st.inserts|, st.seqno, st'.seqno)
    decreases |rs|
  {
    if rs != [] {
      var st1 := Apply(cfg, 0, logRef, st, rs[0]).0;
      StepNumbers(cfg, logRef, st, rs[0], st1);
      RunNumbers(cfg, logRef, st1, rs[1..], st');
      NumberedMore(st1.inserts, |st.inserts|, st.seqno, st1.seqno, st'.inserts, st'.seqno);
      assert [rs[0]][1..] == [];
      assert st'.inserts[..|st.inserts|] == st'.inserts[..|st1.inserts|][..|st.inserts|];
    }
  }

  /** The data records of a list. */
  ghost function DataOf(rs: seq<Record>): seq<Data> {
    if rs == [] then [] else (if Counted(rs[0]) then [rs[0]] else []) + DataOf(rs[1..])
  }

  ghost predicate AllTaken(cfg: Config, rs: seq<Record>) {
    forall r :: r in rs && Counted(r) ==> Takes(cfg, 0, r)
  }

  /** An ordinary write of a list succeeds exactly when every data record is taken. */
  lemma {:induction false} RunOkIff(cfg: Config, logRef: nat, st: State, rs: seq<Record>)
    requires st.rebuilding.None? && forall r :: r in rs ==> Committed(r)
    ensures Run(cfg, 0, logRef, st, rs).1 == Ok <==> AllTaken(cfg, rs)
    decreases |rs|
  {
    if rs != [] {
      var (st1, s) := Apply(cfg, 0, logRef, st, rs[0]);
      assert rs[0] in rs && Committed(rs[0]);
      assert s == Ok <==> (Counted(rs[0]) ==> Takes(cfg, 0, rs[0]));
      if s == Ok {
        StepNumbers(cfg, logRef, st, rs[0], st1);
        RunOkIff(cfg, logRef, st1, rs[1..]);
      }
      assert forall r :: r in rs <==> r == rs[0] || r in rs[1..];
    }
  }

  lemma StepPlaces(cfg: Config, logRef: nat, st: State, r: Record, st': State)
    requires st.rebuilding.None? && Apply(cfg, 0, logRef, st, r) == (st', Ok)
    ensures st'.rebuilding.None? && st'.inserts == st.inserts + Placed(cfg, 0, st.seqno, logRef, DataOf([r]))
    ensures st'.seqno == st.seqno + UsedUp(cfg, 0, DataOf([r]))
  {
    assert [r][1..] == [];
    if Counted(r) {
      assert DataOf([r]) == [r];
      ApplyDataIs(cfg, 0, logRef, st, r, st');
    } else {
      assert DataOf([r]) == [];
      assert st.inserts + [] == st.inserts;
    }
  }

  lemma DataFirst(cfg: Config, seqno: nat, logRef: nat, rs: seq<Record>, next: nat)
    requires rs != [] && next == seqno + UsedUp(cfg, 0, DataOf([rs[0]]))
    ensures Placed(cfg, 0, seqno, logRef, DataOf(rs)) == Placed(cfg, 0, seqno, logRef, DataOf([rs[0]])) + Placed(cfg, 0, next, logRef, DataOf(rs[1..]))
  {
    assert [rs[0]][1..] == [];
    if Counted(rs[0]) {
      var data := DataOf(rs);
      assert DataOf([rs[0]]) == [rs[0]];
      assert data[0] == rs[0] && data[1..] == DataOf(rs[1..]);
      PlacedFirst(cfg, 0, seqno, logRef, data);
    } else {
      assert DataOf([rs[0]]) == [];
      assert DataOf(rs) == DataOf(rs[1..]);
    }
  }

  /** An ordinary write adds to the memtables what its data records put there. */
  lemma {:induction false} RunPlaces(cfg: Config, logRef: nat, st: State, rs: seq<Record>, st': State)
    requires st.rebuilding.None? && Run(cfg, 0, logRef, st, rs) == (st', Ok)
    ensures st'.inserts == st.inserts + Placed(cfg, 0, st.seqno, logRef, DataOf(rs))
    decreases |rs|
  {
    if rs == [] {
      assert st.inserts + [] == st.inserts;
    } else {
      var st1 := Apply(cfg, 0, logRef, st, rs[0]).0;
      StepPlaces(cfg, logRef, st, rs[0], st1);
      RunPlaces(cfg, logRef, st1, rs[1..], st');
      DataFirst(cfg, st.seqno, logRef, rs, st1.seqno);
      Assoc3(st.inserts, Placed(cfg, 0, st.seqno, logRef, DataOf([rs[0]])), Placed(cfg, 0, st1.seqno, logRef, DataOf(rs[1..])));
    }
  }

  /** A writer of a group: its batch, and whether it takes part. */
  datatype Writer = Writer(b: Batch, callbackFailed: bool, toMemtable: bool, logRef: nat)

  ghost predicate WriterOk(hs: Hasher, w: Writer, rs: seq<Record>) {
    Represents(hs, w.b, rs) && forall r :: r in rs ==> Fits(r) && Unpackable(r) && Committed(r)
  }

  /** What a writer uses up. */
  ghost function Share(cfg: Config, w: Writer, rs: seq<Record>): nat {
    if w.callbackFailed || !w.toMemtable then 0 else Uses(cfg, rs)
  }

  /** What writer `i` adds when its numbers start at `seqno`. */
  ghost function AddedBy(cfg: Config, w: Writer, rs: seq<Record>, seqno: nat): seq<Insert> {
    if w.callbackFailed || !w.toMemtable then [] else Placed(cfg, 0, seqno, w.logRef, DataOf(rs))
  }

  /** What the first `n` writers add when theirs start at `seqno`. */
  ghost function AddedByAll(cfg: Config, ws: seq<Writer>, rss: seq<seq<Record>>, seqno: nat, n: nat): seq<Insert>
    requires n <= |ws| == |rss|
  {
    if n == 0 then [] else AddedByAll(cfg, ws, rss, seqno, n - 1) + AddedBy(cfg, ws[n - 1], rss[n - 1], SeqnoOf(cfg, ws, rss, seqno, n - 1))
  }

  /** Where the numbers of writer `n` start. */
  ghost function SeqnoOf(cfg: Config, ws: seq<Writer>, rss: seq<seq<Record>>, seqno: nat, n: nat): nat
    requires n <= |ws| == |rss|
  {
    if n == 0 then seqno else SeqnoOf(cfg, ws, rss, seqno, n - 1) + Share(cfg, ws[n - 1], rss[n - 1])
  }

  /** Everything this writer brings is taken, if it takes part. */
  ghost predicate Welcome(cfg: Config, w: Writer, rs: seq<Record>) {
    !w.callbackFailed && w.toMemtable ==> AllTaken(cfg, rs)
  }

  ghost predicate AllWelcome(cfg: Config, ws: seq<Writer>, rss: seq<seq<Record>>, n: nat) {
    n <= |ws| == |rss| && forall k: nat {:trigger Open(k)} :: Open(k) ==> forall i: nat :: i < n ==> Welcome(cfg, ws[i], rss[i])
  }

  lemma WelcomeNext(cfg: Config, ws: seq<Writer>, rss: seq<seq<Record>>, n: nat, next: nat)
    requires n < |ws| && next == n + 1 && AllWelcome(cfg, ws, rss, n)
    ensures if Welcome(cfg, ws[n], rss[n]) then AllWelcome(cfg, ws, rss, next) else !AllWelcome(cfg, ws, rss, |ws|)
  {
    assert Open(0);
  }

  /** The first `n` writers start at the numbers listed. */
  ghost predicate StartsAre(cfg: Config, ws: seq<Writer>, rss: seq<seq<Record>>, seqno: nat, seqnos: seq<nat>, n: nat) {
    n <= |ws| == |rss| && |seqnos| == n + 1 && forall i: nat :: i <= n ==> seqnos[i] == SeqnoOf(cfg, ws, rss, seqno, i)
  }

  lemma StartsNext(cfg: Config, ws: seq<Writer>, rss: seq<seq<Record>>, seqno: nat, seqnos: seq<nat>, n: nat, next: nat, last: nat)
    requires StartsAre(cfg, ws, rss, seqno, seqnos, n) && n < |ws| && next == n + 1 && last == seqnos[n] + Share(cfg, ws[n], rss[n])
    ensures StartsAre(cfg, ws, rss, seqno, seqnos + [last], next)
  {
  }

  method InsertWriter(cfg: Config, w: Writer, st: State, ghost hs: Hasher, ghost rs: seq<Record>) returns (st': State, status: Status)
    requires WriterOk(hs, w, rs) && st.rebuilding.None?
    ensures status == Ok <==> AllTaken(cfg, rs)
    ensures status == Ok ==> st'.inserts == st.inserts + Placed(cfg, 0, st.seqno, w.logRef, DataOf(rs))
    ensures status == Ok ==> st'.rebuilding.None? && st'.seqno == st.seqno + Uses(cfg, rs)
    ensures status == Ok ==> |st.inserts| <= |st'.inserts| && st'.inserts[..|st.inserts|] == st.inserts
    ensures status == Ok ==> Numbered(st'.inserts, |st.inserts|, st.seqno, st'.seqno)
  {
    RepReads(w.b);
    var rep := Rep(w.b);
    var defined;
    st', status, defined := Iterate(Inserter(cfg, 0, w.logRef), st, rep, HEADER, |rep|);
    assert rep[HEADER..|rep|] == w.b.body;
    BatchReplayIsRun(cfg, 0, w.logRef, w.b, rs, st, Replay(Inserter(cfg, 0, w.logRef), st, true, 0, w.b.body));
    RunOkIff(cfg, w.logRef, st, rs);
    if status == Ok {
      RunNumbers(cfg, w.logRef, st, rs, st');
      RunPlaces(cfg, w.logRef, st, rs, st');
    }
  }

  /** One writer's turn; one whose callback failed, or that does not go to the memtables, is passed over. */
  method TakeTurn(cfg: Config, w: Writer, st: State, ghost hs: Hasher, ghost rs: seq<Record>) returns (st': State, status: Status)
    requires WriterOk(hs, w, rs) && st.rebuilding.None?
    ensures status == Ok <==> Welcome(cfg, w, rs)
    ensures status == Ok ==> st'.inserts == st.inserts + AddedBy(cfg, w, rs, st.seqno)
    ensures status == Ok ==> st'.rebuilding.None? && st'.seqno == st.seqno + Share(cfg, w, rs)
    ensures status == Ok ==> Numbered(st'.inserts, |st.inserts|, st.seqno, st'.seqno)
  {
    if w.callbackFailed || !w.toMemtable {
      assert st.inserts + [] == st.inserts;
      return st, Ok;
    }
    st', status := InsertWriter(cfg, w, st, hs, rs);
  }

  lemma TurnTaken(st: State, was: State, before: seq<Insert>, st': State, added: seq<Insert>)
    requires was.inserts == st.inserts + before && st'.inserts == was.inserts + added && st.seqno <= was.seqno <= st'.seqno
    requires Numbered(was.inserts, |st.inserts|, st.seqno, was.seqno) && Numbered(st'.inserts, |was.inserts|, was.seqno, st'.seqno)
    ensures st'.inserts == st.inserts + (before + added) && Numbered(st'.inserts, |st.inserts|, st.seqno, st'.seqno)
  {
    NumberedMore(was.inserts, |st.inserts|, st.seqno, was.seqno, st'.inserts, st'.seqno);
    Assoc3(st.inserts, before, added);
  }

  /** The writers of a group get consecutive ranges: writer `i` has those from `seqnos[i]` up to but excluding
      `seqnos[i + 1]`, and what it adds refers to its log. The group succeeds exactly when everything in it is taken. */
  method InsertInto(cfg: Config, ws: seq<Writer>, st: State, ghost hs: Hasher, ghost rss: seq<seq<Record>>)
    returns (st': State, seqnos: seq<nat>, status: Status)
    requires |rss| == |ws| && st.rebuilding.None? && forall i :: 0 <= i < |ws| ==> WriterOk(hs, ws[i], rss[i])
    ensures status == Ok <==> AllWelcome(cfg, ws, rss, |ws|)
    ensures status == Ok ==> StartsAre(cfg, ws, rss, st.seqno, seqnos, |ws|) && seqnos[|ws|] == st'.seqno
    ensures status == Ok ==> st'.inserts == st.inserts + AddedByAll(cfg, ws, rss, st.seqno, |ws|)
    ensures status == Ok ==> Numbered(st'.inserts, |st.inserts|, st.seqno, st'.seqno)
  {
    st', seqnos, status := st, [st.seqno], Ok;
    var i := 0;
    ghost var added := [];
    while i < |ws|
      invariant i <= |ws| && status == Ok && st'.rebuilding.None? && st.seqno <= st'.seqno
      invariant StartsAre(cfg, ws, rss, st.seqno, seqnos, i) && seqnos[i] == st'.seqno
      invariant added == AddedByAll(cfg, ws, rss, st.seqno, i) && st'.inserts == st.inserts + added
      invariant AllWelcome(cfg, ws, rss, i)
      invariant Numbered(st'.inserts, |st.inserts|, st.seqno, st'.seqno)
    {
      ghost var was := st';
      st', status := TakeTurn(cfg, ws[i], st', hs, rss[i]);
      WelcomeNext(cfg, ws, rss, i, i + 1);
      if status != Ok {
        return;
      }
      ghost var more := AddedBy(cfg, ws[i], rss[i], was.seqno);
      TurnTaken(st, was, added, st', more);
      StartsNext(cfg, ws, rss, st.seqno, seqnos, i, i + 1, st'.seqno);
      seqnos := seqnos + [st'.seqno];
      added := added + more;
      i := i + 1;
    }
  }
}
