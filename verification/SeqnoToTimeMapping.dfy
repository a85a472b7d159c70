/**
 The mapping object: samples, the two limits, and the flag that says whether the
 samples are known to be sorted and within the limits.
 */
module SeqnoToTimeMapping {
  import opened Seal
  import opened Coding
  import opened SeqnoToTimeSpec
  import opened SeqnoToTimeThinning
  import opened SeqnoToTimeReducer


  /* ---------- limits, as functions of the samples ---------- */

  /** The time before which samples may be pruned; `None` when nothing is eligible. */
  function CutoffTime(ps: seq<Pair>, span: uint64, now: uint64): (r: Option<uint64>) {
    if |ps| <= 1 then None
    else
      var latest := if now > 0 then now else Last(ps).time;
      if latest < span then None else Some(latest - span)
  }

  /** Keeps one sample at or before the cutoff. */
  function Pruned(ps: seq<Pair>, cutoff: uint64): seq<Pair> {
    if |ps| >= 2 && ps[0].time <= cutoff && ps[1].time <= cutoff then Pruned(ps[1..], cutoff) else ps
  }

  /** Pruning drops a prefix and leaves at most one sample at or before the cutoff in front. */
  lemma {:induction false} PrunedIsSuffix(ps: seq<Pair>, cutoff: uint64) returns (k: nat)
    ensures k <= |ps| && Pruned(ps, cutoff) == ps[k..] && (ps != [] ==> k < |ps|)
    ensures |ps| - k < 2 || cutoff < ps[k].time || cutoff < ps[k + 1].time
  {
    k := 0;
    if |ps| >= 2 && ps[0].time <= cutoff && ps[1].time <= cutoff {
      var j := PrunedIsSuffix(ps[1..], cutoff);
      k := j + 1;
      assert ps[1..][j..] == ps[k..];
    }
  }

  function WithinSpan(ps: seq<Pair>, span: uint64, now: uint64): seq<Pair> {
    match CutoffTime(ps, span, now)
    case None => ps
    case Some(cutoff) => Pruned(ps, cutoff)
  }

  /** Of samples older than the span only the last is kept: what goes is a prefix, each sample of it with a successor that is
      not later than `latest - span` either; of the first two samples that stay one is later. */
  ghost predicate KeepsSpan(ps: seq<Pair>, span: uint64, now: uint64, r: seq<Pair>) {
    ps != [] ==>
      var latest := if now > 0 then now else ps[|ps| - 1].time;
      exists k :: 0 <= k < |ps| && r == ps[k..] &&
        (k > 0 ==> forall i :: 0 <= i <= k ==> ps[i].time + span <= latest) &&
        (|r| < 2 || latest < r[0].time + span || latest < r[1].time + span)
  }

  ghost predicate SpanEnforced(ps: seq<Pair>, span: uint64, now: uint64, r: seq<Pair>) {
    forall n: nat {:trigger Open(n)} :: Open(n) ==> KeepsSpan(ps, span, now, r)
  }

  lemma {:induction false} PrunedDrops(ps: seq<Pair>, cutoff: uint64) returns (k: nat)
    requires ps != []
    ensures k < |ps| && Pruned(ps, cutoff) == ps[k..] && (k + 1 < |ps| ==> cutoff < ps[k].time || cutoff < ps[k + 1].time)
    ensures k > 0 ==> forall i :: 0 <= i <= k ==> ps[i].time <= cutoff
  {
    k := 0;
    if |ps| >= 2 && ps[0].time <= cutoff && ps[1].time <= cutoff {
      var tail := ps[1..];
      var j := PrunedDrops(tail, cutoff);
      k := j + 1;
      assert tail[j..] == ps[k..];
      forall i | 0 <= i <= k ensures ps[i].time <= cutoff {
        if i > 0 {
          assert tail[i - 1] == ps[i];
        }
      }
    }
  }

  lemma WithinSpanMeans(ps: seq<Pair>, span: uint64, now: uint64, r: seq<Pair>)
    requires r == WithinSpan(ps, span, now)
    ensures SpanEnforced(ps, span, now, r)
  {
    if ps != [] {
      match CutoffTime(ps, span, now)
      case None => assert r == ps[0..];
      case Some(cutoff) => var k := PrunedDrops(ps, cutoff);
    }
  }

  /** Pruning cannot be seen by queries at or after the cutoff. */
  lemma {:induction false} PrunedKeepsBest(ps: seq<Pair>, cutoff: uint64, t: uint64)
    requires SeqnosIncrease(ps) && cutoff <= t
    ensures BestSeqno(Pruned(ps, cutoff), t) == BestSeqno(ps, t)
  {
    if |ps| >= 2 && ps[0].time <= cutoff && ps[1].time <= cutoff {
      PrunedKeepsBest(ps[1..], cutoff, t);
      OlderEarlierSample(ps, t);
    }
  }

  lemma OlderEarlierSample(ps: seq<Pair>, t: uint64)
    requires |ps| >= 2 && ps[0].seqno <= ps[1].seqno && ps[1].time <= t
    ensures BestSeqno(ps[1..], t) == BestSeqno(ps, t)
  {
    var tail := ps[1..];
    var a, b := BestSeqno(tail, t), BestSeqno(ps, t);
    assert tail[0] == ps[1] && ps[1].seqno <= a;
    if i :| 0 <= i < |ps| && ps[i].time <= t && ps[i].seqno == b {
      assert i > 0 ==> tail[i - 1] == ps[i];
    }
    if i :| 0 <= i < |tail| && tail[i].time <= t && tail[i].seqno == a {
      assert ps[i + 1] == tail[i];
    }
  }

  function StrictCap(capacity: uint64): nat {
    if capacity == 1 then 2 else capacity
  }

  function EffectiveCap(capacity: uint64, strict: bool): uint64 {
    var cap := StrictCap(capacity);
    var effective := (cap + (if strict then 0 else cap / 8)) % TWO64;
    if effective < cap then UINT64_MAX else effective
  }

  /** How many samples may stay: at least two, and an eighth more unless the limit is strict. */
  function Allowed(capacity: uint64, strict: bool): nat {
    var m := if capacity < 2 then 2 else capacity;
    if strict then m else if m + m / 8 > UINT64_MAX then UINT64_MAX else m + m / 8
  }

  /** What thinning keeps: the order, the first sample and the last, and only samples that were there. */
  ghost predicate Keeps(before: seq<Pair>, after: seq<Pair>) {
    && before != [] && after != [] && SeqnosIncrease(after) && after[0] == before[0] && Last(after) == Last(before)
    && forall p :: p in after ==> p in before
  }

  /** What `EnforceCapacity` does to `before`: a list that may stay as it is does; any other is thinned down to the capacity, in
      time order by the cheapest removals. */
  ghost predicate CapacityEnforced(capacity: uint64, strict: bool, before: seq<Pair>, after: seq<Pair>) {
    var m := if capacity < 2 then 2 else capacity;
    if capacity == 0 then after == []
    else if |before| <= Allowed(capacity, strict) then after == before
    else
      && |after| == m <= |before| && Keeps(before, after)
      && Cheapest(before, |before| - m, after)
  }

  /** The limits the code computes, with its correction of an overflow, are these. */
  lemma EffectiveCapIs(capacity: uint64, strict: bool)
    requires capacity > 0
    ensures StrictCap(capacity) == (if capacity < 2 then 2 else capacity) <= EffectiveCap(capacity, strict) == Allowed(capacity, strict)
  {
  }

  /** At most the capacity is left by a strict enforcement, at most an eighth more by any other, and nothing goes from a list
      that is no longer. */
  lemma CapacityBounds(capacity: uint64, strict: bool, before: seq<Pair>, after: seq<Pair>, m: nat)
    requires CapacityEnforced(capacity, strict, before, after) && capacity > 0 && m == if capacity == 1 then 2 else capacity
    ensures strict ==> |after| <= m && (|before| <= m ==> after == before)
    ensures !strict && m + m / 8 < TWO64 ==> |after| <= m + m / 8 && (|before| <= m + m / 8 ==> after == before)
    ensures |after| == |before| || |after| == m <= |before|
    ensures TimesNeverRegress(before) ==> Thins(before, |before| - |after|, after)
  {
    assert Open(0);
  }

  /** Thinning marks what it removes with an unknown time, so samples that are thinned must have known ones. */
  ghost predicate Thinnable(capacity: uint64, strict: bool, ps: seq<Pair>) {
    capacity != 0 && |ps| > Allowed(capacity, strict) ==> TimesKnown(ps)
  }

  /** Dropping samples never makes a query answer with a newer sequence number. */
  lemma FewerSamplesAnswerOlder(after: seq<Pair>, before: seq<Pair>, t: uint64)
    requires forall p :: p in after ==> p in before
    ensures BestSeqno(after, t) <= BestSeqno(before, t)
  {
    var a := BestSeqno(after, t);
    if i :| 0 <= i < |after| && after[i].time <= t && after[i].seqno == a {
      assert after[i] in before;
    }
  }

  /** Thinning in time order keeps what pruning established. */
  lemma ThinningKeepsSpan(before: seq<Pair>, after: seq<Pair>, cutoff: uint64)
    requires SeqnosIncrease(before) && SeqnosIncrease(after) && TimesNeverRegress(before)
    requires |after| >= 2 && |before| >= 2 && after[0] == before[0] && forall p :: p in after ==> p in before
    requires cutoff < before[0].time || cutoff < before[1].time
    ensures cutoff < after[1].time
  {
    assert after[1] in before;
    var k :| 0 <= k < |before| && before[k] == after[1];
    assert k != 0;
  }

  /* ---------- queries ---------- */

  /** `std::upper_bound` by time over `ps[first..first + len]`. */
  function UpperBoundByTime(ps: seq<Pair>, t: uint64, first: nat, len: nat): (r: nat)
    requires first + len <= |ps|
    ensures first <= r <= first + len
    decreases len
  {
    if len == 0 then first
    else
      var half := len / 2;
      if t < ps[first + half].time then UpperBoundByTime(ps, t, first, half)
      else UpperBoundByTime(ps, t, first + half + 1, len - half - 1)
  }

  /** Samples `a` to `r` are no later than `t`, samples `r` to `b` are later. */
  ghost predicate Splits(ps: seq<Pair>, t: uint64, a: nat, r: nat, b: nat) {
    && r <= b <= |ps|
    && (forall i :: a <= i < r ==> ps[i].time <= t)
    && (forall i :: r <= i < b ==> t < ps[i].time)
  }

  lemma SplitsWider(ps: seq<Pair>, t: uint64, a: nat, mid: nat, b: nat, r: nat)
    requires TimesNeverRegress(ps) && a <= mid < b <= |ps|
    requires if t < ps[mid].time then Splits(ps, t, a, r, mid) else mid < r && Splits(ps, t, mid + 1, r, b)
    ensures Splits(ps, t, a, r, b)
  {
  }

  lemma {:induction false} UpperBoundPartitions(ps: seq<Pair>, t: uint64, first: nat, len: nat, end: nat, r: nat)
    requires end == first + len <= |ps| && TimesNeverRegress(ps) && r == UpperBoundByTime(ps, t, first, len)
    ensures Splits(ps, t, first, r, end)
    decreases len
  {
    if len == 0 {
    } else {
      var half := len / 2;
      var mid, len' := first + half, len - half - 1;
      if t < ps[mid].time {
        assert r == UpperBoundByTime(ps, t, first, half);
        UpperBoundPartitions(ps, t, first, half, mid, r);
      } else {
        var next := mid + 1;
        assert r == UpperBoundByTime(ps, t, next, len');
        UpperBoundPartitions(ps, t, next, len', end, r);
      }
      SplitsWider(ps, t, first, mid, end, r);
    }
  }

  /** In time order, the sample before the first later one is the best one. */
  lemma LastNoLaterIsBest(ps: seq<Pair>, t: uint64, r: nat)
    requires SeqnosIncrease(ps) && Splits(ps, t, 0, r, |ps|)
    ensures BestSeqno(ps, t) == if r == 0 then 0 else ps[r - 1].seqno
  {
    var b := BestSeqno(ps, t);
    if i :| 0 <= i < |ps| && ps[i].time <= t && ps[i].seqno == b {
      assert i <= r - 1;
    }
  }

  lemma InOrderIsRight(ps: seq<Pair>, t: uint64, r: nat, answer: uint64)
    requires SeqnosIncrease(ps) && TimesNeverRegress(ps) && r == UpperBoundByTime(ps, t, 0, |ps|)
    requires answer == if r == 0 then 0 else ps[r - 1].seqno
    ensures answer == BestSeqno(ps, t)
  {
    UpperBoundPartitions(ps, t, 0, |ps|, |ps|, r);
    LastNoLaterIsBest(ps, t, r);
  }

  /** The search loop itself. */
  method SearchByTime(ps: seq<Pair>, t: uint64) returns (first: nat)
    ensures first == UpperBoundByTime(ps, t, 0, |ps|)
  {
    var len: nat := |ps|;
    first := 0;
    ghost var goal := UpperBoundByTime(ps, t, 0, len);
    while len > 0
      invariant first + len <= |ps| && UpperBoundByTime(ps, t, first, len) == goal
      decreases len
    {
      var half := len / 2;
      if t < ps[first + half].time {
        len := half;
      } else {
        var first', len' := first + half + 1, len - half - 1;
        first, len := first', len';
      }
    }
  }

  /** Some sample from `a` up to but excluding `b` is no later than `t`. */
  ghost predicate EarlyIn(ps: seq<Pair>, t: uint64, a: nat, b: nat)
    requires b <= |ps|
  {
    exists i :: a <= i < b && ps[i].time <= t
  }

  lemma EarlyJoins(ps: seq<Pair>, t: uint64, a: nat, mid: nat, b: nat)
    requires a <= mid < b <= |ps| && t < ps[mid].time
    ensures EarlyIn(ps, t, a, b) <==> EarlyIn(ps, t, a, mid) || EarlyIn(ps, t, mid + 1, b)
  {
    if i :| a <= i < b && ps[i].time <= t {
      assert i < mid || mid + 1 <= i;
    }
  }

  /** Some sample the search looks at is later than `t`, and one behind it in the part still searched is not. */
  ghost predicate Misled(ps: seq<Pair>, t: uint64, first: nat, len: nat)
    requires first + len <= |ps|
    decreases len
  {
    len != 0 &&
    var half := len / 2;
    if t < ps[first + half].time then EarlyIn(ps, t, first + half + 1, first + len) || Misled(ps, t, first, half)
    else Misled(ps, t, first + half + 1, len - half - 1)
  }

  lemma MisledStep(ps: seq<Pair>, t: uint64, first: nat, len: nat, half: nat, time: nat, next: nat, rest: nat, end: nat)
    requires end == first + len <= |ps| && len != 0 && half == len / 2 && time == ps[first + half].time && next == first + half + 1 && rest == len - half - 1
    ensures Misled(ps, t, first, len) <==> if t < time then EarlyIn(ps, t, next, end) || Misled(ps, t, first, half) else Misled(ps, t, next, rest)
  {
  }

  /** The search stops between a sample no later than `t` and a later one. */
  lemma {:induction false} SearchStops(ps: seq<Pair>, t: uint64, first: nat, len: nat, end: nat, r: nat)
    requires end == first + len <= |ps| && r == UpperBoundByTime(ps, t, first, len)
    ensures (r == first || ps[r - 1].time <= t) && (r == end || t < ps[r].time)
    decreases len
  {
    if len != 0 {
      var half := len / 2;
      var mid, len' := first + half, len - half - 1;
      var next := mid + 1;
      if t < ps[mid].time {
        SearchStops(ps, t, first, half, mid, r);
      } else {
        SearchStops(ps, t, next, len', end, r);
      }
    }
  }

  /** It is misled exactly when it leaves out a sample no later than `t`. */
  lemma {:induction false} SearchMisled(ps: seq<Pair>, t: uint64, first: nat, len: nat, end: nat, r: nat)
    requires end == first + len <= |ps| && r == UpperBoundByTime(ps, t, first, len)
    ensures Misled(ps, t, first, len) <==> EarlyIn(ps, t, r, end)
    decreases len
  {
    if len != 0 {
      var half := len / 2;
      var mid, len' := first + half, len - half - 1;
      var next := mid + 1;
      MisledStep(ps, t, first, len, half, ps[mid].time, next, len', end);
      if t < ps[mid].time {
        SearchMisled(ps, t, first, half, mid, r);
        EarlyJoins(ps, t, r, mid, end);
      } else {
        SearchMisled(ps, t, next, len', end, r);
      }
    }
  }

  /** The search never answers with too new a sequence number, and with the best one exactly when it is not misled. */
  lemma SearchRightIff(ps: seq<Pair>, t: uint64, r: nat, answer: uint64)
    requires SeqnosIncrease(ps) && r == UpperBoundByTime(ps, t, 0, |ps|) && answer == if r == 0 then 0 else ps[r - 1].seqno
    ensures answer <= BestSeqno(ps, t)
    ensures answer == BestSeqno(ps, t) <==> !Misled(ps, t, 0, |ps|)
  {
    SearchStops(ps, t, 0, |ps|, |ps|, r);
    SearchMisled(ps, t, 0, |ps|, |ps|, r);
    StopIsBestIff(ps, t, r, answer, BestSeqno(ps, t));
  }

  lemma StopIsBestIff(ps: seq<Pair>, t: uint64, r: nat, answer: uint64, best: uint64)
    requires SeqnosIncrease(ps) && r <= |ps| && answer == (if r == 0 then 0 else ps[r - 1].seqno) && best == BestSeqno(ps, t)
    requires (r == 0 || ps[r - 1].time <= t) && (r == |ps| || t < ps[r].time)
    ensures answer <= best && (answer == best <==> !EarlyIn(ps, t, r, |ps|))
  {
    if i :| r <= i < |ps| && ps[i].time <= t {
      assert r > 0 ==> ps[r - 1].seqno < ps[i].seqno;
      assert ps[0].seqno < ps[i].seqno;
    } else if best != 0 {
      var i :| 0 <= i < |ps| && ps[i].time <= t && ps[i].seqno == best;
      assert i <= r - 1;
    }
  }

  function Less(a: nat, b: nat): nat {
    if a < b then a else b
  }

  function More(a: nat, b: nat): nat {
    if a < b then b else a
  }

  /** Of the samples from `next` up to but excluding `end` none is earlier than a time of the range that is before `time`. */
  ghost predicate NoneHidden(ps: seq<Pair>, next: nat, end: nat, lo: nat, hi: nat, time: nat)
    requires end <= |ps|
  {
    forall n: nat {:trigger Open(n)} :: Open(n) ==> forall i :: next <= i < end ==> Less(hi, time) <= More(lo, ps[i].time)
  }

  /** What the samples must satisfy for every search by a time from `lo` up to but excluding `hi` to be right: at each sample
      that such a search looks at, none behind it is earlier than a time that sends the search the other way. */
  ghost predicate Searchable(ps: seq<Pair>, first: nat, len: nat, lo: nat, hi: nat)
    requires first + len <= |ps|
    decreases len
  {
    len == 0 || lo >= hi ||
    var half := len / 2;
    var time := ps[first + half].time;
    && NoneHidden(ps, first + half + 1, first + len, lo, hi, time)
    && Searchable(ps, first, half, lo, Less(hi, time))
    && Searchable(ps, first + half + 1, len - half - 1, More(lo, time), hi)
  }

  /** No search by a time of the range is misled. */
  ghost predicate NeverMisled(ps: seq<Pair>, first: nat, len: nat, lo: nat, hi: nat)
    requires first + len <= |ps|
  {
    forall n: nat {:trigger Open(n)} :: Open(n) ==> forall t: uint64 :: lo <= t < hi ==> !Misled(ps, t, first, len)
  }

  lemma HiddenIff(ps: seq<Pair>, next: nat, end: nat, lo: nat, hi: nat, time: nat)
    requires end <= |ps| && hi <= TWO64
    ensures NoneHidden(ps, next, end, lo, hi, time) <==> forall t: uint64 :: lo <= t < hi && t < time ==> !EarlyIn(ps, t, next, end)
  {
    assert Open(0);
    if i :| next <= i < end && More(lo, ps[i].time) < Less(hi, time) {
      var t := More(lo, ps[i].time);
      assert lo <= t < hi && t < time && EarlyIn(ps, t, next, end);
    }
  }

  lemma NeverMisledSplits(ps: seq<Pair>, first: nat, len: nat, lo: nat, hi: nat, half: nat, time: nat, next: nat, rest: nat, end: nat)
    requires end == first + len <= |ps| && len != 0 && half == len / 2 && time == ps[first + half].time && next == first + half + 1 && rest == len - half - 1
    requires lo < hi <= TWO64
    ensures NeverMisled(ps, first, len, lo, hi) <==>
            && NoneHidden(ps, next, end, lo, hi, time)
            && NeverMisled(ps, first, half, lo, Less(hi, time))
            && NeverMisled(ps, next, rest, More(lo, time), hi)
  {
    assert Open(0);
    forall t: uint64 ensures Misled(ps, t, first, len) <==> if t < time then EarlyIn(ps, t, next, end) || Misled(ps, t, first, half) else Misled(ps, t, next, rest) {
      MisledStep(ps, t, first, len, half, time, next, rest, end);
    }
    HiddenIff(ps, next, end, lo, hi, time);
  }

  lemma SearchableSplits(ps: seq<Pair>, first: nat, len: nat, lo: nat, hi: nat, half: nat, time: nat, next: nat, rest: nat, end: nat,
                         lo': nat, hi': nat, whole: bool, front: bool, back: bool)
    requires end == first + len <= |ps| && len != 0 && half == len / 2 && time == ps[first + half].time && next == first + half + 1 && rest == len - half - 1
    requires lo < hi && lo' == More(lo, time) && hi' == Less(hi, time) && whole == Searchable(ps, first, len, lo, hi)
    requires front == Searchable(ps, first, half, lo, hi') && back == Searchable(ps, next, rest, lo', hi)
    ensures whole <==> NoneHidden(ps, next, end, lo, hi, time) && front && back
  {
  }

  lemma {:induction false} SearchableIff(ps: seq<Pair>, first: nat, len: nat, lo: nat, hi: nat)
    requires first + len <= |ps| && hi <= TWO64
    ensures Searchable(ps, first, len, lo, hi) <==> NeverMisled(ps, first, len, lo, hi)
    decreases len
  {
    if len != 0 && lo < hi {
      var half := len / 2;
      var time, next, rest := ps[first + half].time, first + half + 1, len - half - 1;
      var hi', lo' := Less(hi, time), More(lo, time);
      NeverMisledSplits(ps, first, len, lo, hi, half, time, next, rest, first + len);
      SearchableSplits(ps, first, len, lo, hi, half, time, next, rest, first + len, lo', hi',
                       Searchable(ps, first, len, lo, hi), Searchable(ps, first, half, lo, hi'), Searchable(ps, next, rest, lo', hi));
      SearchableIff(ps, first, half, lo, hi');
      SearchableIff(ps, next, rest, lo', hi);
    }
  }

  /** What a query by time answers. */
  function Answer(ps: seq<Pair>, t: uint64): uint64 {
    var r := UpperBoundByTime(ps, t, 0, |ps|);
    if r == 0 then 0 else ps[r - 1].seqno
  }

  /** A condition on the samples alone: every query by time is answered right if and only if they can be searched. */
  lemma EveryTimeRightIff(ps: seq<Pair>)
    requires SeqnosIncrease(ps)
    ensures (forall t: uint64 :: Answer(ps, t) == BestSeqno(ps, t)) <==> Searchable(ps, 0, |ps|, 0, TWO64)
  {
    SearchableIff(ps, 0, |ps|, 0, TWO64);
    assert Open(0);
    forall t: uint64 ensures Answer(ps, t) == BestSeqno(ps, t) <==> !Misled(ps, t, 0, |ps|) {
      SearchRightIff(ps, t, UpperBoundByTime(ps, t, 0, |ps|), Answer(ps, t));
    }
  }

  /** Out of time order the binary search can miss: (4, 5) answers a query at time 7, but is not found. */
  lemma SearchMayMiss()
    ensures var ps := MergeAll([Pair(1, 10), Pair(2, 20), Pair(3, 30), Pair(4, 5)]);
            UpperBoundByTime(ps, 7, 0, |ps|) == 0 && BestSeqno(ps, 7) == 4
  {
    var ps := [Pair(1, 10), Pair(2, 20), Pair(3, 30), Pair(4, 5)];
    assert Front(ps) == [Pair(1, 10), Pair(2, 20), Pair(3, 30)];
    assert Front(Front(ps)) == [Pair(1, 10), Pair(2, 20)];
    assert Front(Front(Front(ps))) == [Pair(1, 10)];
    assert MergeAll(Front(Front(Front(ps)))) == [Pair(1, 10)];
    assert MergeAll(Front(Front(ps))) == Front(Front(ps));
    assert MergeAll(Front(ps)) == Front(ps);
    var merged := MergeAll(ps);
    assert merged == [Pair(1, 10), Pair(2, 20), Pair(4, 5)];
    SearchMisses(merged);
  }

  lemma SearchMisses(ps: seq<Pair>)
    requires ps == [Pair(1, 10), Pair(2, 20), Pair(4, 5)]
    ensures UpperBoundByTime(ps, 7, 0, |ps|) == 0 && BestSeqno(ps, 7) == 4
  {
    assert ps[2].time <= 7 && ps[2].seqno <= BestSeqno(ps, 7);
    assert UpperBoundByTime(ps, 7, 0, 1) == 0;
  }

  /* ---------- appending ---------- */

  /** The samples right after a new one has been merged in, before limits are applied. */
  function Appended(ps: seq<Pair>, enforced: bool, p: Pair): (r: seq<Pair>)
    requires enforced && ps != [] && p.seqno != 0 ==> Last(ps).seqno <= p.seqno
  {
    if p.seqno == 0 then (if enforced then ps else MergeAll(Sort(ps)))
    else if ps == [] then [p]
    else
      var next := if Last(ps).seqno <= p.seqno then MergeInto(ps, p) else ps + [p];
      if enforced then next else MergeAll(Sort(next))
  }

  /** Appending merges nothing away that a time query could see. */
  lemma AppendedKeepsBest(ps: seq<Pair>, enforced: bool, p: Pair, t: uint64)
    requires enforced && ps != [] && p.seqno != 0 ==> Last(ps).seqno <= p.seqno
    ensures BestSeqno(Appended(ps, enforced, p), t) == BestSeqno(if p.seqno == 0 then ps else ps + [p], t)
  {
    SortAndMergeKeepsBest(ps, t);
    if p.seqno != 0 && ps != [] {
      var next := if Last(ps).seqno <= p.seqno then MergeInto(ps, p) else ps + [p];
      assert BestSeqno(next, t) == BestSeqno(ps + [p], t) by {
        if Last(ps).seqno <= p.seqno {
          forall q | q in ps ensures Covers(ps, q) {
            var k :| 0 <= k < |ps| && ps[k] == q;
            assert Dominated(q, ps[k]);
          }
          MergeIntoSummarizes(ps, ps, p);
          SummaryKeepsBest(next, ps + [p], t);
        }
      }
      SortAndMergeKeepsBest(next, t);
    } else if p.seqno != 0 {
      assert ps + [p] == [p];
    }
  }

  /** A sorted, time-ordered list stays so exactly when the new time is past the last but one. */
  lemma AppendedTimesIncreaseIff(ps: seq<Pair>, p: Pair)
    requires SeqnosIncrease(ps) && TimesIncrease(ps)
    requires p.seqno != 0 && (ps != [] ==> Last(ps).seqno <= p.seqno)
    ensures SeqnosIncrease(Appended(ps, true, p))
    ensures TimesIncrease(Appended(ps, true, p)) <==> |ps| < 2 || ps[|ps| - 2].time < p.time
  {
    if ps != [] {
      var r := Appended(ps, true, p);
      var n := |ps|;
      if n >= 2 && p.time <= ps[n - 2].time {
        assert Merge(Last(ps), p).Some?;
        assert r[n - 2] == ps[n - 2] && r[n - 1].time <= p.time;
      }
    }
  }

  /* ---------- encoding ---------- */

  /** Each pair is stored as its difference from the one before, modulo 2^64. */
  function EncodePairs(ps: seq<Pair>, base: Pair): seq<byte> {
    if ps == [] then []
    else
      Varint(Sub64(ps[0].seqno, base.seqno)) + Varint(Sub64(ps[0].time, base.time)) + EncodePairs(ps[1..], ps[0])
  }

  function Encode(ps: seq<Pair>): seq<byte>
    requires |ps| < TWO64
  {
    if ps == [] then [] else Varint(|ps|) + EncodePairs(ps, Pair(0, 0))
  }

  function DecodePair(input: seq<byte>, base: Pair): Option<(Pair, seq<byte>)> {
    match GetVarint64(input)
    case None => None
    case Some((seqno, rest)) =>
      match GetVarint64(rest)
      case None => None
      case Some((time, rest')) => Some((Pair(Add64(seqno, base.seqno), Add64(time, base.time)), rest'))
  }

  function DecodePairs(input: seq<byte>, count: nat, base: Pair): Option<(seq<Pair>, seq<byte>)>
    decreases count
  {
    if count == 0 then Some(([], input))
    else
      match DecodePair(input, base)
      case None => None
      case Some((p, rest)) =>
        match DecodePairs(rest, count - 1, p)
        case None => None
        case Some((ps, rest')) => Some(([p] + ps, rest'))
  }

  /** `None` is a corruption error. */
  function Decode(input: seq<byte>): Option<seq<Pair>> {
    if input == [] then Some([])
    else
      match GetVarint64(input)
      case None => None
      case Some((count, rest)) =>
        match DecodePairs(rest, count, Pair(0, 0))
        case None => None
        case Some((ps, rest')) => if rest' == [] then Some(ps) else None
  }

  lemma AddUndoesSub(a: uint64, b: uint64)
    ensures Add64(Sub64(a, b), b) == a
  {
    if a < b {
      assert Sub64(a, b) == a - b + TWO64;
    }
  }

  lemma DecodePairRoundTrip(p: Pair, base: Pair, rest: seq<byte>)
    ensures DecodePair(Varint(Sub64(p.seqno, base.seqno)) + Varint(Sub64(p.time, base.time)) + rest, base) ==
              Some((p, rest))
  {
    var s, t := Sub64(p.seqno, base.seqno), Sub64(p.time, base.time);
    assert Varint(s) + Varint(t) + rest == Varint(s) + (Varint(t) + rest);
    Varint64RoundTrip(s, Varint(t) + rest);
    Varint64RoundTrip(t, rest);
    AddUndoesSub(p.seqno, base.seqno);
    AddUndoesSub(p.time, base.time);
  }

  lemma {:induction false} DecodePairsRoundTrip(ps: seq<Pair>, n: nat, base: Pair)
    requires n == |ps|
    ensures DecodePairs(EncodePairs(ps, base), n, base) == Some((ps, []))
  {
    if ps != [] {
      DecodePairRoundTrip(ps[0], base, EncodePairs(ps[1..], ps[0]));
      DecodePairsRoundTrip(ps[1..], n - 1, ps[0]);
      assert ps == [ps[0]] + ps[1..];
    }
  }

  /** Any list of samples, in any order of times, comes back from its encoding. */
  lemma DecodeRoundTrip(ps: seq<Pair>)
    requires |ps| < TWO64
    ensures Decode(Encode(ps)) == Some(ps)
  {
    if ps != [] {
      Varint64RoundTrip(|ps|, EncodePairs(ps, Pair(0, 0)));
      DecodePairsRoundTrip(ps, |ps|, Pair(0, 0));
    }
  }

  /* ---------- the object ---------- */

  lemma MergeAllStep(sorted: seq<Pair>, from: nat, next: nat, kept: seq<Pair>)
    requires Sorted(sorted) && 0 < from < |sorted| && next == from + 1 && kept == MergeAll(sorted[..from])
    ensures kept != [] && Last(kept).seqno <= sorted[from].seqno
    ensures MergeAll(sorted[..next]) == MergeInto(kept, sorted[from])
  {
    assert Front(sorted[..next]) == sorted[..from] && Last(sorted[..next]) == sorted[from];
    assert Last(sorted[..from]) == sorted[from - 1] && PairLeq(sorted[from - 1], sorted[from]);
  }

  /** The merge loop: a read position and a write position in the same list. */
  method MergeSorted(sorted: seq<Pair>) returns (ps: seq<Pair>)
    requires sorted != [] && Sorted(sorted)
    ensures ps == MergeAll(sorted)
  {
    ps := sorted;
    var to, from := 0, 1;
    assert sorted[..1] == [sorted[0]];
    ghost var kept := [sorted[0]];
    while from < |ps|
      invariant 0 <= to < from <= |ps| == |sorted|
      invariant kept == MergeAll(sorted[..from])
      invariant |kept| == to + 1 && forall i :: 0 <= i <= to ==> ps[i] == kept[i]
      invariant forall i :: from <= i < |ps| ==> ps[i] == sorted[i]
    {
      var next := from + 1;
      MergeAllStep(sorted, from, next, kept);
      kept := MergeInto(kept, sorted[from]);
      match Merge(ps[to], ps[from]) {
        case Some(p) =>
          ps := ps[to := p];
        case None =>
          to := to + 1;
          ps := ps[to := ps[from]];
      }
      from := next;
    }
    assert sorted[..from] == sorted;
    ps := ps[..to + 1];
  }

  ghost predicate Kept(before: seq<Pair>, after: seq<Pair>) {
    forall n: nat {:trigger Open(n)} :: Open(n) ==> Keeps(before, after)
  }

  lemma ThinnedIs(before: seq<Pair>, count: nat, m: seq<Pair>, after: seq<Pair>)
    requires SeqnosIncrease(before) && TimesKnown(before) && |before| >= count + 2 && count > 0
    requires MarkedFrom(m, before) && m[0] == before[0] && Last(m) == Last(before) && after == Live(m)
    ensures Kept(before, after)
  {
    MarkedSeqnosIncrease(m, before);
    LiveKeepsSeqnoOrder(m);
    CollapsedEnds(m, before);
  }

  /** The samples thinned down to `cap`. */
  method Thinned(before: seq<Pair>, cap: nat) returns (after: seq<Pair>)
    requires SeqnosIncrease(before) && TimesKnown(before) && 2 <= cap < |before|
    ensures |after| == cap && Kept(before, after) && Cheapest(before, |before| - cap, after)
  {
    var count := |before| - cap;
    var m := MarkRemovals(before, count);
    after := Collapse(m);
    ThinnedIs(before, count, m, after);
  }

  lemma OneSampleStays(capacity: uint64, p: Pair, span: uint64)
    requires capacity != 0
    ensures CapacityEnforced(capacity, false, WithinSpan([p], span, 0), [p])
  {
  }

  method Capped(before: seq<Pair>, capacity: uint64, strict: bool) returns (after: seq<Pair>)
    requires SeqnosIncrease(before) && Thinnable(capacity, strict, before)
    ensures CapacityEnforced(capacity, strict, before, after) && SeqnosIncrease(after)
  {
    if capacity == 0 {
      return [];
    }
    var cap := StrictCap(capacity);
    EffectiveCapIs(capacity, strict);
    if |before| <= EffectiveCap(capacity, strict) {
      return before;
    }
    after := Thinned(before, cap);
    assert Open(0);
  }

  class SeqnoToTimeMapping {
    var maxTimeSpan: uint64
    var capacity: uint64
    var pairs: seq<Pair>
    var enforced: bool

    ghost predicate Valid()
      reads this
    {
      enforced ==> SeqnosIncrease(pairs)
    }

    constructor ()
      ensures Valid() && enforced && pairs == [] && maxTimeSpan == UINT64_MAX && capacity == UINT64_MAX
    {
      maxTimeSpan, capacity := UINT64_MAX, UINT64_MAX;
      pairs, enforced := [], true;
    }

    method AddUnenforced(seqno: uint64, time: uint64)
      requires Valid()
      modifies `pairs, `enforced
      ensures Valid()
      ensures seqno == 0 ==> pairs == old(pairs) && enforced == old(enforced)
      ensures seqno != 0 ==> pairs == old(pairs) + [Pair(seqno, time)] && !enforced
    {
      if seqno == 0 {
        return;
      }
      enforced := false;
      pairs := pairs + [Pair(seqno, time)];
    }

    method SortAndMerge()
      requires !enforced
      modifies `pairs, `enforced
      ensures Valid() && enforced && pairs == MergeAll(Sort(old(pairs)))
    {
      if pairs != [] {
        pairs := Sort(pairs);
        pairs := MergeSorted(pairs);
      }
      enforced := true;
      MergeAllSeqnos(Sort(old(pairs)));
    }

    method EnforceMaxTimeSpan(now: uint64)
      requires Valid() && enforced
      modifies `pairs
      ensures Valid() && pairs == WithinSpan(old(pairs), maxTimeSpan, now) && SpanEnforced(old(pairs), maxTimeSpan, now, pairs)
    {
      WithinSpanMeans(pairs, maxTimeSpan, now, WithinSpan(pairs, maxTimeSpan, now));
      if |pairs| <= 1 {
        return;
      }
      var cutoff: uint64;
      if now > 0 {
        if now < maxTimeSpan {
          return;
        }
        cutoff := now - maxTimeSpan;
      } else {
        if Last(pairs).time < maxTimeSpan {
          return;
        }
        cutoff := Last(pairs).time - maxTimeSpan;
      }
      while |pairs| >= 2 && pairs[0].time <= cutoff && pairs[1].time <= cutoff
        invariant SeqnosIncrease(pairs)
        invariant Pruned(pairs, cutoff) == Pruned(old(pairs), cutoff)
        decreases |pairs|
      {
        pairs := pairs[1..];
      }
    }

    /** Thins the samples down to the capacity. */
    method EnforceCapacity(strict: bool)
      requires Valid() && enforced && Thinnable(capacity, strict, pairs)
      modifies `pairs
      ensures Valid() && CapacityEnforced(capacity, strict, old(pairs), pairs)
    {
      pairs := Capped(pairs, capacity, strict);
    }

    /** Sorts, merges and prunes as far as that has not been done, then thins; without a time an enforced mapping is not pruned. */
    method Enforce(now: uint64)
      requires Valid()
      requires var merged := if enforced then pairs else MergeAll(Sort(pairs));
               Thinnable(capacity, true, if enforced && now == 0 then merged else WithinSpan(merged, maxTimeSpan, now))
      modifies `pairs, `enforced
      ensures Valid() && enforced
      ensures var merged := if old(enforced) then old(pairs) else MergeAll(Sort(old(pairs)));
              CapacityEnforced(capacity, true, if old(enforced) && now == 0 then merged else WithinSpan(merged, maxTimeSpan, now), pairs)
    {
      if !enforced {
        SortAndMerge();
        EnforceMaxTimeSpan(now);
      } else if now > 0 {
        EnforceMaxTimeSpan(now);
      }
      EnforceCapacity(true);
    }

    /** Appends a sample; `seqno` must not be older than the last one of an enforced mapping. */
    method Append(seqno: uint64, time: uint64) returns (added: bool)
      requires Valid() && (enforced && pairs != [] && seqno != 0 ==> Last(pairs).seqno <= seqno)
      requires Thinnable(capacity, false, WithinSpan(Appended(pairs, enforced, Pair(seqno, time)), maxTimeSpan, 0))
      modifies `pairs, `enforced
      ensures Valid()
      ensures capacity == 0 ==> !added && pairs == old(pairs) && enforced == old(enforced)
      ensures capacity != 0 ==>
                var next := Appended(old(pairs), old(enforced), Pair(seqno, time));
                enforced && CapacityEnforced(capacity, false, WithinSpan(next, maxTimeSpan, 0), pairs)
      ensures capacity != 0 && old(enforced) ==>
                added == (|Appended(old(pairs), true, Pair(seqno, time))| > |old(pairs)|)
    {
      if capacity == 0 {
        return false;
      }
      ghost var next := Appended(pairs, enforced, Pair(seqno, time));
      if seqno != 0 && pairs == [] {
        OneSampleStays(capacity, Pair(seqno, time), maxTimeSpan);
        enforced := true;
        pairs := [Pair(seqno, time)];
        return true;
      }
      added := AddOrMerge(seqno, time);
      if !enforced {
        SortAndMerge();
      }
      assert pairs == next;
      EnforceMaxTimeSpan(0);
      EnforceCapacity(false);
    }

    /** The merge step of `Append` on a mapping that already has samples. */
    method AddOrMerge(seqno: uint64, time: uint64) returns (added: bool)
      requires Valid() && (seqno != 0 ==> pairs != [])
      requires enforced && seqno != 0 ==> Last(pairs).seqno <= seqno
      modifies `pairs
      ensures Valid()
      ensures seqno == 0 ==> pairs == old(pairs)
      ensures seqno != 0 ==> pairs == if Last(old(pairs)).seqno <= seqno then MergeInto(old(pairs), Pair(seqno, time))
                                      else old(pairs) + [Pair(seqno, time)]
      ensures added == (|pairs| > |old(pairs)|)
    {
      added := false;
      if seqno == 0 {
      } else if Last(pairs).seqno <= seqno {
        match Merge(Last(pairs), Pair(seqno, time)) {
          case Some(p) =>
            pairs := Front(pairs) + [p];
          case None =>
            pairs := pairs + [Pair(seqno, time)];
            added := true;
        }
      } else {
        pairs := pairs + [Pair(seqno, time)];
        added := true;
      }
    }

    method SetMaxTimeSpan(span: uint64)
      requires Valid()
      modifies `maxTimeSpan, `pairs
      ensures Valid() && maxTimeSpan == span
      ensures pairs == if enforced then WithinSpan(old(pairs), span, 0) else old(pairs)
    {
      maxTimeSpan := span;
      if enforced {
        EnforceMaxTimeSpan(0);
      }
    }

    method SetCapacity(cap: uint64)
      requires Valid() && (enforced ==> Thinnable(cap, true, pairs))
      modifies `capacity, `pairs
      ensures Valid() && capacity == cap
      ensures if enforced then CapacityEnforced(cap, true, old(pairs), pairs) else pairs == old(pairs)
    {
      capacity := cap;
      if enforced {
        EnforceCapacity(true);
      }
    }

    /** Finds the largest known sequence number no later than `time`, provided samples are in time order. */
    method GetProximalSeqnoBeforeTime(time: uint64) returns (seqno: uint64)
      requires Valid() && enforced
      ensures var r := UpperBoundByTime(pairs, time, 0, |pairs|);
              seqno == if r == 0 then 0 else pairs[r - 1].seqno
      ensures TimesNeverRegress(pairs) ==> seqno == BestSeqno(pairs, time)
      ensures seqno <= BestSeqno(pairs, time) && (seqno == BestSeqno(pairs, time) <==> !Misled(pairs, time, 0, |pairs|))
    {
      var first := SearchByTime(pairs, time);
      seqno := if first == 0 then 0 else pairs[first - 1].seqno;
      SearchRightIff(pairs, time, first, seqno);
      if TimesNeverRegress(pairs) {
        InOrderIsRight(pairs, time, first, seqno);
      }
    }

    /** The time of the last sample strictly before `seqno`. */
    method GetProximalTimeBeforeSeqno(seqno: uint64) returns (time: uint64)
      requires Valid() && enforced
      ensures (forall i :: 0 <= i < |pairs| ==> seqno <= pairs[i].seqno) ==> time == 0
      ensures forall i :: (0 <= i < |pairs| && pairs[i].seqno < seqno &&
                           (i + 1 == |pairs| || seqno <= pairs[i + 1].seqno)) ==> time == pairs[i].time
    {
      var first, len := 0, |pairs|;
      while len > 0
        invariant 0 <= first && 0 <= len && first + len <= |pairs|
        invariant forall i :: 0 <= i < first ==> pairs[i].seqno < seqno
        invariant forall i :: first + len <= i < |pairs| ==> seqno <= pairs[i].seqno
        decreases len
      {
        var half := len / 2;
        if pairs[first + half].seqno < seqno {
          first, len := first + half + 1, len - half - 1;
        } else {
          len := half;
        }
      }
      time := if first == 0 then 0 else pairs[first - 1].time;
    }

    /** Adds decoded samples; nothing changes when the input is corrupt. A mapping that was empty and without limits is then
        taken to be in order, which it is if and only if the decoded samples are. */
    method DecodeFrom(input: seq<byte>) returns (ok: bool)
      requires Valid()
      modifies `pairs, `enforced
      ensures ok == Decode(input).Some?
      ensures !ok ==> Valid() && pairs == old(pairs) && enforced == old(enforced)
      ensures ok ==> pairs == old(pairs) + Decode(input).value && (Valid() <==> !enforced || SeqnosIncrease(Decode(input).value))
      ensures ok ==> enforced == (old(enforced) && old(pairs) == [] && maxTimeSpan == UINT64_MAX && capacity == UINT64_MAX)
    {
      var size := |pairs|;
      match Decode(input) {
        case None =>
          ok := false;
        case Some(ps) =>
          ok := true;
          pairs := pairs + ps;
          assert old(pairs) == [] ==> pairs == ps;
          if size > 0 || maxTimeSpan < UINT64_MAX || capacity < UINT64_MAX {
            enforced := false;
          }
      }
    }
  }

  lemma CollapsedEnds(m: seq<Pair>, orig: seq<Pair>)
    requires |orig| >= 3 && MarkedFrom(m, orig) && m[0] == orig[0] && Last(m) == Last(orig) && TimesKnown(orig)
    ensures Live(m) != [] && Live(m)[0] == orig[0] && Last(Live(m)) == Last(orig)
    ensures forall p :: p in Live(m) ==> p in orig
  {
    LiveMembers(m);
    LiveAround(m, 0);
    LiveAround(m, |m| - 1);
    assert m[..0] == [] && m[|m|..] == [];
    forall p | p in m && IsLive(p) ensures p in orig {
      var k :| 0 <= k < |m| && m[k] == p;
      assert orig[k] == p;
    }
  }

  /** A sequence of samples out of order, encoded: a new mapping that decodes it is taken to be in order, and is not. */
  lemma DecodedOutOfOrder(ps: seq<Pair>)
    requires ps == [Pair(2, 5), Pair(1, 5)]
    ensures Decode(Encode(ps)) == Some(ps) && !SeqnosIncrease(ps)
  {
    DecodeRoundTrip(ps);
    assert ps[1].seqno < ps[0].seqno;
  }

  /** The encoding of a mapping in order decodes, in a new mapping, to a valid one with the same samples. */
  method Copied(src: SeqnoToTimeMapping) returns (dst: SeqnoToTimeMapping)
    requires src.Valid() && src.enforced && |src.pairs| < TWO64
    ensures dst.Valid() && dst.enforced && dst.pairs == src.pairs
  {
    dst := new SeqnoToTimeMapping();
    DecodeRoundTrip(src.pairs);
    var ok := dst.DecodeFrom(Encode(src.pairs));
  }
}
