/**
 The sampled mapping from sequence numbers to times, as values: what a list of
 samples says, which samples may be dropped without changing that, and the simple
 form of the capacity reducer.
 */
module SeqnoToTimeSpec {
  import opened Coding

  datatype Pair = Pair(seqno: uint64, time: uint64)

  ghost predicate SeqnosIncrease(ps: seq<Pair>) {
    forall i, j :: 0 <= i < j < |ps| ==> ps[i].seqno < ps[j].seqno
  }

  ghost predicate TimesIncrease(ps: seq<Pair>) {
    forall i, j :: 0 <= i < j < |ps| ==> ps[i].time < ps[j].time
  }

  ghost predicate TimesNeverRegress(ps: seq<Pair>) {
    forall i, j :: 0 <= i < j < |ps| ==> ps[i].time <= ps[j].time
  }

  ghost predicate TimesKnown(ps: seq<Pair>) {
    forall i :: 0 <= i < |ps| ==> ps[i].time != 0
  }

  function Last(ps: seq<Pair>): Pair
    requires ps != []
  {
    ps[|ps| - 1]
  }

  function Front(ps: seq<Pair>): seq<Pair>
    requires ps != []
  {
    ps[..|ps| - 1]
  }

  /* ---------- what a list of samples says ---------- */

  /** The largest sequence number recorded with a time no later than `t`; 0 if none. */
  function BestSeqno(ps: seq<Pair>, t: uint64): (best: uint64)
    ensures forall i :: 0 <= i < |ps| && ps[i].time <= t ==> ps[i].seqno <= best
    ensures best == 0 || exists i :: 0 <= i < |ps| && ps[i].time <= t && ps[i].seqno == best
  {
    if ps == [] then
      0
    else
      var best := BestSeqno(Front(ps), t);
      assert forall i :: 0 <= i < |ps| - 1 ==> Front(ps)[i] == ps[i];
      if Last(ps).time <= t && best < Last(ps).seqno then Last(ps).seqno else best
  }

  /** `p` adds nothing next to `q`: `q` is at least as new and no later. */
  predicate Dominated(p: Pair, q: Pair) {
    p.seqno <= q.seqno && q.time <= p.time
  }

  ghost predicate Covers(kept: seq<Pair>, p: Pair) {
    exists k :: 0 <= k < |kept| && Dominated(p, kept[k])
  }

  /** `kept` holds only samples of `ps`, and every sample of `ps` is dominated by one it holds. */
  ghost predicate Summarizes(kept: seq<Pair>, ps: seq<Pair>) {
    && (forall p :: p in kept ==> p in ps)
    && (forall p :: p in ps ==> Covers(kept, p))
  }

  lemma SummaryKeepsBest(kept: seq<Pair>, ps: seq<Pair>, t: uint64)
    requires Summarizes(kept, ps)
    ensures BestSeqno(kept, t) == BestSeqno(ps, t)
  {
    var a, b := BestSeqno(kept, t), BestSeqno(ps, t);
    if a != 0 {
      var k :| 0 <= k < |kept| && kept[k].time <= t && kept[k].seqno == a;
      assert kept[k] in ps;
    }
    if b != 0 {
      var i :| 0 <= i < |ps| && ps[i].time <= t && ps[i].seqno == b;
      assert Covers(kept, ps[i]);
    }
  }

  lemma SummaryTransitive(a: seq<Pair>, b: seq<Pair>, c: seq<Pair>)
    requires Summarizes(a, b) && Summarizes(b, c)
    ensures Summarizes(a, c)
  {
    forall p | p in c ensures Covers(a, p) {
      assert Covers(b, p);
      var k :| 0 <= k < |b| && Dominated(p, b[k]);
      assert b[k] in b && Covers(a, b[k]);
      var l :| 0 <= l < |a| && Dominated(b[k], a[l]);
      assert Dominated(p, a[l]);
    }
  }

  /* ---------- sorting ---------- */

  predicate PairLeq(a: Pair, b: Pair) {
    a.seqno < b.seqno || (a.seqno == b.seqno && a.time <= b.time)
  }

  ghost predicate Sorted(ps: seq<Pair>) {
    forall i, j :: 0 <= i < j < |ps| ==> PairLeq(ps[i], ps[j])
  }

  function Insert(p: Pair, ps: seq<Pair>): (r: seq<Pair>)
    ensures multiset(r) == multiset(ps) + multiset{p}
  {
    if ps == [] then [p]
    else if PairLeq(p, ps[0]) then [p] + ps
    else
      assert ps == [ps[0]] + ps[1..];
      [ps[0]] + Insert(p, ps[1..])
  }

  lemma {:induction false} InsertKeepsSorted(p: Pair, ps: seq<Pair>)
    requires Sorted(ps)
    ensures Sorted(Insert(p, ps))
  {
    if ps != [] && !PairLeq(p, ps[0]) {
      var r := Insert(p, ps[1..]);
      InsertKeepsSorted(p, ps[1..]);
      forall i | 0 <= i < |r| ensures PairLeq(ps[0], r[i]) {
        assert r[i] in multiset(r);
        assert r[i] == p || r[i] in ps[1..];
      }
    }
  }

  /** The sorted order on pairs is total, so this is the one result `std::sort` can have. */
  function Sort(ps: seq<Pair>): (r: seq<Pair>)
    ensures Sorted(r) && multiset(r) == multiset(ps)
  {
    if ps == [] then []
    else
      assert ps == [ps[0]] + ps[1..];
      InsertKeepsSorted(ps[0], Sort(ps[1..]));
      Insert(ps[0], Sort(ps[1..]))
  }

  lemma SortSummarizes(ps: seq<Pair>)
    ensures Summarizes(Sort(ps), ps)
  {
    var r := Sort(ps);
    forall p | p in r ensures p in ps {
      assert p in multiset(r);
    }
    forall p | p in ps ensures Covers(r, p) {
      assert p in multiset(r);
      var k :| 0 <= k < |r| && r[k] == p;
      assert Dominated(p, r[k]);
    }
  }

  /* ---------- merging ---------- */

  /** `SeqnoTimePair::Merge`: the pair that replaces `p` when `other` can be folded into it. */
  function Merge(p: Pair, other: Pair): (r: Option<Pair>)
    requires p.seqno <= other.seqno
    ensures r.Some? ==> (r.value == p || r.value == other)
    ensures r.Some? ==> Dominated(p, r.value) && Dominated(other, r.value)
    ensures r.None? <==> p.seqno < other.seqno && p.time < other.time
  {
    if p.seqno == other.seqno then
      Some(Pair(p.seqno, if other.time < p.time then other.time else p.time))
    else if p.time == other.time then
      Some(Pair(if p.seqno < other.seqno then other.seqno else p.seqno, p.time))
    else if p.time > other.time then
      Some(other)
    else
      None
  }

  /** One step of the merge loop: fold `p` into the last kept pair, or keep it as well. */
  function MergeInto(kept: seq<Pair>, p: Pair): (r: seq<Pair>)
    requires kept != [] ==> Last(kept).seqno <= p.seqno
    ensures r != [] && Last(r).seqno == p.seqno
  {
    if kept == [] then [p]
    else
      match Merge(Last(kept), p)
      case Some(q) => Front(kept) + [q]
      case None => kept + [p]
  }

  function MergeAll(ps: seq<Pair>): (r: seq<Pair>)
    requires Sorted(ps)
    ensures ps != [] ==> r != [] && Last(r).seqno == Last(ps).seqno
    ensures |r| <= |ps|
  {
    if ps == [] then [] else MergeInto(MergeAll(Front(ps)), Last(ps))
  }

  lemma MergeIntoSummarizes(kept: seq<Pair>, ps: seq<Pair>, p: Pair)
    requires kept != [] ==> Last(kept).seqno <= p.seqno
    requires Summarizes(kept, ps)
    ensures Summarizes(MergeInto(kept, p), ps + [p])
  {
    var r := MergeInto(kept, p);
    assert Dominated(p, Last(r));
    forall q | q in ps ensures Covers(r, q) {
      assert Covers(kept, q);
      var k :| 0 <= k < |kept| && Dominated(q, kept[k]);
      if k < |kept| - 1 {
        assert r[k] == kept[k];
      } else {
        assert Dominated(q, r[k]);
      }
    }
  }

  /** Merging loses nothing a time query can see, whatever the input order of times. */
  lemma {:induction false} MergeAllSummarizes(ps: seq<Pair>)
    requires Sorted(ps)
    ensures Summarizes(MergeAll(ps), ps)
  {
    if ps != [] {
      MergeAllSummarizes(Front(ps));
      assert Front(ps) + [Last(ps)] == ps;
      MergeIntoSummarizes(MergeAll(Front(ps)), Front(ps), Last(ps));
    }
  }

  lemma {:induction false} MergeAllSeqnos(ps: seq<Pair>)
    requires Sorted(ps)
    ensures SeqnosIncrease(MergeAll(ps))
  {
    if ps != [] {
      MergeAllSeqnos(Front(ps));
    }
  }

  /** Sorting and merging any list of samples answers every time query as before. */
  lemma SortAndMergeKeepsBest(ps: seq<Pair>, t: uint64)
    ensures BestSeqno(MergeAll(Sort(ps)), t) == BestSeqno(ps, t)
  {
    SortSummarizes(ps);
    MergeAllSummarizes(Sort(ps));
    SummaryTransitive(MergeAll(Sort(ps)), Sort(ps), ps);
    SummaryKeepsBest(MergeAll(Sort(ps)), ps, t);
  }

  /* ---------- which samples a merge keeps ---------- */

  /** The earliest sample of each sequence number. */
  function Earliest(ps: seq<Pair>): (r: seq<Pair>)
    requires Sorted(ps)
    ensures ps != [] ==> r != [] && Last(r).seqno == Last(ps).seqno && Last(r).time <= Last(ps).time
    ensures forall k :: 0 <= k < |r| ==> r[k] in ps
  {
    if ps == [] then []
    else
      var r := Earliest(Front(ps));
      if r != [] && Last(r).seqno == Last(ps).seqno then r else r + [Last(ps)]
  }

  /** The samples directly followed by a later time, and the last one. */
  function Rises(d: seq<Pair>): (r: seq<Pair>)
    ensures d != [] ==> r != [] && Last(r) == Last(d)
  {
    if |d| <= 1 then d
    else if d[0].time < d[1].time then [d[0]] + Rises(d[1..])
    else Rises(d[1..])
  }

  lemma {:induction false} RisesSnoc(d: seq<Pair>, p: Pair)
    ensures Rises(d + [p]) == if d == [] then [p]
                              else if Last(d).time < p.time then Rises(d) + [p]
                              else Front(Rises(d)) + [p]
  {
    if |d| >= 2 {
      RisesSnoc(d[1..], p);
      assert (d + [p])[1..] == d[1..] + [p];
    } else if |d| == 1 {
      assert (d + [p])[1..] == [p];
      assert d + [p] == [d[0], p];
    }
  }

  /** The merge loop in closed form. */
  lemma {:induction false} MergeAllIsRises(ps: seq<Pair>)
    requires Sorted(ps)
    ensures MergeAll(ps) == Rises(Earliest(ps))
  {
    if ps != [] {
      MergeAllIsRises(Front(ps));
      var d := Earliest(Front(ps));
      if d != [] {
        var p := Last(ps);
        RisesSnoc(d, p);
        if Last(d).seqno == p.seqno {
          assert Merge(Last(d), p) == Some(Last(d));
          assert Front(Rises(d)) + [Last(d)] == Rises(d);
        }
      }
    }
  }

  /** Some reading falls back to, or below, an earlier reading `j` after only later readings since `j`. */
  ghost predicate FallsBackPast(d: seq<Pair>, j: int, i: int) {
    && 0 <= j && j + 1 < i < |d|
    && d[i].time <= d[j].time
    && forall k :: j < k < i ==> d[j].time < d[k].time
  }

  lemma {:induction false} FirstFallBack(d: seq<Pair>, i: nat)
    requires 2 <= i < |d| && d[0].time < d[1].time && d[i].time <= d[0].time
    ensures FallsBackPastFirst(d)
    decreases i
  {
    if k :| 0 < k < i && d[k].time <= d[0].time {
      FirstFallBack(d, k);
    } else {
      assert FallsBackPast(d, 0, i);
    }
  }

  /** Each kept sample is no later than every sample it stands for. */
  lemma {:induction false} RisesLowerBound(d: seq<Pair>, i: nat)
    requires i < |d|
    ensures exists k :: 0 <= k < |Rises(d)| && Rises(d)[k].time <= d[i].time
  {
    var r := Rises(d);
    if i == |d| - 1 {
      assert r[|r| - 1].time <= d[i].time;
    } else if i == 0 {
      if d[0].time < d[1].time {
        assert r[0] == d[0];
      } else {
        RisesLowerBound(d[1..], 0);
      }
    } else {
      RisesLowerBound(d[1..], i - 1);
      var k :| 0 <= k < |Rises(d[1..])| && Rises(d[1..])[k].time <= d[1..][i - 1].time;
      if d[0].time < d[1].time {
        assert r[k + 1] == Rises(d[1..])[k];
      }
    }
  }

  lemma {:induction false} RisesMember(d: seq<Pair>, k: nat)
    requires k < |Rises(d)|
    ensures Rises(d)[k] in d
  {
    if |d| > 1 {
      if d[0].time < d[1].time {
        if k > 0 { RisesMember(d[1..], k - 1); }
      } else {
        RisesMember(d[1..], k);
      }
    }
  }

  ghost predicate FallsBack(d: seq<Pair>) {
    exists j, i :: FallsBackPast(d, j, i)
  }

  ghost predicate FallsBackPastFirst(d: seq<Pair>) {
    exists i :: FallsBackPast(d, 0, i)
  }

  /** The kept samples have increasing times exactly when no reading falls back past an earlier one. */
  lemma {:induction false} RisesIncreaseIff(d: seq<Pair>)
    ensures TimesIncrease(Rises(d)) <==> !FallsBack(d)
  {
    if |d| > 1 {
      RisesIncreaseIff(d[1..]);
      FallsBackCons(d);
      if d[0].time < d[1].time {
        TimesIncreaseCons(d[0], Rises(d[1..]));
        FallsBackHead(d);
      } else {
        assert !FallsBackPastFirst(d);
      }
    }
  }

  /** Fall-backs past a sample other than the first are those of the tail. */
  lemma FallsBackCons(d: seq<Pair>)
    requires |d| > 1
    ensures FallsBack(d) <==> FallsBackPastFirst(d) || FallsBack(d[1..])
  {
    var tail := d[1..];
    if j, i :| FallsBackPast(tail, j, i) {
      forall k | j + 1 < k < i + 1 ensures d[j + 1].time < d[k].time {
        assert tail[k - 1].time > tail[j].time;
      }
      assert FallsBackPast(d, j + 1, i + 1);
    }
    if j, i :| 0 < j && FallsBackPast(d, j, i) {
      forall k | j - 1 < k < i - 1 ensures tail[j - 1].time < tail[k].time {
        assert d[k + 1].time > d[j].time;
      }
      assert FallsBackPast(tail, j - 1, i - 1);
    }
  }

  lemma TimesIncreaseCons(p: Pair, s: seq<Pair>)
    ensures TimesIncrease([p] + s) <==> TimesIncrease(s) && forall k :: 0 <= k < |s| ==> p.time < s[k].time
  {
    var r := [p] + s;
    if TimesIncrease(r) {
      forall a, b | 0 <= a < b < |s| ensures s[a].time < s[b].time {
        assert r[a + 1].time < r[b + 1].time;
      }
      forall k | 0 <= k < |s| ensures p.time < s[k].time {
        assert r[0].time < r[k + 1].time;
      }
    }
  }

  lemma FallsBackHead(d: seq<Pair>)
    requires |d| > 1 && d[0].time < d[1].time
    ensures FallsBackPastFirst(d) <==>
              exists k :: 0 <= k < |Rises(d[1..])| && Rises(d[1..])[k].time <= d[0].time
  {
    var tail := d[1..];
    var s := Rises(tail);
    if i :| FallsBackPast(d, 0, i) {
      RisesLowerBound(tail, i - 1);
      var k :| 0 <= k < |s| && s[k].time <= tail[i - 1].time;
    }
    if k :| 0 <= k < |s| && s[k].time <= d[0].time {
      RisesMember(tail, k);
      var i :| 0 <= i < |tail| && tail[i] == s[k];
      FirstFallBack(d, i + 1);
    }
  }

  /** When sorted and merged samples come out in time order. */
  lemma MergedTimesIncreaseIff(ps: seq<Pair>)
    ensures TimesIncrease(MergeAll(Sort(ps))) <==>
              !FallsBack(Earliest(Sort(ps)))
  {
    MergeAllIsRises(Sort(ps));
    RisesIncreaseIff(Earliest(Sort(ps)));
  }

  /** A clock that goes back once is enough: sequence number 3 was read at a time before that of 1. */
  lemma MergedTimesMayRegress()
    ensures var ps := [Pair(1, 10), Pair(2, 20), Pair(3, 5)];
            MergeAll(ps) == [Pair(1, 10), Pair(3, 5)]
  {
    var ps := [Pair(1, 10), Pair(2, 20), Pair(3, 5)];
    assert Front(ps) == [Pair(1, 10), Pair(2, 20)];
    assert Front(Front(ps)) == [Pair(1, 10)];
    assert Front(Front(Front(ps))) == [];
    assert MergeAll([Pair(1, 10)]) == [Pair(1, 10)];
    assert MergeAll([Pair(1, 10), Pair(2, 20)]) == [Pair(1, 10), Pair(2, 20)];
  }
}
