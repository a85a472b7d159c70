/**
 Thinning a list of samples down to a capacity. The simple form, `Greedy`, removes
 one interior sample at a time: the one whose removal leaves the smallest time gap,
 the older one on a tie. The lemmas relate it to a list in which removed samples are
 only marked, by the unknown time 0.
 */
module SeqnoToTimeThinning {
  import opened Seal
  import opened Coding
  import opened SeqnoToTimeSpec

  /* ---------- the simple form ---------- */

  function Remove(ps: seq<Pair>, i: nat): seq<Pair>
    requires i < |ps|
  {
    ps[..i] + ps[i + 1..]
  }

  /** The time gap left between its neighbours when interior sample `i` goes. */
  function Gap(ps: seq<Pair>, i: nat): uint64
    requires 0 < i < |ps| - 1
  {
    Sub64(ps[i + 1].time, ps[i - 1].time)
  }

  predicate NoWorse(gap: uint64, seqno: uint64, gap': uint64, seqno': uint64) {
    gap < gap' || (gap == gap' && seqno <= seqno')
  }

  ghost predicate IsVictim(ps: seq<Pair>, v: nat) {
    && 0 < v < |ps| - 1
    && forall j {:trigger Gap(ps, j)} :: 0 < j < |ps| - 1 ==> NoWorse(Gap(ps, v), ps[v].seqno, Gap(ps, j), ps[j].seqno)
  }

  function Victim(ps: seq<Pair>, k: nat): (v: nat)
    requires 0 < k < |ps| - 1
    ensures 0 < v <= k
  {
    if k == 1 then 1
    else
      var v := Victim(ps, k - 1);
      if NoWorse(Gap(ps, v), ps[v].seqno, Gap(ps, k), ps[k].seqno) then v else k
  }

  lemma {:induction false} VictimIsBest(ps: seq<Pair>, k: nat, j: nat)
    requires 0 < j <= k < |ps| - 1
    ensures var v := Victim(ps, k);
            NoWorse(Gap(ps, v), ps[v].seqno, Gap(ps, j), ps[j].seqno)
  {
    if j < k {
      VictimIsBest(ps, k - 1, j);
    }
  }

  function Greedy(ps: seq<Pair>, count: nat): (r: seq<Pair>)
    requires |ps| >= count + 2
    ensures |r| == |ps| - count && r[0] == ps[0] && Last(r) == Last(ps)
    decreases count
  {
    if count == 0 then ps
    else Greedy(Remove(ps, Victim(ps, |ps| - 2)), count - 1)
  }

  lemma GreedyUnfolds(ps: seq<Pair>, count: nat, next: nat, r: nat, rest: seq<Pair>)
    requires |ps| >= count + 2 && count == next + 1 && r == Victim(ps, |ps| - 2) && rest == Remove(ps, r)
    ensures |rest| >= next + 2 && Greedy(ps, count) == Greedy(rest, next)
  {
  }

  /* ---------- what each removal leaves ---------- */

  predicate Interior(ps: seq<Pair>, j: nat) {
    0 < j < |ps| - 1
  }

  /** Of all interior samples, `v` has its neighbours closest in time, and on a tie the least sequence number. */
  ghost predicate LeastLoss(ps: seq<Pair>, v: nat) {
    && Interior(ps, v)
    && forall j: nat {:trigger Interior(ps, j)} :: Interior(ps, j) ==>
         || ps[v + 1].time - ps[v - 1].time < ps[j + 1].time - ps[j - 1].time
         || (ps[v + 1].time - ps[v - 1].time == ps[j + 1].time - ps[j - 1].time && ps[v].seqno <= ps[j].seqno)
  }

  /** `r` is `ps` after `count` removals of such a sample, one after another. */
  ghost predicate Thins(ps: seq<Pair>, count: nat, r: seq<Pair>)
    decreases count
  {
    if count == 0 then r == ps
    else exists v: nat :: LeastLoss(ps, v) && Thins(ps[..v] + ps[v + 1..], count - 1, r)
  }

  /** In time order, `after` is what `count` removals leave of `before`, each of a sample whose neighbours are closest. */
  ghost predicate Cheapest(before: seq<Pair>, count: nat, after: seq<Pair>)
    requires |before| >= count + 2
  {
    forall n: nat {:trigger Open(n)} :: Open(n) && TimesNeverRegress(before) ==>
      after == Greedy(before, count) && Thins(before, count, after)
  }

  lemma PlainGap(ps: seq<Pair>, j: nat)
    requires TimesNeverRegress(ps) && Interior(ps, j)
    ensures Gap(ps, j) == ps[j + 1].time - ps[j - 1].time
  {
    var d := ps[j + 1].time - ps[j - 1].time;
    assert 0 <= d < TWO64;
  }

  lemma VictimLosesLeast(ps: seq<Pair>, v: nat)
    requires TimesNeverRegress(ps) && |ps| >= 3 && v == Victim(ps, |ps| - 2)
    ensures LeastLoss(ps, v)
  {
    forall j: nat | Interior(ps, j)
      ensures || ps[v + 1].time - ps[v - 1].time < ps[j + 1].time - ps[j - 1].time
              || (ps[v + 1].time - ps[v - 1].time == ps[j + 1].time - ps[j - 1].time && ps[v].seqno <= ps[j].seqno)
    {
      VictimIsBest(ps, |ps| - 2, j);
      PlainGap(ps, v);
      PlainGap(ps, j);
    }
  }

  lemma RemovedInOrder(ps: seq<Pair>, v: nat, r: seq<Pair>)
    requires TimesNeverRegress(ps) && v < |ps| && r == ps[..v] + ps[v + 1..]
    ensures TimesNeverRegress(r)
  {
  }

  lemma ThinsMore(ps: seq<Pair>, v: nat, rest: seq<Pair>, count: nat, next: nat, r: seq<Pair>)
    requires LeastLoss(ps, v) && rest == ps[..v] + ps[v + 1..] && count == next + 1 && Thins(rest, next, r)
    ensures Thins(ps, count, r)
  {
  }

  /** In time order the greedy choice always costs least. */
  lemma {:induction false} GreedyThins(ps: seq<Pair>, count: nat, r: seq<Pair>)
    requires TimesNeverRegress(ps) && |ps| >= count + 2 && r == Greedy(ps, count)
    ensures Thins(ps, count, r)
    decreases count
  {
    if count > 0 {
      var v, next := Victim(ps, |ps| - 2), count - 1;
      var rest := Remove(ps, v);
      VictimLosesLeast(ps, v);
      RemovedInOrder(ps, v, rest);
      GreedyUnfolds(ps, count, next, v, rest);
      GreedyThins(rest, next, r);
      ThinsMore(ps, v, rest, count, next, r);
    }
  }

  lemma VictimUnique(ps: seq<Pair>, v: nat)
    requires SeqnosIncrease(ps) && IsVictim(ps, v)
    ensures Victim(ps, |ps| - 2) == v
  {
    var k := |ps| - 2;
    var w := Victim(ps, k);
    VictimIsBest(ps, k, v);
    assert ps[w].seqno == ps[v].seqno;
  }

  /* ---------- samples marked as removed ---------- */

  predicate IsLive(p: Pair) {
    p.time != 0
  }

  function Live(m: seq<Pair>): (r: seq<Pair>)
    ensures |r| <= |m|
  {
    if m == [] then []
    else if IsLive(m[0]) then [m[0]] + Live(m[1..])
    else Live(m[1..])
  }

  lemma {:induction false} LiveConcat(a: seq<Pair>, b: seq<Pair>)
    ensures Live(a + b) == Live(a) + Live(b)
  {
    if a == [] {
      assert a + b == b;
    } else {
      assert (a + b)[0] == a[0] && (a + b)[1..] == a[1..] + b;
      LiveConcat(a[1..], b);
      if IsLive(a[0]) {
        assert [a[0]] + (Live(a[1..]) + Live(b)) == [a[0]] + Live(a[1..]) + Live(b);
      }
    }
  }

  lemma LiveAround(m: seq<Pair>, i: nat)
    requires i < |m|
    ensures Live(m) == Live(m[..i]) + (if IsLive(m[i]) then [m[i]] else []) + Live(m[i + 1..])
  {
    assert m == m[..i] + m[i..];
    LiveConcat(m[..i], m[i..]);
    assert m[i..][0] == m[i] && m[i..][1..] == m[i + 1..];
    if IsLive(m[i]) {
      assert Live(m[..i]) + ([m[i]] + Live(m[i + 1..])) == Live(m[..i]) + [m[i]] + Live(m[i + 1..]);
    } else {
      assert Live(m[..i]) + [] == Live(m[..i]);
    }
  }

  lemma {:induction false} LiveMembers(m: seq<Pair>)
    ensures forall p :: p in Live(m) <==> p in m && IsLive(p)
  {
    if m != [] {
      LiveMembers(m[1..]);
      assert m == [m[0]] + m[1..];
    }
  }

  lemma {:induction false} LiveAll(m: seq<Pair>)
    requires TimesKnown(m)
    ensures Live(m) == m
  {
    if m != [] {
      assert forall i :: 0 <= i < |m[1..]| ==> m[1..][i] == m[i + 1];
      LiveAll(m[1..]);
    }
  }

  ghost predicate LiveTimesNeverRegress(m: seq<Pair>) {
    forall i, j :: 0 <= i < j < |m| && IsLive(m[i]) && IsLive(m[j]) ==> m[i].time <= m[j].time
  }

  lemma {:induction false} LiveKeepsSeqnoOrder(m: seq<Pair>)
    requires SeqnosIncrease(m)
    ensures SeqnosIncrease(Live(m))
  {
    if m != [] {
      LiveKeepsSeqnoOrder(m[1..]);
      LiveMembers(m[1..]);
      assert forall p :: p in m[1..] ==> m[0].seqno < p.seqno;
      assert forall i :: 0 <= i < |Live(m[1..])| ==> Live(m[1..])[i] in Live(m[1..]);
    }
  }

  lemma {:induction false} LiveKeepsTimeOrder(m: seq<Pair>)
    requires LiveTimesNeverRegress(m)
    ensures TimesNeverRegress(Live(m))
  {
    if m != [] {
      LiveKeepsTimeOrder(m[1..]);
      LiveMembers(m[1..]);
      if IsLive(m[0]) {
        assert forall p :: p in m[1..] && IsLive(p) ==> m[0].time <= p.time;
        assert forall i :: 0 <= i < |Live(m[1..])| ==> Live(m[1..])[i] in Live(m[1..]);
      }
    }
  }

  ghost predicate EndsLive(m: seq<Pair>) {
    |m| >= 2 && IsLive(m[0]) && IsLive(Last(m))
  }

  lemma NeighboursExist(m: seq<Pair>, i: nat)
    requires EndsLive(m) && 0 < i < |m| - 1
    ensures Live(m[..i]) != [] && Live(m[i + 1..]) != []
  {
    LiveMembers(m[..i]);
    LiveMembers(m[i + 1..]);
    assert m[..i][0] in m[..i];
    assert m[i + 1..][|m| - i - 2] in m[i + 1..];
  }

  /** The gap between the nearest live samples on either side of `i`. */
  function TrueGap(m: seq<Pair>, i: nat): uint64
    requires EndsLive(m) && 0 < i < |m| - 1
  {
    NeighboursExist(m, i);
    Sub64(Live(m[i + 1..])[0].time, Last(Live(m[..i])).time)
  }

  function Mark(m: seq<Pair>, i: nat): seq<Pair>
    requires i < |m|
  {
    m[i := m[i].(time := 0)]
  }

  /** A live interior sample `i` of the marked list is sample `r` of the list of live ones. */
  lemma Rank(m: seq<Pair>, i: nat) returns (r: nat)
    requires EndsLive(m) && 0 < i < |m| - 1 && IsLive(m[i])
    ensures r == |Live(m[..i])| && 0 < r < |Live(m)| - 1
    ensures Live(m)[r] == m[i] && Gap(Live(m), r) == TrueGap(m, i)
    ensures Live(Mark(m, i)) == Remove(Live(m), r)
  {
    r := |Live(m[..i])|;
    NeighboursExist(m, i);
    LiveAround(m, i);
    LiveAround(Mark(m, i), i);
    assert Mark(m, i)[..i] == m[..i];
    assert Mark(m, i)[i + 1..] == m[i + 1..];
  }

  lemma {:induction false} Unrank(m: seq<Pair>, r: nat) returns (i: nat)
    requires r < |Live(m)|
    ensures i < |m| && IsLive(m[i]) && |Live(m[..i])| == r
  {
    if IsLive(m[0]) && r == 0 {
      i := 0;
    } else {
      var k := Unrank(m[1..], if IsLive(m[0]) then r - 1 else r);
      i := k + 1;
      assert m[..i] == [m[0]] + m[1..][..k];
      LiveConcat([m[0]], m[1..][..k]);
    }
  }

  lemma UnrankInterior(m: seq<Pair>, r: nat) returns (i: nat)
    requires EndsLive(m) && 0 < r < |Live(m)| - 1
    ensures 0 < i < |m| - 1 && IsLive(m[i]) && |Live(m[..i])| == r
  {
    i := Unrank(m, r);
    LiveAround(m, |m| - 1);
    assert m[|m|..] == [];
    assert m[..|m| - 1] == m[..i] + m[i..][..|m| - 1 - i];
    if i == |m| - 1 {
      assert false;
    }
  }

  lemma OrderedEnds(a: seq<Pair>, b: seq<Pair>)
    requires a != [] && b != [] && TimesNeverRegress(b)
    requires forall p :: p in a ==> p in b
    ensures b[0].time <= a[0].time && Last(a).time <= Last(b).time
  {
    assert a[0] in b && Last(a) in b;
  }

  /** Marking a sample never shrinks the gap of another while times do not regress. */
  lemma GapOnlyGrows(m: seq<Pair>, i: nat, k: nat)
    requires EndsLive(m) && LiveTimesNeverRegress(m)
    requires 0 < i < |m| - 1 && 0 < k < |m| - 1 && i != k
    ensures EndsLive(Mark(m, i)) && TrueGap(m, k) <= TrueGap(Mark(m, i), k)
  {
    var n := Mark(m, i);
    GapInOrder(m, k);
    GapInOrder(n, k);
    assert m[0..k] == m[..k] && n[0..k] == n[..k];
    assert m[k + 1..|m|] == m[k + 1..] && n[k + 1..|m|] == n[k + 1..];
    LiveEndsWhenMarked(m, i, 0, k);
    LiveEndsWhenMarked(m, i, k + 1, |m|);
  }

  lemma LiveEndsWhenMarked(m: seq<Pair>, i: nat, lo: nat, hi: nat)
    requires LiveTimesNeverRegress(m)
    requires i < |m| && lo <= hi <= |m|
    requires Live(Mark(m, i)[lo..hi]) != [] && Live(m[lo..hi]) != []
    ensures Live(m[lo..hi])[0].time <= Live(Mark(m, i)[lo..hi])[0].time
    ensures Last(Live(Mark(m, i)[lo..hi])).time <= Last(Live(m[lo..hi])).time
  {
    SubsetWhenMarked(m, i, lo, hi);
    assert LiveTimesNeverRegress(m[lo..hi]);
    LiveKeepsTimeOrder(m[lo..hi]);
    OrderedEnds(Live(Mark(m, i)[lo..hi]), Live(m[lo..hi]));
  }

  lemma SubsetWhenMarked(m: seq<Pair>, i: nat, lo: nat, hi: nat)
    requires i < |m| && lo <= hi <= |m|
    ensures forall p :: p in Live(Mark(m, i)[lo..hi]) ==> p in Live(m[lo..hi])
  {
    var n := Mark(m, i);
    LiveMembers(n[lo..hi]);
    LiveMembers(m[lo..hi]);
    forall p | p in n[lo..hi] && IsLive(p) ensures p in m[lo..hi] {
      var k :| 0 <= k < hi - lo && n[lo..hi][k] == p;
      assert m[lo..hi][k] == p;
    }
  }

  lemma GapInOrder(m: seq<Pair>, k: nat)
    requires EndsLive(m) && LiveTimesNeverRegress(m) && 0 < k < |m| - 1
    ensures Live(m[..k]) != [] && Live(m[k + 1..]) != []
    ensures Last(Live(m[..k])).time <= Live(m[k + 1..])[0].time
    ensures TrueGap(m, k) == Live(m[k + 1..])[0].time - Last(Live(m[..k])).time
  {
    NeighboursExist(m, k);
    LiveMembers(m[..k]);
    LiveMembers(m[k + 1..]);
    var p, q := Last(Live(m[..k])), Live(m[k + 1..])[0];
    assert p in Live(m[..k]) && q in Live(m[k + 1..]);
    var a :| 0 <= a < k && m[..k][a] == p;
    var b :| 0 <= b < |m| - k - 1 && m[k + 1..][b] == q;
    assert m[a] == p && m[k + 1 + b] == q;
  }
}
