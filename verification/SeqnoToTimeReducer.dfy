/**
 The capacity reducer of the seqno-to-time mapping, as the source runs it: a queue
 of removal candidates whose recorded gaps may be out of date, refreshed only when
 a candidate reaches the top.
 */
module SeqnoToTimeReducer {
  import opened Coding
  import opened SeqnoToTimeSpec
  import opened SeqnoToTimeThinning

  datatype Candidate = Candidate(gap: uint64, pos: nat)

  /** `a` is taken no later than `b`: smaller recorded gap, the older sample on a tie. */
  predicate Before(m: seq<Pair>, a: Candidate, b: Candidate)
    requires a.pos < |m| && b.pos < |m|
  {
    NoWorse(a.gap, m[a.pos].seqno, b.gap, m[b.pos].seqno)
  }

  ghost predicate HasCandidate(pq: set<Candidate>, i: int) {
    exists c :: c in pq && c.pos == i
  }

  /** The queue holds one candidate for each live interior sample and nothing else. */
  ghost predicate Queued(m: seq<Pair>, pq: set<Candidate>) {
    && (forall c :: c in pq ==> 0 < c.pos < |m| - 1 && IsLive(m[c.pos]))
    && (forall c, d :: c in pq && d in pq && c.pos == d.pos ==> c == d)
    && (forall i :: 0 < i < |m| - 1 && IsLive(m[i]) ==> HasCandidate(pq, i))
  }

  /** No recorded gap exceeds the true one. */
  ghost predicate Optimistic(m: seq<Pair>, pq: set<Candidate>)
    requires EndsLive(m) && Queued(m, pq)
  {
    forall c :: c in pq ==> c.gap <= TrueGap(m, c.pos)
  }

  ghost function Stale(m: seq<Pair>, pq: set<Candidate>): set<Candidate>
    requires EndsLive(m) && Queued(m, pq)
  {
    set c | c in pq && c.gap != TrueGap(m, c.pos)
  }

  lemma {:induction false} TopExists(m: seq<Pair>, pq: set<Candidate>)
    requires pq != {} && forall c :: c in pq ==> c.pos < |m|
    ensures exists c :: c in pq && forall d :: d in pq ==> Before(m, c, d)
    decreases |pq|
  {
    var x :| x in pq;
    if pq == {x} {
      assert forall d :: d in pq ==> Before(m, x, d);
    } else {
      var rest := pq - {x};
      TopExists(m, rest);
      var c :| c in rest && forall d :: d in rest ==> Before(m, c, d);
      if Before(m, c, x) {
        assert forall d :: d in pq ==> Before(m, c, d);
      } else {
        forall d | d in pq ensures Before(m, x, d) {
          assert d == x || Before(m, c, d);
        }
      }
    }
  }

  lemma InteriorLeft(m: seq<Pair>, pq: set<Candidate>)
    requires EndsLive(m) && Queued(m, pq) && |Live(m)| > 2
    ensures pq != {}
  {
    var i := UnrankInterior(m, 1);
    assert HasCandidate(pq, i);
    var c :| c in pq && c.pos == i;
  }

  lemma TopNoWorse(m: seq<Pair>, pq: set<Candidate>, top: Candidate, j: nat)
    requires EndsLive(m) && Queued(m, pq) && Optimistic(m, pq)
    requires top in pq && (forall d :: d in pq ==> Before(m, top, d))
    requires 0 < j < |Live(m)| - 1
    ensures NoWorse(top.gap, m[top.pos].seqno, Gap(Live(m), j), Live(m)[j].seqno)
  {
    var i := UnrankInterior(m, j);
    assert HasCandidate(pq, i);
    var c :| c in pq && c.pos == i;
    var j' := Rank(m, i);
    assert Before(m, top, c);
  }

  lemma TopIsVictim(m: seq<Pair>, pq: set<Candidate>, top: Candidate, r: nat, ps: seq<Pair>)
    requires EndsLive(m) && Queued(m, pq) && Optimistic(m, pq) && ps == Live(m)
    requires top in pq && (forall d :: d in pq ==> Before(m, top, d))
    requires 0 < r < |ps| - 1 && ps[r] == m[top.pos] && Gap(ps, r) == top.gap
    ensures IsVictim(ps, r)
  {
    forall j {:trigger Gap(ps, j)} | 0 < j < |ps| - 1 ensures NoWorse(Gap(ps, r), ps[r].seqno, Gap(ps, j), ps[j].seqno) {
      TopNoWorse(m, pq, top, j);
    }
  }

  /** With no recorded gap above the true one, an up-to-date candidate on top is the greedy choice. */
  lemma FreshTopIsVictim(m: seq<Pair>, pq: set<Candidate>, top: Candidate, r: nat, ps: seq<Pair>)
    requires EndsLive(m) && SeqnosIncrease(m) && Queued(m, pq) && Optimistic(m, pq) && ps == Live(m)
    requires top in pq && (forall d :: d in pq ==> Before(m, top, d))
    requires 0 < r < |ps| - 1 && ps[r] == m[top.pos] && Gap(ps, r) == top.gap
    ensures Victim(ps, |ps| - 2) == r
  {
    TopIsVictim(m, pq, top, r, ps);
    assert SeqnosIncrease(ps) by {
      LiveKeepsSeqnoOrder(m);
    }
    VictimUnique(ps, r);
  }

  /** One candidate for each interior sample, with its gap. */
  method Candidates(m: seq<Pair>) returns (pq: set<Candidate>)
    requires |m| >= 3 && TimesKnown(m)
    ensures EndsLive(m) && Queued(m, pq) && Stale(m, pq) == {} && Optimistic(m, pq)
  {
    pq := {};
    LiveAll(m);
    var prevPrevTime := m[0].time;
    var prev, it := 1, 2;
    while it < |m|
      invariant 2 <= it <= |m| && prev == it - 1 && prevPrevTime == m[it - 2].time
      invariant forall c :: c in pq ==> 0 < c.pos < prev && c.gap == Sub64(m[c.pos + 1].time, m[c.pos - 1].time)
      invariant forall i :: 0 < i < prev ==> HasCandidate(pq, i)
    {
      var gap := Sub64(m[it].time, prevPrevTime);
      ghost var was := pq;
      pq := pq + {Candidate(gap, prev)};
      assert Candidate(gap, prev) in pq;
      forall i | 0 < i < it ensures HasCandidate(pq, i) {
        if i < prev {
          assert HasCandidate(was, i);
          var c :| c in was && c.pos == i;
          assert c in pq;
        }
      }
      prevPrevTime := m[prev].time;
      prev := it;
      it := it + 1;
    }
    forall c | c in pq ensures c.gap == TrueGap(m, c.pos) {
      LiveAll(m[..c.pos]);
      LiveAll(m[c.pos + 1..]);
    }
  }

  method TimeAfter(m: seq<Pair>, i: nat) returns (t: uint64)
    requires EndsLive(m) && 0 < i < |m| - 1
    ensures Live(m[i + 1..]) != [] && t == Live(m[i + 1..])[0].time
  {
    var it := i + 1;
    t := m[it].time;
    assert m[i + 1..it] == [];
    while t == 0
      invariant i < it < |m| && t == m[it].time
      invariant Live(m[i + 1..it]) == []
      decreases |m| - it
    {
      LiveConcat(m[i + 1..it], m[it..it + 1]);
      assert m[i + 1..it + 1] == m[i + 1..it] + m[it..it + 1];
      it := it + 1;
      t := m[it].time;
    }
    LiveConcat(m[i + 1..it], m[it..]);
    assert m[i + 1..] == m[i + 1..it] + m[it..];
  }

  method TimeBefore(m: seq<Pair>, i: nat) returns (t: uint64)
    requires EndsLive(m) && 0 < i < |m| - 1
    ensures Live(m[..i]) != [] && t == Last(Live(m[..i])).time
  {
    var it := i - 1;
    t := m[it].time;
    assert m[it + 1..i] == [];
    while t == 0
      invariant 0 <= it < i && t == m[it].time
      invariant Live(m[it + 1..i]) == []
      decreases it
    {
      LiveConcat(m[it..it + 1], m[it + 1..i]);
      assert m[it..i] == m[it..it + 1] + m[it + 1..i];
      it := it - 1;
      t := m[it].time;
    }
    LiveAround(m[..i], it);
    assert m[..i][it + 1..] == m[it + 1..i];
  }

  /** `m` is `orig` with some samples marked. */
  ghost predicate MarkedFrom(m: seq<Pair>, orig: seq<Pair>) {
    && |m| == |orig|
    && forall i :: 0 <= i < |m| ==> m[i] == orig[i] || m[i] == orig[i].(time := 0)
  }

  /** Marking a candidate's sample keeps the queue in step with the list. */
  lemma MarkKeepsQueue(m: seq<Pair>, pq: set<Candidate>, top: Candidate)
    requires EndsLive(m) && Queued(m, pq) && top in pq
    ensures EndsLive(Mark(m, top.pos)) && Queued(Mark(m, top.pos), pq - {top})
  {
    var n, rest := Mark(m, top.pos), pq - {top};
    forall i | 0 < i < |n| - 1 && IsLive(n[i]) ensures HasCandidate(rest, i) {
      assert IsLive(m[i]) && HasCandidate(pq, i);
      var c :| c in pq && c.pos == i;
      assert c in rest;
    }
  }

  lemma MarkKeepsOptimism(m: seq<Pair>, pq: set<Candidate>, top: Candidate)
    requires EndsLive(m) && Queued(m, pq) && top in pq
    requires LiveTimesNeverRegress(m) && Optimistic(m, pq)
    ensures EndsLive(Mark(m, top.pos)) && Queued(Mark(m, top.pos), pq - {top})
    ensures LiveTimesNeverRegress(Mark(m, top.pos)) && Optimistic(Mark(m, top.pos), pq - {top})
  {
    MarkKeepsQueue(m, pq, top);
    forall c | c in pq - {top} ensures c.gap <= TrueGap(Mark(m, top.pos), c.pos) {
      GapOnlyGrows(m, top.pos, c.pos);
    }
  }

  lemma QueueAfterRefresh(m: seq<Pair>, pq: set<Candidate>, top: Candidate, updated: Candidate)
    requires Queued(m, pq) && top in pq && updated.pos == top.pos
    ensures Queued(m, pq - {top} + {updated})
  {
    var next := pq - {top} + {updated};
    forall i | 0 < i < |m| - 1 && IsLive(m[i]) ensures HasCandidate(next, i) {
      assert HasCandidate(pq, i);
      var c :| c in pq && c.pos == i;
      assert c in next || updated in next;
    }
  }

  /** A refreshed candidate leaves one stale candidate fewer. */
  lemma RefreshIsProgress(m: seq<Pair>, pq: set<Candidate>, top: Candidate, updated: Candidate)
    requires EndsLive(m) && Queued(m, pq) && top in pq && top.gap != TrueGap(m, top.pos)
    requires updated == Candidate(TrueGap(m, top.pos), top.pos)
    ensures Queued(m, pq - {top} + {updated})
    ensures |Stale(m, pq - {top} + {updated})| < |Stale(m, pq)|
  {
    var next := pq - {top} + {updated};
    QueueAfterRefresh(m, pq, top, updated);
    assert Stale(m, next) == Stale(m, pq) - {top};
  }

  /** `left` removals remain of the `count` asked for. */
  ghost predicate Thinning(orig: seq<Pair>, count: nat, m: seq<Pair>, pq: set<Candidate>, left: nat) {
    && |orig| >= count + 2 && left <= count && SeqnosIncrease(orig)
    && MarkedFrom(m, orig) && m[0] == orig[0] && Last(m) == Last(orig)
    && EndsLive(m) && Queued(m, pq)
    && |Live(m)| == |orig| - count + left
  }

  /** Removing `left` more samples greedily from what is live gives `goal`. */
  ghost predicate OnTrack(goal: seq<Pair>, ps: seq<Pair>, left: nat) {
    |ps| >= left + 2 && Greedy(ps, left) == goal
  }

  lemma GreedyStep(goal: seq<Pair>, ps: seq<Pair>, left: nat, next: nat, r: nat)
    requires left == next + 1 && OnTrack(goal, ps, left) && r == Victim(ps, |ps| - 2)
    ensures OnTrack(goal, Remove(ps, r), next)
  {
    GreedyUnfolds(ps, left, next, r, Remove(ps, r));
  }

  ghost predicate IsTop(m: seq<Pair>, pq: set<Candidate>, top: Candidate) {
    && top in pq && (forall d :: d in pq ==> d.pos < |m|)
    && forall d :: d in pq ==> Before(m, top, d)
  }

  lemma RemovalKeepsShape(orig: seq<Pair>, count: nat, m: seq<Pair>, pq: set<Candidate>, left: nat, next: nat,
                          top: Candidate)
    requires left == next + 1
    requires Thinning(orig, count, m, pq, left) && top in pq
    ensures Thinning(orig, count, Mark(m, top.pos), pq - {top}, next)
  {
    var r := Rank(m, top.pos);
    MarkKeepsQueue(m, pq, top);
  }

  lemma MarkedSeqnosIncrease(m: seq<Pair>, orig: seq<Pair>)
    requires MarkedFrom(m, orig) && SeqnosIncrease(orig)
    ensures SeqnosIncrease(m)
  {
  }

  lemma RemovalIsGreedy(goal: seq<Pair>, m: seq<Pair>, pq: set<Candidate>, left: nat, next: nat,
                          top: Candidate)
    requires left == next + 1
    requires EndsLive(m) && SeqnosIncrease(m) && Queued(m, pq) && Optimistic(m, pq)
    requires OnTrack(goal, Live(m), left)
    requires IsTop(m, pq, top) && top.gap == TrueGap(m, top.pos)
    ensures OnTrack(goal, Live(Mark(m, top.pos)), next)
  {
    var r := Rank(m, top.pos);
    FreshTopIsVictim(m, pq, top, r, Live(m));
    GreedyStep(goal, Live(m), left, next, r);
  }

  lemma RefreshKeepsOptimism(m: seq<Pair>, pq: set<Candidate>, top: Candidate, updated: Candidate)
    requires EndsLive(m) && Queued(m, pq) && top in pq && Optimistic(m, pq)
    requires updated == Candidate(TrueGap(m, top.pos), top.pos)
    ensures Queued(m, pq - {top} + {updated}) && Optimistic(m, pq - {top} + {updated})
  {
    QueueAfterRefresh(m, pq, top, updated);
  }

  /** The candidate on top of the queue and the gap its removal would really leave. */
  method Top(m: seq<Pair>, pq: set<Candidate>) returns (top: Candidate, gap: uint64)
    requires EndsLive(m) && Queued(m, pq) && |Live(m)| > 2
    ensures IsTop(m, pq, top) && gap == TrueGap(m, top.pos)
  {
    InteriorLeft(m, pq);
    TopExists(m, pq);
    top :| top in pq && forall d :: d in pq ==> Before(m, top, d);
    var after := TimeAfter(m, top.pos);
    var before := TimeBefore(m, top.pos);
    gap := Sub64(after, before);
  }

  /** Pops one candidate: marks its sample when the recorded gap is right, queues it again with the right gap otherwise. */
  method PopOne(ghost orig: seq<Pair>, ghost count: nat, ghost goal: seq<Pair>, m: seq<Pair>, pq: set<Candidate>, left: nat)
    returns (m': seq<Pair>, pq': set<Candidate>, left': nat)
    requires left > 0 && Thinning(orig, count, m, pq, left)
    requires TimesNeverRegress(orig) ==> LiveTimesNeverRegress(m) && Optimistic(m, pq) && OnTrack(goal, Live(m), left)
    ensures Thinning(orig, count, m', pq', left')
    ensures TimesNeverRegress(orig) ==> LiveTimesNeverRegress(m') && Optimistic(m', pq') && OnTrack(goal, Live(m'), left')
    ensures left' < left || (left' == left && |Stale(m', pq')| < |Stale(m, pq)|)
  {
    var top, gap := Top(m, pq);
    if top.gap == gap {
      m', pq', left' := Mark(m, top.pos), pq - {top}, left - 1;
      RemovalKeepsShape(orig, count, m, pq, left, left', top);
      if TimesNeverRegress(orig) {
        MarkedSeqnosIncrease(m, orig);
        RemovalIsGreedy(goal, m, pq, left, left', top);
        MarkKeepsOptimism(m, pq, top);
      }
    } else {
      var updated := Candidate(gap, top.pos);
      m', pq', left' := m, pq - {top} + {updated}, left;
      RefreshIsProgress(m, pq, top, updated);
      if TimesNeverRegress(orig) {
        RefreshKeepsOptimism(m, pq, top, updated);
      }
    }
  }

  /** The main loop. Its result does not depend on stale gaps as long as times do not regress. */
  method MarkRemovals(orig: seq<Pair>, count: nat) returns (m: seq<Pair>)
    requires |orig| >= count + 2 && |orig| >= 3
    requires SeqnosIncrease(orig) && TimesKnown(orig)
    ensures MarkedFrom(m, orig) && m[0] == orig[0] && Last(m) == Last(orig)
    ensures |Live(m)| == |orig| - count
    ensures Cheapest(orig, count, Live(m))
  {
    m := orig;
    var pq := Candidates(m);
    var left := count;
    LiveAll(m);
    ghost var goal := Greedy(orig, count);
    while left > 0
      invariant Thinning(orig, count, m, pq, left)
      invariant TimesNeverRegress(orig) ==> LiveTimesNeverRegress(m) && Optimistic(m, pq) && OnTrack(goal, Live(m), left)
      decreases left, |Stale(m, pq)|
    {
      m, pq, left := PopOne(orig, count, goal, m, pq, left);
    }
    if TimesNeverRegress(orig) {
      GreedyThins(orig, count, goal);
    }
  }

  /** Moves the live samples to the front, in order, and cuts off the rest. */
  method Collapse(m: seq<Pair>) returns (ps: seq<Pair>)
    ensures ps == Live(m)
  {
    ps := m;
    var from, to := 0, 0;
    while from < |m|
      invariant 0 <= to <= from <= |m| == |ps|
      invariant ps[..to] == Live(m[..from])
      invariant forall i :: from <= i < |m| ==> ps[i] == m[i]
    {
      LiveConcat(m[..from], m[from..from + 1]);
      assert m[..from + 1] == m[..from] + m[from..from + 1];
      if ps[from].time != 0 {
        if from != to {
          ps := ps[to := ps[from]];
        }
        to := to + 1;
      }
      from := from + 1;
    }
    assert m[..from] == m;
    ps := ps[..to];
  }
}
