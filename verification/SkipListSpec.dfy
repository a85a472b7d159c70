/**
 The shape of a skip list: the nodes in key order, the head first, with their heights. A node of height `h` has a link
 on levels `0` to `h - 1`, each to the next node that is taller than that level.
 */
module SkipListSpec {

  const NULL: int := -1

  /** A node and its links; `next[i]` is the number of a node or `NULL`. Node 0 is the head. */
  datatype Node = Node(key: int, next: seq<int>)

  /** The nodes in order, their heights and keys. Position 0 is the head, whose key means nothing. */
  datatype Shape = Shape(ps: seq<nat>, hts: seq<nat>, ks: seq<int>)

  /* ---------- neighbours on a level ---------- */

  /** The first position after `j` that is taller than `i`, or the end. */
  function NextIdx(hts: seq<nat>, j: nat, i: nat): (k: nat)
    requires j < |hts|
    ensures j < k <= |hts|
    decreases |hts| - j
  {
    if j + 1 == |hts| then |hts| else if hts[j + 1] > i then j + 1 else NextIdx(hts, j + 1, i)
  }

  /** Nothing between `j` and `k` is taller than `i`. */
  ghost predicate Low(hts: seq<nat>, j: int, k: int, i: nat) {
    forall m :: 0 <= j < m < k <= |hts| ==> hts[m] <= i
  }

  lemma {:induction false} NextIdxIs(hts: seq<nat>, j: nat, i: nat)
    requires j < |hts|
    ensures var k := NextIdx(hts, j, i); Low(hts, j, k, i) && (k < |hts| ==> hts[k] > i)
    decreases |hts| - j
  {
    if j + 1 < |hts| && hts[j + 1] <= i {
      NextIdxIs(hts, j + 1, i);
      var k := NextIdx(hts, j + 1, i);
      forall m | j < m < k ensures hts[m] <= i {
        assert m == j + 1 || j + 1 < m;
      }
    }
  }

  lemma NextUnique(hts: seq<nat>, j: nat, i: nat, k: nat)
    requires j < k <= |hts| && Low(hts, j, k, i) && (k < |hts| ==> hts[k] > i)
    ensures NextIdx(hts, j, i) == k
  {
    NextIdxIs(hts, j, i);
  }

  /** The last position up to `j` that is taller than `i`. */
  function LastIdx(hts: seq<nat>, j: nat, i: nat): (k: nat)
    requires j < |hts| && hts[0] > i
    ensures k <= j && hts[k] > i
  {
    if hts[j] > i then j else LastIdx(hts, j - 1, i)
  }

  lemma {:induction false} LastIdxIs(hts: seq<nat>, j: nat, i: nat)
    requires j < |hts| && hts[0] > i
    ensures Low(hts, LastIdx(hts, j, i), j + 1, i)
  {
    if hts[j] <= i {
      LastIdxIs(hts, j - 1, i);
      var k := LastIdx(hts, j - 1, i);
      forall m | k < m < j + 1 ensures hts[m] <= i {
        assert m == j || m < j;
      }
    }
  }

  /** A position is the last one that tall exactly when it is that tall and its successor is behind. */
  lemma LastIffNextBehind(hts: seq<nat>, at: nat, i: nat, j: nat)
    requires at < |hts| && hts[0] > i && j <= at && hts[j] > i
    ensures j == LastIdx(hts, at, i) <==> NextIdx(hts, j, i) > at
  {
    LastIdxIs(hts, at, i);
    NextIdxIs(hts, j, i);
  }

  /** Where the link of position `j` on level `i` leads. */
  function Target(ps: seq<nat>, hts: seq<nat>, j: nat, i: nat): int
    requires j < |hts| == |ps|
  {
    var k := NextIdx(hts, j, i);
    if k < |ps| then ps[k] else NULL
  }

  /* ---------- inserting a position ---------- */

  function InsertAt<T>(s: seq<T>, at: nat, x: T): seq<T>
    requires at <= |s|
  {
    s[..at] + [x] + s[at..]
  }

  /** Where a position is after one has been inserted at `at`. */
  function Moved(j: nat, at: nat): nat {
    if j < at then j else j + 1
  }

  lemma InsertAtIs<T>(s: seq<T>, at: nat, x: T, j: nat)
    requires at <= |s| && j < |s|
    ensures InsertAt(s, at, x)[Moved(j, at)] == s[j] && InsertAt(s, at, x)[at] == x && |InsertAt(s, at, x)| == |s| + 1
  {
  }

  /** A position that did not move comes from before the inserted one, one that did from behind. */
  lemma InsertAtFrom<T>(s: seq<T>, at: nat, x: T, m: nat)
    requires at <= |s| && m <= |s| && m != at
    ensures var j := if m < at then m else m - 1; j < |s| && Moved(j, at) == m && InsertAt(s, at, x)[m] == s[j]
  {
  }

  lemma InsertedLow(hts: seq<nat>, at: nat, h: nat, hts': seq<nat>, i: nat, j: nat, k: nat)
    requires at <= |hts| && hts' == InsertAt(hts, at, h) && j < k <= |hts| && Low(hts, j, k, i)
    requires h <= i || !(j < at <= k)
    ensures Low(hts', Moved(j, at), Moved(k, at), i)
  {
    forall m | Moved(j, at) < m < Moved(k, at) ensures hts'[m] <= i {
      if m != at {
        InsertAtFrom(hts, at, h, m);
      }
    }
  }

  /** The links that do not pass the new position lead to the same node as before. */
  lemma NextKept(hts: seq<nat>, at: nat, h: nat, hts': seq<nat>, i: nat, j: nat, k: nat)
    requires 0 < at <= |hts| && hts' == InsertAt(hts, at, h) && j < |hts| && k == NextIdx(hts, j, i)
    requires h <= i || !(j < at <= k)
    ensures Moved(j, at) < |hts'| && NextIdx(hts', Moved(j, at), i) == Moved(k, at)
  {
    NextIdxIs(hts, j, i);
    InsertedLow(hts, at, h, hts', i, j, k);
    if k < |hts| {
      InsertAtIs(hts, at, h, k);
    }
    NextUnique(hts', Moved(j, at), i, Moved(k, at));
  }

  /** A link on a level of the new node that would pass it leads to it. */
  lemma NextIsNew(hts: seq<nat>, at: nat, h: nat, hts': seq<nat>, i: nat, j: nat, k: nat)
    requires 0 < at <= |hts| && hts' == InsertAt(hts, at, h) && j < at <= k && k == NextIdx(hts, j, i) && i < h
    ensures NextIdx(hts', j, i) == at
  {
    NextIdxIs(hts, j, i);
    forall m | j < m < at ensures hts'[m] <= i {
      assert hts'[m] == hts[m];
    }
    NextUnique(hts', j, i, at);
  }

  /** The links of the new node lead where those of its predecessors led. */
  lemma NextOfNew(hts: seq<nat>, at: nat, h: nat, hts': seq<nat>, i: nat, j: nat, k: nat)
    requires 0 < at <= |hts| && hts' == InsertAt(hts, at, h) && j < at <= k && k == NextIdx(hts, j, i)
    ensures NextIdx(hts', at, i) == k + 1
  {
    NextIdxIs(hts, j, i);
    forall m | at < m < k + 1 ensures hts'[m] <= i {
      assert hts'[m] == hts[m - 1];
    }
    if k < |hts| {
      assert hts'[k + 1] == hts[k];
    }
    NextUnique(hts', at, i, k + 1);
  }
}
