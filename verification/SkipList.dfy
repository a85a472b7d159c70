/**
 The skip list: searches that go right and down, and an insertion that remembers where the last one took place.
 */
module SkipList {
  import opened Seal
  import opened SkipListSpec

  datatype List = List(nodes: seq<Node>, prev: seq<nat>, prevHeight: nat, maxHeight: nat, limit: nat)

  /* ---------- what a list represents ---------- */

  /** Position `j` is stored as it should be. */
  ghost predicate Stored(nodes: seq<Node>, sh: Shape, j: nat)
    requires |sh.ps| == |sh.hts| == |sh.ks| && j < |sh.ps|
  {
    && sh.ps[j] < |nodes| && |nodes[sh.ps[j]].next| == sh.hts[j] && nodes[sh.ps[j]].key == sh.ks[j]
    && (forall i :: 0 <= i < sh.hts[j] ==> nodes[sh.ps[j]].next[i] == Target(sh.ps, sh.hts, j, i))
  }

  ghost predicate Injective(ps: seq<nat>) {
    forall a, b :: 0 <= a < b < |ps| ==> ps[a] != ps[b]
  }

  ghost predicate Ordered(ks: seq<int>) {
    forall a, b :: 1 <= a < b < |ks| ==> ks[a] < ks[b]
  }

  ghost predicate Heights(hts: seq<nat>, maxHeight: nat, limit: nat) {
    && 1 <= maxHeight <= limit && |hts| > 0 && hts[0] == limit
    && (forall j :: 1 <= j < |hts| ==> 1 <= hts[j] <= maxHeight)
  }

  ghost predicate Structure(nodes: seq<Node>, sh: Shape) {
    && |sh.ps| == |sh.hts| == |sh.ks| == |nodes| && |nodes| > 0 && sh.ps[0] == 0
    && (forall j {:trigger Stored(nodes, sh, j)} :: 0 <= j < |sh.ps| ==> Stored(nodes, sh, j))
  }

  /** Every level is a sorted sublist of the level below; level 0 holds all keys. */
  ghost predicate IsList(l: List, sh: Shape) {
    && Structure(l.nodes, sh) && Injective(sh.ps) && Ordered(sh.ks) && Heights(sh.hts, l.maxHeight, l.limit)
    && |l.prev| == l.limit
  }

  /** The last position with a key below `key`. */
  ghost predicate Before(ks: seq<int>, key: int, j: nat) {
    && j < |ks|
    && (forall m :: 1 <= m <= j ==> ks[m] < key)
    && (forall m :: j < m < |ks| ==> key <= ks[m])
  }

  function Rank(ks: seq<int>, key: int, n: nat): (j: nat)
    requires n < |ks|
    ensures j <= n
  {
    if n == 0 then 0 else if ks[n] < key then n else Rank(ks, key, n - 1)
  }

  lemma {:induction false} RankIs(ks: seq<int>, key: int, n: nat)
    requires n < |ks| && Ordered(ks) && (forall m :: n < m < |ks| ==> key <= ks[m])
    ensures Before(ks, key, Rank(ks, key, n))
  {
    if n > 0 && key <= ks[n] {
      RankIs(ks, key, n - 1);
    }
  }

  lemma OrderedLe(ks: seq<int>, a: nat, b: nat)
    requires Ordered(ks) && 1 <= a <= b < |ks|
    ensures ks[a] <= ks[b] && (ks[a] == ks[b] ==> a == b)
  {
  }

  /** The node that a link leads to. */
  lemma LinkIs(nodes: seq<Node>, sh: Shape, j: nat, i: nat, k: nat)
    requires Structure(nodes, sh) && j < |sh.ps| && i < sh.hts[j] && k == NextIdx(sh.hts, j, i)
    ensures sh.ps[j] < |nodes| && i < |nodes[sh.ps[j]].next|
    ensures nodes[sh.ps[j]].next[i] == if k < |sh.ps| then sh.ps[k] else NULL
    ensures k < |sh.ps| ==> sh.ps[k] < |nodes| && nodes[sh.ps[k]].key == sh.ks[k] && sh.hts[k] > i
  {
    assert Stored(nodes, sh, j);
    NextIdxIs(sh.hts, j, i);
    if k < |sh.ps| {
      assert Stored(nodes, sh, k);
    }
  }

  /* ---------- searching ---------- */

  /** `x` is null or a node whose key is not below `key`. */
  ghost predicate NotBelow(sh: Shape, j: nat, x: int) {
    x == NULL || exists k :: j < k < |sh.ps| && x == sh.ps[k]
  }

  lemma NotBelowAt(sh: Shape, j: nat, x: int, k: nat)
    requires NotBelow(sh, j, x) && Injective(sh.ps) && k < |sh.ps| && x == sh.ps[k]
    ensures k > j
  {
    var m :| j < m < |sh.ps| && x == sh.ps[m];
    assert m == k;
  }

  /** Level `level` from position `jx`: the step right is taken exactly when the next position is not past `j`. */
  lemma StepRight(l: List, sh: Shape, key: int, j: nat, jx: nat, level: nat, next: int, last: int, k: nat)
    requires IsList(l, sh) && Before(sh.ks, key, j) && jx <= j && level < sh.hts[jx] && NotBelow(sh, j, last)
    requires k == NextIdx(sh.hts, jx, level) && next == (if k < |sh.ps| then sh.ps[k] else NULL)
    ensures (next != last && k < |sh.ps| && sh.ks[k] < key) <==> k <= j
    ensures k > j ==> NotBelow(sh, j, next)
  {
    if k < |sh.ps| && next == last {
      NotBelowAt(sh, j, last, k);
    }
  }

  /** Predecessors of the position behind `j` on the levels from `level` on. */
  ghost predicate PrevFrom(sh: Shape, prev: seq<nat>, j: nat, level: nat, maxHeight: nat) {
    && maxHeight <= |prev| && |sh.ps| == |sh.hts| && j < |sh.ps| && maxHeight <= sh.hts[0]
    && (forall i :: level <= i < maxHeight ==> prev[i] == sh.ps[LastIdx(sh.hts, j, i)])
  }

  /** `x` holds the least key not below `key`, or is null because there is none. */
  ghost predicate Successor(l: List, ks: seq<int>, key: int, x: int) {
    if x == NULL then forall m :: 1 <= m < |ks| ==> ks[m] < key
    else 0 <= x < |l.nodes| && key <= l.nodes[x].key && Holds(ks, l.nodes[x].key) &&
         forall m :: 1 <= m < |ks| && key <= ks[m] ==> l.nodes[x].key <= ks[m]
  }

  /** `x` holds the greatest key below `key`, or is the head because there is none. */
  ghost predicate Predecessor(l: List, ks: seq<int>, key: int, x: nat) {
    if x == 0 then forall m :: 1 <= m < |ks| ==> key <= ks[m]
    else x < |l.nodes| && l.nodes[x].key < key && Holds(ks, l.nodes[x].key) &&
         forall m :: 1 <= m < |ks| && ks[m] < key ==> ks[m] <= l.nodes[x].key
  }

  /** `x` holds the greatest key not above `target`, or is null because there is none. */
  ghost predicate Floor(l: List, ks: seq<int>, target: int, x: int) {
    if x == NULL then forall m :: 1 <= m < |ks| ==> target < ks[m]
    else 0 <= x < |l.nodes| && l.nodes[x].key <= target && Holds(ks, l.nodes[x].key) &&
         forall m :: 1 <= m < |ks| && ks[m] <= target ==> ks[m] <= l.nodes[x].key
  }

  /** `x` holds the greatest key, or is the head because there is none. */
  ghost predicate Maximum(l: List, ks: seq<int>, x: nat) {
    if x == 0 then |ks| == 1
    else x < |l.nodes| && Holds(ks, l.nodes[x].key) && forall m :: 1 <= m < |ks| ==> ks[m] <= l.nodes[x].key
  }

  ghost predicate Holds(ks: seq<int>, key: int) {
    exists m :: 1 <= m < |ks| && ks[m] == key
  }

  lemma SuccessorIs(l: List, sh: Shape, key: int, j: nat, x: int)
    requires IsList(l, sh) && Before(sh.ks, key, j) && x == if j + 1 < |sh.ps| then sh.ps[j + 1] else NULL
    ensures Successor(l, sh.ks, key, x)
  {
    var ks := sh.ks;
    if j + 1 < |sh.ps| {
      assert Stored(l.nodes, sh, j + 1);
      forall m | 1 <= m < |ks| && key <= ks[m] ensures ks[j + 1] <= ks[m] {
        OrderedLe(ks, j + 1, m);
      }
    }
  }

  lemma PredecessorIs(l: List, sh: Shape, key: int, j: nat, x: nat)
    requires IsList(l, sh) && Before(sh.ks, key, j) && x == sh.ps[j]
    ensures Predecessor(l, sh.ks, key, x)
  {
    var ks := sh.ks;
    if j > 0 {
      assert Stored(l.nodes, sh, j) && sh.ps[0] != sh.ps[j];
      forall m | 1 <= m < |ks| && ks[m] < key ensures ks[m] <= ks[j] {
        OrderedLe(ks, m, j);
      }
    }
  }

  lemma FloorIs(l: List, sh: Shape, target: int, j: nat, x: int)
    requires IsList(l, sh) && j < |sh.ks| && x == if j > 0 then sh.ps[j] else NULL
    requires (forall m :: 1 <= m <= j ==> sh.ks[m] <= target) && (forall m :: j < m < |sh.ks| ==> target < sh.ks[m])
    ensures Floor(l, sh.ks, target, x)
  {
    var ks := sh.ks;
    if j > 0 {
      assert Stored(l.nodes, sh, j);
      forall m | 1 <= m < |ks| && ks[m] <= target ensures ks[m] <= ks[j] {
        OrderedLe(ks, m, j);
      }
    }
  }

  lemma MaximumIs(l: List, sh: Shape, x: nat)
    requires IsList(l, sh) && x == sh.ps[|sh.ps| - 1]
    ensures Maximum(l, sh.ks, x)
  {
    var ks, j := sh.ks, |sh.ps| - 1;
    if j > 0 {
      assert Stored(l.nodes, sh, j) && sh.ps[0] != sh.ps[j];
      forall m | 1 <= m < |ks| ensures ks[m] <= ks[j] {
        OrderedLe(ks, m, j);
      }
    }
  }

  /** The last node with a key below `key`, and the predecessors on all levels. */
  method FindLessThan(l: List, key: int, ghost sh: Shape) returns (x: nat, prev: seq<nat>, ghost j: nat)
    requires IsList(l, sh)
    ensures Predecessor(l, sh.ks, key, x)
    ensures Before(sh.ks, key, j) && x == sh.ps[j] && |prev| == |l.prev| && PrevFrom(sh, prev, j, 0, l.maxHeight)
  {
    j := Rank(sh.ks, key, |sh.ks| - 1);
    RankIs(sh.ks, key, |sh.ks| - 1);
    PredecessorIs(l, sh, key, j, sh.ps[j]);
    x, prev := 0, l.prev;
    var level := l.maxHeight - 1;
    var last := NULL;
    ghost var jx: nat := 0;
    while true
      invariant 0 <= level < l.maxHeight && jx <= j && x == sh.ps[jx] && level < sh.hts[jx] && |prev| == |l.prev|
      invariant NotBelow(sh, j, last) && PrevFrom(sh, prev, j, level + 1, l.maxHeight)
      decreases level, |sh.ps| - jx
    {
      ghost var k := NextIdx(sh.hts, jx, level);
      LinkIs(l.nodes, sh, jx, level, k);
      var next := l.nodes[x].next[level];
      StepRight(l, sh, key, j, jx, level, next, last, k);
      if next != last && next != NULL && l.nodes[next].key < key {
        x, jx := next, k;
      } else {
        LastIffNextBehind(sh.hts, j, level, jx);
        prev := prev[level := x];
        if level == 0 {
          return;
        }
        last, level := next, level - 1;
      }
    }
  }

  /** The first node with a key not below `key`, or null. */
  method FindGreaterOrEqual(l: List, key: int, ghost sh: Shape) returns (x: int, ghost j: nat)
    requires IsList(l, sh)
    ensures Successor(l, sh.ks, key, x)
    ensures Before(sh.ks, key, j) && x == if j + 1 < |sh.ps| then sh.ps[j + 1] else NULL
  {
    j := Rank(sh.ks, key, |sh.ks| - 1);
    RankIs(sh.ks, key, |sh.ks| - 1);
    SuccessorIs(l, sh, key, j, if j + 1 < |sh.ps| then sh.ps[j + 1] else NULL);
    var at, level, bigger := 0, l.maxHeight - 1, NULL;
    ghost var jx: nat := 0;
    while true
      invariant 0 <= level < l.maxHeight && jx <= j && at == sh.ps[jx] && level < sh.hts[jx] && NotBelow(sh, j, bigger)
      decreases level, |sh.ps| - jx
    {
      ghost var k := NextIdx(sh.hts, jx, level);
      LinkIs(l.nodes, sh, jx, level, k);
      var next := l.nodes[at].next[level];
      StepRight(l, sh, key, j, jx, level, next, bigger, k);
      var cmp := if next == NULL || next == bigger then 1 else l.nodes[next].key - key;
      if cmp == 0 || (cmp > 0 && level == 0) {
        if cmp == 0 {
          FirstEqual(sh.ks, key, j, k);
        } else {
          BottomNext(sh.hts, jx, j, k, l.maxHeight, l.limit);
        }
        return next, j;
      } else if cmp < 0 {
        at, jx := next, k;
      } else {
        bigger, level := next, level - 1;
      }
    }
  }

  lemma FirstEqual(ks: seq<int>, key: int, j: nat, k: nat)
    requires Ordered(ks) && Before(ks, key, j) && 0 < k < |ks| && ks[k] == key
    ensures k == j + 1
  {
    OrderedLe(ks, j + 1, k);
  }

  /** On level 0 every position is its neighbour's neighbour. */
  lemma BottomNext(hts: seq<nat>, jx: nat, j: nat, k: nat, maxHeight: nat, limit: nat)
    requires Heights(hts, maxHeight, limit) && jx <= j < |hts| && k == NextIdx(hts, jx, 0) && k > j
    ensures jx == j && k == j + 1
  {
  }

  method FindLast(l: List, ghost sh: Shape) returns (x: nat)
    requires IsList(l, sh)
    ensures x == sh.ps[|sh.ps| - 1] && Maximum(l, sh.ks, x)
  {
    MaximumIs(l, sh, sh.ps[|sh.ps| - 1]);
    x := 0;
    var level := l.maxHeight - 1;
    ghost var jx: nat := 0;
    while true
      invariant 0 <= level < l.maxHeight && jx < |sh.ps| && x == sh.ps[jx] && level < sh.hts[jx]
      decreases level, |sh.ps| - jx
    {
      ghost var k := NextIdx(sh.hts, jx, level);
      LinkIs(l.nodes, sh, jx, level, k);
      var next := l.nodes[x].next[level];
      if next == NULL {
        if level == 0 {
          BottomNext(sh.hts, jx, |sh.hts| - 1, k, l.maxHeight, l.limit);
          return;
        }
        level := level - 1;
      } else {
        x, jx := next, k;
      }
    }
  }

  lemma MemberIff(ks: seq<int>, key: int, j: nat)
    requires Ordered(ks) && Before(ks, key, j)
    ensures key in ks[1..] <==> j + 1 < |ks| && ks[j + 1] == key
  {
    if j + 1 < |ks| {
      assert ks[1..][j] == ks[j + 1];
    }
    forall m | 0 <= m < |ks[1..]| && ks[1..][m] == key ensures m == j {
      FirstEqual(ks, key, j, m + 1);
    }
  }

  method Contains(l: List, key: int, ghost sh: Shape) returns (b: bool)
    requires IsList(l, sh)
    ensures b <==> key in sh.ks[1..]
  {
    var x, j := FindGreaterOrEqual(l, key, sh);
    if x != NULL {
      assert Stored(l.nodes, sh, j + 1);
    }
    b := x != NULL && l.nodes[x].key == key;
    MemberIff(sh.ks, key, j);
  }

  /* ---------- inserting ---------- */

  ghost function Grown(sh: Shape, j: nat, x: nat, key: int, h: nat): Shape
    requires j < |sh.ps| == |sh.hts| == |sh.ks|
  {
    Shape(InsertAt(sh.ps, j + 1, x), InsertAt(sh.hts, j + 1, h), InsertAt(sh.ks, j + 1, key))
  }

  /** The list with `x` linked in on levels below `n`. */
  ghost predicate Spliced(was: seq<Node>, nodes: seq<Node>, prev: seq<nat>, x: nat, key: int, h: nat, n: nat) {
    && |was| == x && |nodes| == x + 1 && n <= h <= |prev| && nodes[x].key == key && |nodes[x].next| == h
    && (forall p :: 0 <= p < x ==> nodes[p].key == was[p].key && |nodes[p].next| == |was[p].next|)
    && (forall p, i :: 0 <= p < x && 0 <= i < |was[p].next| ==>
          nodes[p].next[i] == if i < n && p == prev[i] then x else was[p].next[i])
    && (forall i :: 0 <= i < n ==> prev[i] < x && i < |was[prev[i]].next| && nodes[x].next[i] == was[prev[i]].next[i])
  }

  /** A link of an old node after the splice. */
  lemma OldLink(was: seq<Node>, nodes: seq<Node>, sh: Shape, prev: seq<nat>, j: nat, x: nat, key: int, h: nat, sh': Shape, a: nat, i: nat)
    requires Structure(was, sh) && Injective(sh.ps) && Spliced(was, nodes, prev, x, key, h, h)
    requires j < |sh.ps| && PrevFrom(sh, prev, j, 0, h) && sh' == Grown(sh, j, x, key, h)
    requires a < |sh.ps| && i < sh.hts[a]
    ensures sh.ps[a] < x && i < |nodes[sh.ps[a]].next|
    ensures nodes[sh.ps[a]].next[i] == Target(sh'.ps, sh'.hts, Moved(a, j + 1), i)
  {
    var at, k := j + 1, NextIdx(sh.hts, a, i);
    LinkIs(was, sh, a, i, k);
    if i < h && a <= j && k > j {
      LastIffNextBehind(sh.hts, j, i, a);
      NextIsNew(sh.hts, at, h, sh'.hts, i, a, k);
      assert sh'.ps[at] == x;
    } else {
      if i < h && a <= j {
        LastIffNextBehind(sh.hts, j, i, a);
        assert LastIdx(sh.hts, j, i) != a;
      }
      if i < h {
        assert sh.ps[a] != prev[i];
      }
      NextKept(sh.hts, at, h, sh'.hts, i, a, k);
      if k < |sh.ps| {
        InsertAtIs(sh.ps, at, x, k);
      }
    }
  }

  /** A link of the new node. */
  lemma NewLink(was: seq<Node>, nodes: seq<Node>, sh: Shape, prev: seq<nat>, j: nat, x: nat, key: int, h: nat, sh': Shape, i: nat)
    requires Structure(was, sh) && Spliced(was, nodes, prev, x, key, h, h)
    requires j < |sh.ps| && PrevFrom(sh, prev, j, 0, h) && sh' == Grown(sh, j, x, key, h) && i < h
    ensures nodes[x].next[i] == Target(sh'.ps, sh'.hts, j + 1, i)
  {
    var a := LastIdx(sh.hts, j, i);
    var k := NextIdx(sh.hts, a, i);
    LastIffNextBehind(sh.hts, j, i, a);
    LinkIs(was, sh, a, i, k);
    NextOfNew(sh.hts, j + 1, h, sh'.hts, i, a, k);
    if k < |sh.ps| {
      assert sh'.ps[k + 1] == sh.ps[k];
    }
  }

  lemma SplicedStructure(was: seq<Node>, nodes: seq<Node>, sh: Shape, prev: seq<nat>, j: nat, x: nat, key: int, h: nat, sh': Shape)
    requires Structure(was, sh) && Injective(sh.ps) && Spliced(was, nodes, prev, x, key, h, h)
    requires j < |sh.ps| && PrevFrom(sh, prev, j, 0, h) && sh' == Grown(sh, j, x, key, h)
    ensures Structure(nodes, sh')
  {
    forall m {:trigger Stored(nodes, sh', m)} | 0 <= m < |sh'.ps| ensures Stored(nodes, sh', m) {
      if m == j + 1 {
        forall i | 0 <= i < h ensures nodes[x].next[i] == Target(sh'.ps, sh'.hts, m, i) {
          NewLink(was, nodes, sh, prev, j, x, key, h, sh', i);
        }
      } else {
        var a := if m < j + 1 then m else m - 1;
        StoredOld(was, nodes, sh, prev, j, x, key, h, sh', a, m);
      }
    }
  }

  lemma StoredOld(was: seq<Node>, nodes: seq<Node>, sh: Shape, prev: seq<nat>, j: nat, x: nat, key: int, h: nat, sh': Shape, a: nat, m: nat)
    requires Structure(was, sh) && Injective(sh.ps) && Spliced(was, nodes, prev, x, key, h, h)
    requires j < |sh.ps| && PrevFrom(sh, prev, j, 0, h) && sh' == Grown(sh, j, x, key, h)
    requires a < |sh.ps| && m == Moved(a, j + 1)
    ensures m < |sh'.ps| && Stored(nodes, sh', m)
  {
    InsertAtIs(sh.ps, j + 1, x, a);
    InsertAtIs(sh.hts, j + 1, h, a);
    InsertAtIs(sh.ks, j + 1, key, a);
    assert Stored(was, sh, a);
    forall i | 0 <= i < sh.hts[a] ensures nodes[sh.ps[a]].next[i] == Target(sh'.ps, sh'.hts, m, i) {
      OldLink(was, nodes, sh, prev, j, x, key, h, sh', a, i);
    }
  }

  lemma GrownInjective(ps: seq<nat>, at: nat, x: nat)
    requires Injective(ps) && at <= |ps| && x !in ps
    ensures Injective(InsertAt(ps, at, x))
  {
    var ps' := InsertAt(ps, at, x);
    forall a, b | 0 <= a < b < |ps'| ensures ps'[a] != ps'[b] {
      assert a != at ==> ps'[a] == ps[if a < at then a else a - 1];
      assert b != at ==> ps'[b] == ps[if b < at then b else b - 1];
    }
  }

  lemma GrownOrdered(ks: seq<int>, key: int, j: nat)
    requires Ordered(ks) && Before(ks, key, j) && key !in ks[1..]
    ensures Ordered(InsertAt(ks, j + 1, key))
  {
    MemberIff(ks, key, j);
    var ks', at := InsertAt(ks, j + 1, key), j + 1;
    forall a, b | 1 <= a < b < |ks'| ensures ks'[a] < ks'[b] {
      assert a != at ==> ks'[a] == ks[if a < at then a else a - 1];
      assert b != at ==> ks'[b] == ks[if b < at then b else b - 1];
      assert b > at && j + 1 < b - 1 ==> ks[j + 1] < ks[b - 1];
    }
  }

  lemma GrownHeights(hts: seq<nat>, at: nat, h: nat, maxHeight: nat, maxHeight': nat, limit: nat)
    requires Heights(hts, maxHeight, limit) && 0 < at <= |hts| && 1 <= h <= limit
    requires maxHeight' == if h > maxHeight then h else maxHeight
    ensures Heights(InsertAt(hts, at, h), maxHeight', limit)
  {
  }

  /** All node numbers are in use below the number of nodes. */
  lemma FreshNumber(nodes: seq<Node>, sh: Shape)
    requires Structure(nodes, sh)
    ensures |nodes| !in sh.ps
  {
    forall j | 0 <= j < |sh.ps| ensures sh.ps[j] != |nodes| {
      assert Stored(nodes, sh, j);
    }
  }

  /** Links the new node in on level `i`. */
  method SpliceLevel(was: seq<Node>, nodes: seq<Node>, prev: seq<nat>, x: nat, key: int, h: nat, i: nat) returns (nodes': seq<Node>)
    requires Spliced(was, nodes, prev, x, key, h, i) && i < h && prev[i] < x && i < |was[prev[i]].next|
    ensures Spliced(was, nodes', prev, x, key, h, i + 1)
  {
    var p := prev[i];
    var next := nodes[p].next[i];
    ghost var mine, its := nodes[x].next[i := next], nodes[p].next[i := x];
    nodes' := nodes[x := nodes[x].(next := nodes[x].next[i := next])];
    nodes' := nodes'[p := nodes'[p].(next := nodes'[p].next[i := x])];
    assert nodes'[x].next == mine && nodes'[p].next == its;
    assert forall q :: 0 <= q < x && q != p ==> nodes'[q] == nodes[q];
  }

  /** Links the new node in, level by level. */
  method Splice(was: seq<Node>, prev: seq<nat>, key: int, h: nat, ghost sh: Shape, ghost j: nat) returns (nodes: seq<Node>)
    requires Structure(was, sh) && j < |sh.ps| && PrevFrom(sh, prev, j, 0, h) && h <= |prev|
    ensures Spliced(was, nodes, prev, |was|, key, h, h)
  {
    var x := |was|;
    nodes := was + [Node(key, seq(h, _ => NULL))];
    var i := 0;
    while i < h
      invariant i <= h && Spliced(was, nodes, prev, x, key, h, i)
    {
      assert Stored(was, sh, LastIdx(sh.hts, j, i));
      nodes := SpliceLevel(was, nodes, prev, x, key, h, i);
      i := i + 1;
    }
  }

  /** Above the tallest node the predecessor is the head. */
  lemma PrevAbove(sh: Shape, prev: seq<nat>, j: nat, maxHeight: nat, limit: nat, h: nat, prev': seq<nat>)
    requires PrevFrom(sh, prev, j, 0, maxHeight) && Heights(sh.hts, maxHeight, limit) && h <= limit <= |prev'| && |sh.ps| > 0 && sh.ps[0] == 0
    requires forall i :: 0 <= i < h && i < |prev'| ==> prev'[i] == if i < maxHeight then prev[i] else 0
    ensures PrevFrom(sh, prev', j, 0, h)
  {
    forall i | 0 <= i < h ensures prev'[i] == sh.ps[LastIdx(sh.hts, j, i)] {
      if i >= maxHeight {
        LastIsHead(sh.hts, j, i, maxHeight, limit);
      }
    }
  }

  lemma {:induction false} LastIsHead(hts: seq<nat>, j: nat, i: nat, maxHeight: nat, limit: nat)
    requires Heights(hts, maxHeight, limit) && j < |hts| && maxHeight <= i < limit
    ensures LastIdx(hts, j, i) == 0
  {
    if j > 0 {
      LastIsHead(hts, j - 1, i, maxHeight, limit);
    }
  }

  /** Where the last insertion took place: the node itself on its own levels, its predecessors above. */
  ghost predicate Remembers(l: List, sh: Shape, jx: nat) {
    && |sh.ps| == |sh.hts| && jx < |sh.ps| && 1 <= l.maxHeight <= |l.prev| && l.maxHeight <= sh.hts[0]
    && l.prev[0] == sh.ps[jx] && (jx > 0 ==> sh.hts[jx] == l.prevHeight) && (jx == 0 ==> |sh.ps| == 1 && l.prevHeight == 1 && l.maxHeight == 1)
    && (forall i :: l.prevHeight <= i < l.maxHeight ==> l.prev[i] == sh.ps[LastIdx(sh.hts, jx, i)])
  }

  /** The predecessors of a key that belongs right behind the last one inserted, without a search. */
  method FastPrev(l: List, ghost sh: Shape, ghost jx: nat) returns (prev: seq<nat>)
    requires IsList(l, sh) && Remembers(l, sh, jx) && l.prevHeight <= l.maxHeight
    ensures |prev| == |l.prev| && PrevFrom(sh, prev, jx, 0, l.maxHeight)
  {
    prev := l.prev;
    var i := 1;
    while i < l.prevHeight
      invariant 1 <= i && |prev| == |l.prev| && prev[0] == l.prev[0]
      invariant forall m :: 1 <= m < i && m < l.prevHeight ==> prev[m] == l.prev[0]
      invariant forall m :: l.prevHeight <= m < |prev| ==> prev[m] == l.prev[m]
    {
      prev := prev[i := prev[0]];
      i := i + 1;
    }
  }

  /** The fast path is taken exactly when the key belongs behind the node inserted last. */
  lemma FastIff(l: List, sh: Shape, key: int, jx: nat, j: nat)
    requires IsList(l, sh) && Remembers(l, sh, jx) && Before(sh.ks, key, j)
    ensures (jx + 1 == |sh.ks| || key <= sh.ks[jx + 1]) && (jx == 0 || sh.ks[jx] < key) <==> j == jx
  {
  }

  lemma RemembersNew(l: List, sh: Shape, l': List, sh': Shape, prev: seq<nat>, j: nat, x: nat, key: int, h: nat)
    requires IsList(l, sh) && j < |sh.ps| && PrevFrom(sh, prev, j, 0, l.maxHeight) && 1 <= h <= l.limit
    requires sh' == Grown(sh, j, x, key, h) && l'.maxHeight == (if h > l.maxHeight then h else l.maxHeight) && l'.prevHeight == h
    requires l'.limit == l.limit && |l'.prev| == l.limit && l'.prev[0] == x && forall i :: h <= i < l.maxHeight ==> l'.prev[i] == prev[i]
    ensures Remembers(l', sh', j + 1)
  {
    assert sh'.hts[0] == sh.hts[0] && sh'.hts[j + 1] == h && sh'.ps[j + 1] == x;
    forall i | h <= i < l'.maxHeight ensures l'.prev[i] == sh'.ps[LastIdx(sh'.hts, j + 1, i)] {
      assert LastIdx(sh'.hts, j + 1, i) == LastIdx(sh'.hts, j, i);
      LastBelow(sh.hts, sh'.hts, j, i);
      assert sh'.ps[LastIdx(sh.hts, j, i)] == sh.ps[LastIdx(sh.hts, j, i)];
    }
  }

  lemma {:induction false} LastBelow(hts: seq<nat>, hts': seq<nat>, j: nat, i: nat)
    requires j < |hts| && j < |hts'| && hts[0] > i && forall m :: 0 <= m <= j ==> hts'[m] == hts[m]
    ensures LastIdx(hts', j, i) == LastIdx(hts, j, i)
  {
    if hts[j] <= i {
      LastBelow(hts, hts', j - 1, i);
    }
  }

  lemma InsertedIsList(l: List, sh: Shape, l': List, sh': Shape, j: nat, key: int, h: nat)
    requires IsList(l, sh) && Before(sh.ks, key, j) && key !in sh.ks[1..] && 1 <= h <= l.limit
    requires sh' == Grown(sh, j, |l.nodes|, key, h) && Structure(l'.nodes, sh')
    requires l'.maxHeight == (if h > l.maxHeight then h else l.maxHeight) && l'.limit == l.limit && |l'.prev| == l.limit
    ensures IsList(l', sh')
  {
    FreshNumber(l.nodes, sh);
    GrownInjective(sh.ps, j + 1, |l.nodes|);
    GrownOrdered(sh.ks, key, j);
    GrownHeights(sh.hts, j + 1, h, l.maxHeight, l'.maxHeight, l.limit);
  }

  /** Adds exactly the new key to level 0, in order, and links the node in on the levels below its height. */
  method Insert(l: List, key: int, height: nat, ghost sh: Shape, ghost jx: nat) returns (l': List, ghost sh': Shape, ghost jx': nat)
    requires IsList(l, sh) && Remembers(l, sh, jx) && l.prevHeight <= l.maxHeight && key !in sh.ks[1..] && 1 <= height <= l.limit
    ensures IsList(l', sh') && Remembers(l', sh', jx') && l'.prevHeight <= l'.maxHeight && l'.limit == l.limit
    ensures 0 < jx' <= |sh.ks| && Before(sh.ks, key, jx' - 1) && sh' == Grown(sh, jx' - 1, |l.nodes|, key, height)
  {
    ghost var j := Rank(sh.ks, key, |sh.ks| - 1);
    RankIs(sh.ks, key, |sh.ks| - 1);
    LinkIs(l.nodes, sh, jx, 0, NextIdx(sh.hts, jx, 0));
    FastIff(l, sh, key, jx, j);
    assert Stored(l.nodes, sh, jx);
    var next := l.nodes[l.prev[0]].next[0];
    var prev;
    if !(next != NULL && l.nodes[next].key < key) && (l.prev[0] == 0 || l.nodes[l.prev[0]].key < key) {
      prev := FastPrev(l, sh, jx);
    } else {
      var x, found, j1 := FindLessThan(l, key, sh);
      prev, j := found, j1;
    }
    l', sh', jx' := InsertBehind(l, key, height, prev, sh, j);
  }

  /** The insertion proper, once the predecessors are known. */
  method InsertBehind(l: List, key: int, height: nat, prev: seq<nat>, ghost sh: Shape, ghost j: nat)
    returns (l': List, ghost sh': Shape, ghost jx': nat)
    requires IsList(l, sh) && Before(sh.ks, key, j) && key !in sh.ks[1..] && 1 <= height <= l.limit
    requires |prev| == |l.prev| && PrevFrom(sh, prev, j, 0, l.maxHeight)
    ensures IsList(l', sh') && Remembers(l', sh', jx') && l'.prevHeight <= l'.maxHeight && l'.limit == l.limit
    ensures jx' == j + 1 && sh' == Grown(sh, j, |l.nodes|, key, height)
  {
    var maxHeight, links := l.maxHeight, prev;
    if height > l.maxHeight {
      for i := l.maxHeight to height
        invariant |links| == |prev|
        invariant forall m :: 0 <= m < |prev| ==> links[m] == if l.maxHeight <= m < i then 0 else prev[m]
      {
        links := links[i := 0];
      }
      maxHeight := height;
    }
    PrevAbove(sh, prev, j, l.maxHeight, l.limit, height, links);
    var x := |l.nodes|;
    var nodes := Splice(l.nodes, links, key, height, sh, j);
    l' := List(nodes, links[0 := x], height, maxHeight, l.limit);
    sh', jx' := Grown(sh, j, x, key, height), j + 1;
    SplicedStructure(l.nodes, nodes, sh, links, j, x, key, height, sh');
    InsertedIsList(l, sh, l', sh', j, key, height);
    RemembersNew(l, sh, l', sh', prev, j, x, key, height);
  }

  /* ---------- counting the entries of a range ---------- */

  /** The positions behind `a` up to `b` that are taller than `level`. */
  function Tall(hts: seq<nat>, a: nat, b: nat, level: nat): (n: nat)
    requires b < |hts|
    ensures a <= b ==> n <= b - a
    ensures b <= a ==> n == 0
  {
    if b <= a then 0 else Tall(hts, a, b - 1, level) + if hts[b] > level then 1 else 0
  }

  lemma {:induction false} TallSkips(hts: seq<nat>, a: nat, b: nat, c: nat, level: nat)
    requires a <= b <= c < |hts| && Low(hts, b, c + 1, level)
    ensures Tall(hts, a, c, level) == Tall(hts, a, b, level)
  {
    if b < c {
      TallSkips(hts, a, b, c - 1, level);
    }
  }

  lemma {:induction false} TallBottom(hts: seq<nat>, a: nat, b: nat, maxHeight: nat, limit: nat)
    requires Heights(hts, maxHeight, limit) && a <= b < |hts|
    ensures Tall(hts, a, b, 0) == b - a
  {
    if a < b {
      TallBottom(hts, a, b - 1, maxHeight, limit);
    }
  }

  /** The keys at positions `1` to `n` that are in the range. */
  function InRange(ks: seq<int>, start: int, end: int, n: nat): nat
    requires n < |ks|
  {
    if n == 0 then 0 else InRange(ks, start, end, n - 1) + if start <= ks[n] < end then 1 else 0
  }

  lemma {:induction false} InRangeIs(ks: seq<int>, start: int, end: int, n: nat, js: nat, je: nat)
    requires n < |ks| && Before(ks, start, js) && Before(ks, end, je)
    ensures InRange(ks, start, end, n) == (if n < je then n else je) - (if n < je && n < js then n else if je <= js then je else js)
  {
    if n > 0 {
      InRangeIs(ks, start, end, n - 1, js, je);
    }
  }

  /** The upper bound of the walk: the end, or a node at or behind both ends of the range. */
  ghost predicate Upper(sh: Shape, js: nat, je: nat, level: nat, ub: int, ku: nat) {
    && |sh.ps| == |sh.hts| && js < ku <= |sh.ps| && je < ku && ub == (if ku < |sh.ps| then sh.ps[ku] else NULL)
    && (ku < |sh.ps| ==> sh.hts[ku] > level)
  }

  /** A link does not jump over a node that tall. */
  lemma NextNotPast(hts: seq<nat>, j: nat, level: nat, k: nat, ku: nat)
    requires j < |hts| && k == NextIdx(hts, j, level) && j < ku <= |hts| && (ku < |hts| ==> hts[ku] > level)
    ensures k <= ku
  {
    NextIdxIs(hts, j, level);
  }

  /** Right along level `level` to the last node before the range. */
  method SkipBefore(l: List, start: int, level: nat, lb: nat, ub: int, ghost sh: Shape, ghost jl: nat, ghost js: nat, ghost je: nat, ghost ku: nat)
    returns (lb': nat, next: int, ghost jl': nat, ghost kn: nat)
    requires IsList(l, sh) && Before(sh.ks, start, js) && jl <= js && lb == sh.ps[jl] && level < sh.hts[jl] && Upper(sh, js, je, level, ub, ku)
    ensures jl' <= js < kn <= ku && lb' == sh.ps[jl'] && level < sh.hts[jl'] && kn == NextIdx(sh.hts, jl', level)
    ensures next == if kn < |sh.ps| then sh.ps[kn] else NULL
  {
    lb', jl' := lb, jl;
    while true
      invariant jl' <= js && lb' == sh.ps[jl'] && level < sh.hts[jl']
      decreases |sh.ps| - jl'
    {
      kn := NextIdx(sh.hts, jl', level);
      LinkIs(l.nodes, sh, jl', level, kn);
      NextNotPast(sh.hts, jl', level, kn, ku);
      next := l.nodes[lb'].next[level];
      if next == ub {
        if kn < |sh.ps| {
          assert kn == ku;
        }
        return;
      }
      if l.nodes[next].key >= start {
        return;
      }
      lb', jl' := next, kn;
    }
  }

  /** Right along level `level` through the range. */
  method CountLevel(l: List, end: int, level: nat, first: int, ub: int, ghost sh: Shape, ghost js: nat, ghost je: nat, ghost ku: nat, ghost jl: nat, ghost kf: nat)
    returns (count: nat, ub': int, ghost ku': nat)
    requires IsList(l, sh) && Before(sh.ks, end, je) && Upper(sh, js, je, level, ub, ku)
    requires jl <= js < kf <= ku && level < sh.hts[jl] && kf == NextIdx(sh.hts, jl, level) && first == (if kf < |sh.ps| then sh.ps[kf] else NULL)
    ensures Upper(sh, js, je, level, ub', ku') && count == Tall(sh.hts, js, je, level)
  {
    count, ub', ku' := 0, ub, ku;
    var next := first;
    ghost var kn, kp := kf, js;
    NextIdxIs(sh.hts, jl, level);
    while true
      invariant js <= kp < kn <= ku && kn <= |sh.ps| && next == (if kn < |sh.ps| then sh.ps[kn] else NULL) && (kn < |sh.ps| ==> sh.hts[kn] > level)
      invariant count == Tall(sh.hts, js, kp, level) && Low(sh.hts, kp, kn, level) && (kp == js || kp <= je)
      decreases |sh.ps| - kn
    {
      if kn < |sh.ps| {
        assert Stored(l.nodes, sh, kn);
      }
      if next == ub {
        if kn < |sh.ps| {
          assert kn == ku;
        }
        break;
      }
      if l.nodes[next].key >= end {
        ub', ku' := next, kn;
        break;
      }
      TallSkips(sh.hts, js, kp, kn - 1, level);
      count := count + 1;
      kp := kn;
      kn := NextIdx(sh.hts, kp, level);
      LinkIs(l.nodes, sh, kp, level, kn);
      NextIdxIs(sh.hts, kp, level);
      NextNotPast(sh.hts, kp, level, kn, ku);
      next := l.nodes[next].next[level];
    }
    if js <= je {
      TallSkips(sh.hts, js, kp, je, level);
    }
  }

  lemma RangeIs(ks: seq<int>, start: int, end: int, n: nat, js: nat, je: nat)
    requires n + 1 == |ks| && Before(ks, start, js) && Before(ks, end, je)
    ensures InRange(ks, start, end, n) == if js <= je then je - js else 0
  {
    InRangeIs(ks, start, end, n, js, je);
  }

  lemma LevelCount(hts: seq<nat>, js: nat, je: nat, level: nat, maxHeight: nat, limit: nat, exact: nat, count: nat)
    requires Heights(hts, maxHeight, limit) && je < |hts| && exact == (if js <= je then je - js else 0) && count == Tall(hts, js, je, level)
    ensures count <= exact && (level == 0 ==> count == exact)
  {
    if js <= je {
      TallBottom(hts, js, je, maxHeight, limit);
    }
  }

  /** How many samples make a level good enough to extrapolate from. */
  function Enough(level: nat, branching: nat): (n: nat)
    ensures n >= 10
  {
    level * branching + 10
  }

  ghost function Pow(b: nat, n: nat): nat {
    if n == 0 then 1 else b * Pow(b, n - 1)
  }

  /** How many of the first `n` keys are in the range and on the level. */
  ghost function OnLevel(ks: seq<int>, hts: seq<nat>, start: int, end: int, level: nat, n: nat): nat
    requires n < |ks| == |hts|
  {
    if n == 0 then 0 else OnLevel(ks, hts, start, end, level, n - 1) + if start <= ks[n] < end && hts[n] > level then 1 else 0
  }

  lemma {:induction false} OnLevelIs(ks: seq<int>, hts: seq<nat>, start: int, end: int, level: nat, n: nat, js: nat, je: nat)
    requires n < |ks| == |hts| && Before(ks, start, js) && Before(ks, end, je)
    ensures OnLevel(ks, hts, start, end, level, n) == Tall(hts, js, if n < je then n else je, level)
  {
    if n > 0 {
      OnLevelIs(ks, hts, start, end, level, n - 1, js, je);
      assert start <= ks[n] < end <==> js < n <= je;
    }
  }

  /** The count of level `from`, times the branching factor for each level below it; this is the highest level that has enough
      samples for that, or the bottom one. */
  ghost predicate Extrapolated(sh: Shape, start: int, end: int, branching: nat, top: nat, from: nat, count: nat)
    requires |sh.ks| == |sh.hts| > 0
  {
    var n := |sh.ks| - 1;
    && from < top && count == OnLevel(sh.ks, sh.hts, start, end, from, n) * Pow(branching, from)
    && (from > 0 ==> OnLevel(sh.ks, sh.hts, start, end, from, n) >= (from - 1) * branching + 10)
    && forall h: nat :: from < h < top ==> OnLevel(sh.ks, sh.hts, start, end, h, n) < (h - 1) * branching + 10
  }

  /** The same on the way down, at level `level`. */
  ghost predicate Estimating(hts: seq<nat>, js: nat, je: nat, branching: nat, top: nat, level: nat, from: nat, count: nat) {
    && je < |hts| && level <= from < top && count == Tall(hts, js, je, from) * Pow(branching, from - level)
    && (from > level ==> Tall(hts, js, je, from) >= Enough(from - 1, branching))
    && forall h: nat :: from < h < top ==> Tall(hts, js, je, h) < Enough(h - 1, branching)
  }

  ghost predicate OnTheWay(hts: seq<nat>, js: nat, je: nat, branching: nat, top: nat, level: nat, from: nat, count: nat) {
    forall n: nat {:trigger Open(n)} :: Open(n) && branching > 0 && level < top ==> Estimating(hts, js, je, branching, top, level, from, count)
  }

  lemma LevelSkipped(hts: seq<nat>, js: nat, je: nat, branching: nat, top: nat, level: nat, next: nat, from: nat, count: nat)
    requires OnTheWay(hts, js, je, branching, top, level, from, count) && level == next + 1 < top && count >= Enough(next, branching)
    ensures OnTheWay(hts, js, je, branching, top, next, from, count * branching)
  {
    assert Open(0);
    if branching > 0 {
      SkipsLevel(hts, js, je, branching, top, level, next, from, count);
    }
  }

  lemma LevelCounted(hts: seq<nat>, js: nat, je: nat, branching: nat, top: nat, level: nat, next: nat, from: nat, count: nat, counted: nat)
    requires OnTheWay(hts, js, je, branching, top, level, from, count) && level == next + 1 <= top && count < Enough(next, branching)
    requires je < |hts| && counted == Tall(hts, js, je, next)
    ensures OnTheWay(hts, js, je, branching, top, next, next, counted)
  {
    assert Open(0);
    if branching > 0 && level < top {
      CountsLevel(hts, js, je, branching, top, level, next, from, count, counted);
    }
  }

  lemma {:induction false} PowPositive(b: nat, n: nat, x: nat)
    requires b > 0
    ensures Pow(b, n) >= 1 && x * Pow(b, n) >= x
  {
    if n > 0 {
      PowPositive(b, n - 1, x);
    }
  }

  lemma EnoughGrows(a: nat, b: nat, branching: nat)
    requires a <= b
    ensures Enough(a, branching) <= Enough(b, branching)
  {
    assert b * branching == a * branching + (b - a) * branching;
  }

  /** Enough samples: the level is skipped. */
  lemma SkipsLevel(hts: seq<nat>, js: nat, je: nat, branching: nat, top: nat, level: nat, next: nat, from: nat, count: nat)
    requires Estimating(hts, js, je, branching, top, level, from, count) && level == next + 1 && count >= Enough(next, branching)
    ensures Estimating(hts, js, je, branching, top, next, from, count * branching)
  {
    var t, p := Tall(hts, js, je, from), Pow(branching, from - level);
    assert Pow(branching, from - next) == branching * p;
    assert (t * p) * branching == t * (branching * p);
  }

  /** Too few: the level is counted. */
  lemma CountsLevel(hts: seq<nat>, js: nat, je: nat, branching: nat, top: nat, level: nat, next: nat, from: nat, count: nat, counted: nat)
    requires Estimating(hts, js, je, branching, top, level, from, count) && level == next + 1 && count < Enough(next, branching) && branching > 0
    requires counted == Tall(hts, js, je, next)
    ensures Estimating(hts, js, je, branching, top, next, next, counted)
  {
    if from > level {
      PowPositive(branching, from - level, Tall(hts, js, je, from));
      EnoughGrows(next, from - 1, branching);
      assert false;
    }
  }

  lemma EstimatedIs(sh: Shape, start: int, end: int, js: nat, je: nat, branching: nat, top: nat, from: nat, count: nat)
    requires |sh.ks| == |sh.hts| > 0 && Before(sh.ks, start, js) && Before(sh.ks, end, je)
    requires OnTheWay(sh.hts, js, je, branching, top, 0, from, count) && branching > 0 && top > 0
    ensures Extrapolated(sh, start, end, branching, top, from, count)
  {
    assert Open(0);
    var n := |sh.ks| - 1;
    forall h: nat ensures OnLevel(sh.ks, sh.hts, start, end, h, n) == Tall(sh.hts, js, je, h) {
      OnLevelIs(sh.ks, sh.hts, start, end, h, n, js, je);
    }
  }

  /** An estimate of the number of keys from `start` up to but excluding `end`, exact when there are fewer than ten: that of the
      highest level with enough samples, extrapolated. */
  method ApproximateNumEntries(l: List, start: int, end: int, branching: nat, ghost sh: Shape) returns (count: nat, ghost from: nat)
    requires IsList(l, sh)
    ensures InRange(sh.ks, start, end, |sh.ks| - 1) < 10 ==> count == InRange(sh.ks, start, end, |sh.ks| - 1)
    ensures branching > 0 ==> Extrapolated(sh, start, end, branching, l.maxHeight, from, count)
  {
    ghost var n := |sh.ks| - 1;
    ghost var js, je := Rank(sh.ks, start, n), Rank(sh.ks, end, n);
    RankIs(sh.ks, start, n);
    RankIs(sh.ks, end, n);
    ghost var exact := InRange(sh.ks, start, end, n);
    RangeIs(sh.ks, start, end, n, js, je);
    var lb, ub := 0, NULL;
    ghost var jl: nat, ku: nat := 0, |sh.ps|;
    count, from := 0, 0;
    var level: nat := l.maxHeight;
    while level > 0
      invariant level <= l.maxHeight && jl <= js && lb == sh.ps[jl] && level <= sh.hts[jl]
      invariant Upper(sh, js, je, if level > 0 then level - 1 else 0, ub, ku)
      invariant exact < 10 ==> count < 10 && (level == 0 ==> count == exact)
      invariant level == l.maxHeight ==> count == 0
      invariant OnTheWay(sh.hts, js, je, branching, l.maxHeight, level, from, count)
    {
      ghost var above := level;
      level := level - 1;
      if count >= Enough(level, branching) {
        LevelSkipped(sh.hts, js, je, branching, l.maxHeight, above, level, from, count);
        count := count * branching;
      } else {
        var next;
        ghost var kn, was := 0, count;
        lb, next, jl, kn := SkipBefore(l, start, level, lb, ub, sh, jl, js, je, ku);
        count, ub, ku := CountLevel(l, end, level, next, ub, sh, js, je, ku, jl, kn);
        LevelCount(sh.hts, js, je, level, l.maxHeight, l.limit, exact, count);
        LevelCounted(sh.hts, js, je, branching, l.maxHeight, above, level, from, was, count);
        from := level;
      }
    }
    if branching > 0 {
      EstimatedIs(sh, start, end, js, je, branching, l.maxHeight, from, count);
    }
  }

  /* ---------- moving ---------- */

  /** The node before the given one, or null. */
  method Prev(l: List, x: nat, ghost sh: Shape, ghost j: nat) returns (y: int)
    requires IsList(l, sh) && 0 < j < |sh.ps| && x == sh.ps[j]
    ensures y == if j > 1 then sh.ps[j - 1] else NULL
  {
    assert Stored(l.nodes, sh, j);
    var p, prev, k := FindLessThan(l, l.nodes[x].key, sh);
    BeforeOwn(sh.ks, j, k);
    if k > 0 {
      assert sh.ps[0] != sh.ps[k];
    }
    y := if p == 0 then NULL else p;
  }

  lemma BeforeOwn(ks: seq<int>, j: nat, k: nat)
    requires Ordered(ks) && 0 < j < |ks| && Before(ks, ks[j], k)
    ensures k == j - 1
  {
    assert k < j;
    if k < j - 1 {
      OrderedLe(ks, j - 1, j);
    }
  }

  /** The last node with a key not above `target`, or null. */
  method SeekForPrev(l: List, target: int, ghost sh: Shape) returns (x: int, ghost j: nat)
    requires IsList(l, sh)
    ensures j < |sh.ks| && (forall m :: 1 <= m <= j ==> sh.ks[m] <= target) && (forall m :: j < m < |sh.ks| ==> target < sh.ks[m])
    ensures x == (if j > 0 then sh.ps[j] else NULL) && Floor(l, sh.ks, target, x)
  {
    ghost var i;
    x, i := FindGreaterOrEqual(l, target, sh);
    j := i + 1;
    if x == NULL {
      x := FindLast(l, sh);
      j := |sh.ps| - 1;
      if j > 0 {
        assert sh.ps[0] != sh.ps[j];
      }
      x := if x == 0 then NULL else x;
    }
    if j > 0 {
      assert Stored(l.nodes, sh, j);
    }
    while x != NULL && target < l.nodes[x].key
      invariant i <= j <= i + 1 && j < |sh.ps| && x == (if j > 0 then sh.ps[j] else NULL) && (x != NULL ==> 0 <= x < |l.nodes|)
      invariant j == i ==> i + 1 == |sh.ks| || target < sh.ks[i + 1]
      decreases j
    {
      assert Stored(l.nodes, sh, j);
      x := Prev(l, x, sh, j);
      j := j - 1;
      if x != NULL {
        assert Stored(l.nodes, sh, j);
      }
    }
    if x != NULL {
      assert Stored(l.nodes, sh, j);
    }
    NotAbove(sh.ks, target, i, j);
    FloorIs(l, sh, target, j, x);
  }

  lemma NotAbove(ks: seq<int>, target: int, i: nat, j: nat)
    requires Ordered(ks) && Before(ks, target, i) && i <= j <= i + 1 && j < |ks| && (j > 0 ==> ks[j] <= target)
    requires j == i ==> i + 1 == |ks| || target < ks[i + 1]
    ensures (forall m :: 1 <= m <= j ==> ks[m] <= target) && (forall m :: j < m < |ks| ==> target < ks[m])
  {
    forall m | j < m < |ks| ensures target < ks[m] {
      OrderedLe(ks, i + 1, m);
    }
  }

  /* ---------- levels ---------- */

  /** The keys of the nodes taller than `level`, in order, from position `m` on. */
  ghost function Taller(ks: seq<int>, hts: seq<nat>, level: nat, m: nat): seq<int>
    requires m <= |ks| == |hts|
    decreases |ks| - m
  {
    if m == |ks| then [] else (if hts[m] > level then [ks[m]] else []) + Taller(ks, hts, level, m + 1)
  }

  /** `a` is `b` with some elements left out. */
  ghost predicate Sublist(a: seq<int>, b: seq<int>)
    decreases |b|
  {
    a == [] || (b != [] && (Sublist(a, b[1..]) || (a[0] == b[0] && Sublist(a[1..], b[1..]))))
  }

  lemma {:induction false} SublistMore(a: seq<int>, b: seq<int>, k: int)
    requires Sublist(a, b)
    ensures Sublist([k] + a, [k] + b) && Sublist(a, [k] + b)
  {
    assert ([k] + a)[1..] == a && ([k] + b)[1..] == b;
  }

  /** Each level is a sublist of the one below. */
  lemma {:induction false} LevelIsSublist(ks: seq<int>, hts: seq<nat>, level: nat, m: nat)
    requires m <= |ks| == |hts|
    ensures Sublist(Taller(ks, hts, level + 1, m), Taller(ks, hts, level, m))
    decreases |ks| - m
  {
    if m < |ks| {
      LevelIsSublist(ks, hts, level, m + 1);
      var a, b := Taller(ks, hts, level + 1, m + 1), Taller(ks, hts, level, m + 1);
      SublistMore(a, b, ks[m]);
      assert [] + a == a && [] + b == b;
    }
  }

  lemma {:induction false} TallerSkips(ks: seq<int>, hts: seq<nat>, level: nat, m: nat, k: nat)
    requires m <= k <= |ks| == |hts| && forall n :: m <= n < k ==> hts[n] <= level
    ensures Taller(ks, hts, level, m) == Taller(ks, hts, level, k)
    decreases k - m
  {
    if m < k {
      TallerSkips(ks, hts, level, m + 1, k);
    }
  }

  /** Following the links of a level visits exactly the nodes taller than it, in order: level 0 is the whole list, and
      each level a sublist of the one below. */
  method Walk(l: List, level: nat, ghost sh: Shape) returns (keys: seq<int>)
    requires IsList(l, sh) && level < l.maxHeight
    ensures keys == Taller(sh.ks, sh.hts, level, 1)
  {
    keys := [];
    var x := 0;
    ghost var j: nat := 0;
    while true
      invariant j < |sh.ps| && x == sh.ps[j] && level < sh.hts[j] && keys + Taller(sh.ks, sh.hts, level, j + 1) == Taller(sh.ks, sh.hts, level, 1)
      decreases |sh.ps| - j
    {
      ghost var k := NextIdx(sh.hts, j, level);
      LinkIs(l.nodes, sh, j, level, k);
      NextIdxIs(sh.hts, j, level);
      TallerSkips(sh.ks, sh.hts, level, j + 1, k);
      var next := l.nodes[x].next[level];
      if next == NULL {
        return;
      }
      ghost var rest := Taller(sh.ks, sh.hts, level, k + 1);
      assert keys + ([sh.ks[k]] + rest) == keys + [sh.ks[k]] + rest;
      x, j := next, k;
      keys := keys + [l.nodes[x].key];
    }
  }
}
