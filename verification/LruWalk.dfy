/**
 Walking over all entries of a shard a few buckets at a time. The cursor is a 64-bit hash position, so that a
 table that grows between two calls neither repeats nor skips an entry.
 */
module LruWalk {
  import opened Seal
  import opened Coding
  import opened LruList
  import opened LruTable

  /* ---------- shifts ---------- */

  lemma MulStep(a: nat, b: nat, w: nat)
    requires a < b
    ensures a * w + w <= b * w
  {
    var d := b - a - 1;
    assert b * w == (a + 1 + d) * w == a * w + w + d * w;
    assert d * w >= 0;
  }

  lemma MulAssoc(a: nat, b: nat, c: nat)
    ensures a * b * c == a * (b * c)
  {
  }

  lemma {:induction false} Pow2Adds(a: nat, b: nat)
    ensures Pow2(a + b) == Pow2(a) * Pow2(b)
  {
    if a > 0 {
      Pow2Adds(a - 1, b);
      assert a - 1 + b == a + b - 1;
      assert 2 * (Pow2(a - 1) * Pow2(b)) == (2 * Pow2(a - 1)) * Pow2(b);
    }
  }

  lemma {:induction false} ShiftAtLeast(x: nat, n: nat, k: nat)
    ensures ShiftRight(x, n) >= k <==> x >= k * Pow2(n)
    decreases n
  {
    if n > 0 {
      ShiftAtLeast(x / 2, n - 1, k);
      assert k * Pow2(n) == 2 * (k * Pow2(n - 1));
    }
  }

  lemma ShiftExact(k: nat, n: nat, x: nat)
    requires x == k * Pow2(n)
    ensures ShiftRight(x, n) == k
  {
    ShiftAtLeast(x, n, k);
    ShiftAtLeast(x, n, k + 1);
    assert (k + 1) * Pow2(n) == k * Pow2(n) + Pow2(n);
  }

  /* ---------- the cursor ---------- */

  function NextState(state: nat, bits: nat, perLock: nat): nat
    requires bits <= 31
  {
    var end := ShiftRight(state, 64 - bits) + perLock;
    if end >= Pow2(bits) then UINT64_MAX else end * Pow2(64 - bits)
  }

  /** The position a cursor stands for: the largest value means the end. */
  function Limit(state: nat): nat {
    if state == UINT64_MAX then TWO64 else state
  }

  /** The position of a hash: its 32 bits are the upper ones. */
  function Position(hash: uint32): nat {
    hash * TWO32
  }

  /** The cursor is at the start of a bucket. */
  ghost predicate AtBucket(state: nat, bits: nat, k: nat)
    requires bits <= 31
  {
    state == k * Pow2(64 - bits) && k < Pow2(bits)
  }

  lemma Pow2Splits(bits: nat)
    requires bits <= 31
    ensures Pow2(64 - bits) == Pow2(32 - bits) * TWO32 && Pow2(bits) * Pow2(64 - bits) == TWO64 && Pow2(64 - bits) >= 2
  {
    Pow2Of32(32);
    Pow2Adds(32 - bits, 32);
    assert 32 - bits + 32 == 64 - bits;
    Pow2Adds(bits, 64 - bits);
    Pow2Adds(32, 32);
    assert Pow2(64) == TWO32 * TWO32;
    assert bits + (64 - bits) == 64;
  }

  lemma ScaleCompare(x: nat, y: nat)
    ensures x >= y <==> x * TWO32 >= y * TWO32
  {
  }

  /** A hash is at or behind bucket `k` exactly when its bucket is. */
  lemma BucketAtLeast(hash: uint32, bits: nat, k: nat)
    requires bits <= 31
    ensures Bucket(hash, bits) >= k <==> Position(hash) >= k * Pow2(64 - bits)
  {
    var w := Pow2(32 - bits);
    ShiftAtLeast(hash, 32 - bits, k);
    ScaleCompare(hash, k * w);
    Pow2Splits(bits);
    MulAssoc(k, w, TWO32);
  }

  lemma ProductBelow(k: nat, bits: nat, w: nat)
    requires bits <= 31 && w == Pow2(64 - bits) && k < Pow2(bits)
    ensures k * w < UINT64_MAX
  {
    Pow2Splits(bits);
    MulStep(k, Pow2(bits), w);
  }

  lemma StepBounds(k: nat, end: nat, bits: nat, w: nat)
    requires bits <= 31 && w == Pow2(64 - bits) && k < end < Pow2(bits)
    ensures k * w < end * w < UINT64_MAX
  {
    ProductBelow(end, bits, w);
    MulStep(k, end, w);
  }

  /** One call covers exactly the positions between the old cursor and the new one. */
  lemma CallCovers(hash: uint32, state: nat, bits: nat, perLock: nat, k: nat, end: nat)
    requires bits <= 31 && AtBucket(state, bits, k)
    requires end == if k + perLock >= Pow2(bits) then Pow2(bits) else k + perLock
    ensures k == ShiftRight(state, 64 - bits)
    ensures k <= Bucket(hash, bits) < end <==> state <= Position(hash) < Limit(NextState(state, bits, perLock))
  {
    ShiftExact(k, 64 - bits, state);
    BucketAtLeast(hash, bits, k);
    BucketAtLeast(hash, bits, end);
    if k + perLock >= Pow2(bits) {
      Pow2Splits(bits);
      assert Position(hash) < TWO64;
    } else {
      ProductBelow(end, bits, Pow2(64 - bits));
    }
  }

  /** With at least one bucket per call the cursor moves forward, to the start of a bucket. */
  lemma CursorMoves(state: nat, bits: nat, perLock: nat, k: nat)
    requires bits <= 31 && AtBucket(state, bits, k) && perLock > 0
    ensures state < Limit(NextState(state, bits, perLock)) && NextState(state, bits, perLock) <= UINT64_MAX
    ensures NextState(state, bits, perLock) != UINT64_MAX ==> AtBucket(NextState(state, bits, perLock), bits, k + perLock)
  {
    ShiftExact(k, 64 - bits, state);
    ProductBelow(k, bits, Pow2(64 - bits));
    if k + perLock < Pow2(bits) {
      StepBounds(k, k + perLock, bits, Pow2(64 - bits));
    }
  }

  /** With none it never does. */
  lemma CursorStalls(state: nat, bits: nat, k: nat)
    requires bits <= 31 && AtBucket(state, bits, k)
    ensures NextState(state, bits, 0) == state
  {
    ShiftExact(k, 64 - bits, state);
  }

  /** The start of a bucket is the start of a bucket of every larger table. */
  lemma StillAtBucket(state: nat, bits: nat, bits': nat, k: nat) returns (k': nat)
    requires bits <= bits' <= 31 && AtBucket(state, bits, k)
    ensures AtBucket(state, bits', k')
  {
    var d := bits' - bits;
    var w, w' := Pow2(d), Pow2(64 - bits');
    k' := k * w;
    assert Pow2(64 - bits) == w * w' by {
      Pow2Adds(d, 64 - bits');
      assert d + (64 - bits') == 64 - bits;
    }
    MulAssoc(k, w, w');
    assert Pow2(bits') == Pow2(bits) * w by {
      Pow2Adds(bits, d);
      assert bits + d == bits';
    }
    MulStep(k, Pow2(bits), w);
  }

  /* ---------- whole walks ---------- */

  /** The cursors of successive calls on a table that has `bits[i]` bits at call `i`. */
  ghost predicate IsWalk(bits: seq<nat>, states: seq<nat>, perLock: nat) {
    && |states| == |bits| + 1 && states[0] == 0
    && (forall i :: 0 <= i < |bits| ==> bits[i] <= 31 && states[i] != UINT64_MAX)
    && (forall i, j :: 0 <= i < j < |bits| ==> bits[i] <= bits[j])
    && (forall i {:trigger bits[i]} :: 0 <= i < |bits| ==> states[i + 1] == NextState(states[i], bits[i], perLock))
  }

  lemma {:induction false} WalkAligned(bits: seq<nat>, states: seq<nat>, perLock: nat, i: nat) returns (k: nat)
    requires IsWalk(bits, states, perLock) && perLock > 0 && i < |bits|
    ensures AtBucket(states[i], bits[i], k)
  {
    if i == 0 {
      k := 0;
    } else {
      var h := i - 1;
      var k0 := WalkAligned(bits, states, perLock, h);
      CursorMoves(states[h], bits[h], perLock, k0);
      assert states[h + 1] == NextState(states[h], bits[h], perLock);
      k := StillAtBucket(states[i], bits[h], bits[i], k0 + perLock);
    }
  }

  lemma WalkStep(bits: seq<nat>, states: seq<nat>, perLock: nat, i: nat, s: nat, s': nat)
    requires IsWalk(bits, states, perLock) && perLock > 0 && i < |bits| && s == states[i] && s' == states[i + 1]
    ensures Limit(s) < Limit(s')
  {
    var k := WalkAligned(bits, states, perLock, i);
    CursorMoves(s, bits[i], perLock, k);
  }

  lemma {:induction false} WalkGrows(bits: seq<nat>, states: seq<nat>, perLock: nat, i: nat, j: nat)
    requires IsWalk(bits, states, perLock) && perLock > 0 && i < j < |states|
    ensures Limit(states[i]) < Limit(states[j])
    decreases j
  {
    var h := j - 1;
    WalkStep(bits, states, perLock, h, states[h], states[j]);
    if i < h {
      WalkGrows(bits, states, perLock, i, h);
    }
  }

  /** Call `i` covers the position. */
  ghost predicate Covers(states: seq<nat>, i: nat, position: nat) {
    i + 1 < |states| && states[i] <= position < Limit(states[i + 1])
  }

  lemma {:induction false} FindCall(bits: seq<nat>, states: seq<nat>, perLock: nat, position: nat, n: nat) returns (i: nat)
    requires IsWalk(bits, states, perLock) && perLock > 0 && n < |states| && position < Limit(states[n])
    ensures i < n && Covers(states, i, position)
    decreases n
  {
    if n == 0 {
      assert false;
    }
    var m := n - 1;
    if position < Limit(states[m]) {
      i := FindCall(bits, states, perLock, position, m);
    } else {
      i := m;
    }
  }

  /** A position is covered by at most one call, whether the walk has ended or not. */
  lemma AtMostOneCall(bits: seq<nat>, states: seq<nat>, perLock: nat, position: nat, i: nat, j: nat)
    requires IsWalk(bits, states, perLock) && perLock > 0 && i < j && Covers(states, j, position)
    ensures !Covers(states, i, position)
  {
    if i + 1 < j {
      WalkGrows(bits, states, perLock, i + 1, j);
    }
  }

  /** A walk that has ended covered every position in exactly one call, however the table grew meanwhile. */
  lemma ExactlyOneCall(bits: seq<nat>, states: seq<nat>, perLock: nat, position: nat) returns (i: nat)
    requires IsWalk(bits, states, perLock) && perLock > 0 && states[|bits|] == UINT64_MAX && position < TWO64
    ensures Covers(states, i, position) && forall j: nat :: j != i ==> !Covers(states, j, position)
  {
    i := FindCall(bits, states, perLock, position, |bits|);
    forall j: nat | j != i ensures !Covers(states, j, position) {
      if Covers(states, j, position) {
        if i < j {
          AtMostOneCall(bits, states, perLock, position, i, j);
        } else {
          AtMostOneCall(bits, states, perLock, position, j, i);
        }
      }
    }
  }

  /* ---------- whether a walk ends ---------- */

  /** The largest number of calls: a call passes at least one bucket of the largest table. */
  const MAX_CALLS: nat := 0x8000_0000

  /** The width of a bucket of the largest table. */
  const MIN_WIDTH: nat := 0x2_0000_0000

  lemma {:induction false} Pow2Monotone(a: nat, b: nat)
    requires a <= b
    ensures Pow2(a) <= Pow2(b)
    decreases b
  {
    if a < b {
      Pow2Monotone(a, b - 1);
    }
  }

  lemma WidthAtLeast(bits: nat)
    requires bits <= 31
    ensures Pow2(64 - bits) >= MIN_WIDTH
  {
    Pow2Of32(32);
    assert Pow2(33) == 2 * Pow2(32);
    Pow2Monotone(33, 64 - bits);
  }

  /** A call that does not end the walk moves the cursor by at least one bucket of the largest table. */
  lemma CursorMovesFar(state: nat, bits: nat, perLock: nat, k: nat)
    requires bits <= 31 && AtBucket(state, bits, k) && perLock > 0
    ensures Limit(NextState(state, bits, perLock)) >= state + MIN_WIDTH
  {
    var w := Pow2(64 - bits);
    ShiftExact(k, 64 - bits, state);
    WidthAtLeast(bits);
    if k + perLock >= Pow2(bits) {
      Pow2Splits(bits);
      MulStep(k, Pow2(bits), w);
    } else {
      MulStep(k, k + perLock, w);
    }
  }

  lemma {:induction false} WalkFar(bits: seq<nat>, states: seq<nat>, perLock: nat, i: nat)
    requires IsWalk(bits, states, perLock) && perLock > 0 && i < |states|
    ensures i * MIN_WIDTH <= Limit(states[i]) && states[i] <= UINT64_MAX
    decreases i
  {
    if i > 0 {
      var h := i - 1;
      WalkFar(bits, states, perLock, h);
      var k := WalkAligned(bits, states, perLock, h);
      assert states[h + 1] == NextState(states[h], bits[h], perLock);
      CursorMoves(states[h], bits[h], perLock, k);
      CursorMovesFar(states[h], bits[h], perLock, k);
    }
  }

  lemma FarEnough(i: nat, state: nat)
    requires i * MIN_WIDTH <= Limit(state) && state <= UINT64_MAX
    ensures i <= MAX_CALLS && (i == MAX_CALLS ==> state == UINT64_MAX)
  {
  }

  lemma ShortAt(bits: seq<nat>, states: seq<nat>, perLock: nat, i: nat, s: nat)
    requires IsWalk(bits, states, perLock) && perLock > 0 && i < |states| && s == states[i]
    ensures i <= MAX_CALLS && (i == MAX_CALLS ==> s == UINT64_MAX)
  {
    WalkFar(bits, states, perLock, i);
    FarEnough(i, s);
  }

  /** With at least one bucket per call a walk has at most 2^31 calls, whatever the table does, and one of that many calls
      has ended. */
  lemma WalkIsShort(bits: seq<nat>, states: seq<nat>, perLock: nat)
    requires IsWalk(bits, states, perLock) && perLock > 0
    ensures |bits| <= MAX_CALLS && (|bits| == MAX_CALLS ==> states[|bits|] == UINT64_MAX)
  {
    ShortAt(bits, states, perLock, |bits|, states[|bits|]);
  }

  /** With none per call the cursor stays at the start, so no walk is ever finished. */
  lemma {:induction false} StalledWalk(bits: seq<nat>, states: seq<nat>, i: nat)
    requires IsWalk(bits, states, 0) && i < |states|
    ensures states[i] == 0
  {
    if i > 0 {
      StalledWalk(bits, states, i - 1);
      assert states[i] == NextState(states[i - 1], bits[i - 1], 0);
      assert AtBucket(0, bits[i - 1], 0);
      CursorStalls(0, bits[i - 1], 0);
    }
  }

  /** A table with these numbers of bits, one for each call. */
  ghost predicate Grows(bits: seq<nat>) {
    (forall i :: 0 <= i < |bits| ==> bits[i] <= 31) && (forall i, j :: 0 <= i < j < |bits| ==> bits[i] <= bits[j])
  }

  /** Some walk over a table with these bits is finished after `n` calls. */
  ghost predicate FinishedAfter(bits: seq<nat>, perLock: nat, n: nat) {
    n <= |bits| && exists states :: IsWalk(bits[..n], states, perLock) && states[n] == UINT64_MAX
  }

  lemma WalkMore(bits: seq<nat>, states: seq<nat>, perLock: nat, bit: nat, next: nat, bits': seq<nat>, states': seq<nat>, m: nat)
    requires IsWalk(bits, states, perLock) && m == |bits| && states[m] != UINT64_MAX && bit <= 31 && next == NextState(states[m], bit, perLock)
    requires bits' == bits + [bit] && Grows(bits') && states' == states + [next]
    ensures IsWalk(bits', states', perLock)
  {
    forall i {:trigger bits'[i]} | 0 <= i < |bits'| ensures states'[i + 1] == NextState(states'[i], bits'[i], perLock) {
      if i < m {
        assert bits'[i] == bits[i];
      }
    }
  }

  /** As many calls as the bits allow, or as it takes to finish. */
  lemma {:induction false} WalkOn(bits: seq<nat>, perLock: nat, n: nat) returns (m: nat, states: seq<nat>)
    requires Grows(bits) && n <= |bits|
    ensures m <= n && IsWalk(bits[..m], states, perLock) && (m < n ==> states[m] == UINT64_MAX)
  {
    if n == 0 {
      m, states := 0, [0];
    } else {
      m, states := WalkOn(bits, perLock, n - 1);
      if states[m] != UINT64_MAX {
        var next := NextState(states[m], bits[m], perLock);
        assert bits[..m + 1] == bits[..m] + [bits[m]];
        WalkMore(bits[..m], states, perLock, bits[m], next, bits[..m + 1], states + [next], m);
        m, states := m + 1, states + [next];
      }
    }
  }

  lemma NeverFinishes(bits: seq<nat>, n: nat)
    ensures !FinishedAfter(bits, 0, n)
  {
    if FinishedAfter(bits, 0, n) {
      var states :| IsWalk(bits[..n], states, 0) && states[n] == UINT64_MAX;
      StalledWalk(bits[..n], states, n);
    }
  }

  lemma WalkFinishes(bits: seq<nat>, perLock: nat, n: nat) returns (m: nat)
    requires Grows(bits) && n == MAX_CALLS <= |bits| && perLock > 0
    ensures FinishedAfter(bits, perLock, m)
  {
    var states;
    m, states := WalkOn(bits, perLock, n);
    WalkIsShort(bits[..m], states, perLock);
  }

  /** A walk over a table that may grow between the calls, for as long as it takes, ends if and only if each call passes at
      least one bucket; 2^31 calls are then enough. */
  lemma WalkEndsIff(bits: seq<nat>, perLock: nat)
    requires Grows(bits) && |bits| >= MAX_CALLS
    ensures (exists n: nat :: FinishedAfter(bits, perLock, n)) <==> perLock > 0
  {
    if perLock > 0 {
      var m := WalkFinishes(bits, perLock, MAX_CALLS);
    } else {
      forall n: nat ensures !FinishedAfter(bits, perLock, n) {
        NeverFinishes(bits, n);
      }
    }
  }

  /* ---------- one call ---------- */

  /** The entries of buckets `begin` to `end`, each once. */
  ghost predicate Visits(t: Table, dir: map<Tag, Ptr>, begin: nat, end: nat, visited: seq<Ptr>) {
    && t.lengthBits <= 31 && Distinct(visited)
    && (forall p :: p in visited <==> Listed(t.cells, dir, p) && begin <= Bucket(t.cells[p].tag.hash, t.lengthBits) < end)
  }

  lemma {:induction false} DistinctConcat(a: seq<Ptr>, b: seq<Ptr>)
    requires Distinct(a) && Distinct(b) && forall p :: p in a ==> p !in b
    ensures Distinct(a + b)
  {
    if a == [] {
      assert a + b == b;
    } else {
      assert (a + b)[1..] == a[1..] + b;
      DistinctConcat(a[1..], b);
    }
  }

  lemma VisitsBucket(t: Table, chains: seq<seq<Ptr>>, dir: map<Tag, Ptr>, b: nat, visited: seq<Ptr>)
    requires Holds(t, chains, dir) && b < |chains| && visited == chains[b]
    ensures Visits(t, dir, b, b + 1, visited) && Path(t.cells, t.list[b], visited, NULL)
  {
    assert Open(0);
    PathDistinct(t.cells, t.list[b], visited);
  }

  lemma VisitsMore(t: Table, dir: map<Tag, Ptr>, begin: nat, mid: nat, end: nat, a: seq<Ptr>, b: seq<Ptr>)
    requires begin <= mid <= end && Visits(t, dir, begin, mid, a) && Visits(t, dir, mid, end, b)
    ensures Visits(t, dir, begin, end, a + b)
  {
    DistinctConcat(a, b);
  }

  method VisitChain(t: Table, ghost chain: seq<Ptr>, b: nat) returns (visited: seq<Ptr>)
    requires b < |t.list| && Path(t.cells, t.list[b], chain, NULL)
    ensures visited == chain
  {
    visited := [];
    var h := t.list[b];
    ghost var rest := chain;
    while h != NULL
      invariant Path(t.cells, h, rest, NULL) && visited + rest == chain
      decreases |rest|
    {
      assert visited + rest == visited + [h] + rest[1..];
      visited, h, rest := visited + [h], t.cells[h].next, rest[1..];
    }
  }

  method ApplyToEntriesRange(t: Table, ghost dir: map<Tag, Ptr>, begin: nat, end: nat) returns (visited: seq<Ptr>)
    requires IsTable(t, dir) && begin <= end <= |t.list|
    ensures Visits(t, dir, begin, end, visited)
  {
    ghost var chains :| Holds(t, chains, dir);
    visited := [];
    for i := begin to end
      invariant Visits(t, dir, begin, i, visited)
    {
      VisitsBucket(t, chains, dir, i, chains[i]);
      var part := VisitChain(t, chains[i], i);
      VisitsMore(t, dir, begin, i, i + 1, visited, part);
      visited := visited + part;
    }
  }

  /** The entries between two positions, each once. */
  ghost predicate VisitsBetween(t: Table, dir: map<Tag, Ptr>, from: nat, to: nat, visited: seq<Ptr>) {
    && Distinct(visited)
    && (forall p :: p in visited <==> Listed(t.cells, dir, p) && from <= Position(t.cells[p].tag.hash) < to)
  }

  lemma BucketsArePositions(t: Table, dir: map<Tag, Ptr>, state: nat, perLock: nat, k: nat, end: nat, visited: seq<Ptr>)
    requires t.lengthBits <= 31 && AtBucket(state, t.lengthBits, k) && Visits(t, dir, k, end, visited)
    requires end == if k + perLock >= Pow2(t.lengthBits) then Pow2(t.lengthBits) else k + perLock
    ensures VisitsBetween(t, dir, state, Limit(NextState(state, t.lengthBits, perLock)), visited)
  {
    var to := Limit(NextState(state, t.lengthBits, perLock));
    forall p ensures p in visited <==> (Listed(t.cells, dir, p) && state <= Position(t.cells[p].tag.hash) < to) {
      if Listed(t.cells, dir, p) {
        CallCovers(t.cells[p].tag.hash, state, t.lengthBits, perLock, k, end);
      }
    }
  }

  lemma NextIs(state: nat, bits: nat, perLock: nat, k: nat, begin: nat, end: nat, state': nat)
    requires bits <= 31 && AtBucket(state, bits, k) && begin == ShiftRight(state, 64 - bits)
    requires if begin + perLock >= Pow2(bits) then end == Pow2(bits) && state' == UINT64_MAX
             else end == begin + perLock && state' == end * Pow2(64 - bits)
    ensures begin == k && k <= end <= Pow2(bits) && state' == NextState(state, bits, perLock)
    ensures end == if k + perLock >= Pow2(bits) then Pow2(bits) else k + perLock
  {
    ShiftExact(k, 64 - bits, state);
  }

  /** Visits the entries of the next `perLock` buckets and moves the cursor past them. */
  method ApplyToSomeEntries(t: Table, ghost dir: map<Tag, Ptr>, perLock: nat, state: nat, ghost k: nat)
    returns (visited: seq<Ptr>, state': nat)
    requires IsTable(t, dir) && t.lengthBits <= 31 && AtBucket(state, t.lengthBits, k) && perLock > 0
    ensures VisitsBetween(t, dir, state, Limit(state'), visited) && state' == NextState(state, t.lengthBits, perLock)
  {
    var length, width := Pow2(t.lengthBits), Pow2(64 - t.lengthBits);
    var begin := ShiftRight(state, 64 - t.lengthBits);
    var end := begin + perLock;
    if end >= length {
      end := length;
      state' := UINT64_MAX;
    } else {
      state' := end * width;
    }
    NextIs(state, t.lengthBits, perLock, k, begin, end, state');
    assert |t.list| == length;
    visited := ApplyToEntriesRange(t, dir, begin, end);
    BucketsArePositions(t, dir, state, perLock, k, end, visited);
  }
}
