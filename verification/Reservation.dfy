/**
 Charging memory that lives outside the cache to the cache: a manager that holds dummy entries, and an adapter that
 shares the placeholders of the user between a primary and a secondary cache.
 */
module Reservation {
  import opened LruList
  import opened LruSpec

  const DUMMY: nat := 256 * 1024
  const CHUNK: nat := 1024 * 1024

  /** The dummy entries needed to cover `used`. */
  function Need(used: nat): (n: nat)
    ensures used <= n * DUMMY < used + DUMMY
  {
    (used + DUMMY - 1) / DUMMY
  }

  /** A count of entries is below the need exactly when it does not cover the memory. */
  lemma NeedIff(used: nat, n: nat)
    ensures n < Need(used) <==> n * DUMMY < used
    ensures n > Need(used) <==> used + DUMMY <= n * DUMMY
  {
  }

  /** How many entries an update ends with: enough and not more, unless it may wait with giving some back, or the
      cache does not take more than `limit` in all. */
  function Settled(count: nat, used: nat, delayed: bool, limit: nat): nat {
    if count < Need(used) then
      (if Need(used) <= limit then Need(used) else if count < limit then limit else count)
    else if delayed && used >= count * DUMMY / 4 * 3 then count
    else Need(used)
  }

  /** The reservation manager. `limit` stands for the cache: it takes an entry while there are fewer than `limit`. */
  class CacheReservationManager {
    const delayed: bool
    var handles: seq<nat>
    var allocatedSize: nat
    var memoryUsed: nat

    ghost predicate Valid()
      reads this
    {
      allocatedSize == |handles| * DUMMY
    }

    constructor (delayed: bool)
      ensures Valid() && handles == [] && memoryUsed == 0 && this.delayed == delayed
    {
      this.delayed := delayed;
      handles, allocatedSize, memoryUsed := [], 0, 0;
    }

    method IncreaseCacheReservation(used: nat, limit: nat) returns (ok: bool)
      requires Valid() && |handles| < Need(used)
      modifies `handles, `allocatedSize
      ensures Valid() && ok == (Need(used) <= limit)
      ensures |handles| == if Need(used) <= limit then Need(used) else if |old(handles)| < limit then limit else |old(handles)|
      ensures old(handles) <= handles
    {
      ok := true;
      while used > allocatedSize
        invariant Valid() && ok && |handles| <= Need(used) && (|handles| > |old(handles)| ==> |handles| <= limit) && old(handles) <= handles
        decreases Need(used) - |handles|
      {
        NeedIff(used, |handles|);
        if |handles| >= limit {
          return false;
        }
        handles := handles + [|handles|];
        allocatedSize := allocatedSize + DUMMY;
      }
      NeedIff(used, |handles|);
    }

    method DecreaseCacheReservation(used: nat)
      requires Valid() && |handles| >= Need(used)
      modifies `handles, `allocatedSize
      ensures Valid() && |handles| == Need(used)
    {
      while used + DUMMY <= allocatedSize
        invariant Valid() && |handles| >= Need(used)
        decreases |handles|
      {
        NeedIff(used, |handles|);
        handles := handles[..|handles| - 1];
        allocatedSize := allocatedSize - DUMMY;
      }
      NeedIff(used, |handles|);
    }

    /** Covers the memory now in use. Entries are a whole number; the cover is exact to one entry except when giving
        back is put off (never by more than a quarter), and falls short only when the cache refuses entries. */
    method UpdateCacheReservation(used: nat, limit: nat) returns (ok: bool)
      requires Valid()
      modifies this
      ensures Valid() && memoryUsed == used && |handles| == Settled(|old(handles)|, used, delayed, limit)
      ensures ok == (|old(handles)| >= Need(used) || Need(used) <= limit)
      ensures used > old(allocatedSize) && !ok ==> handles == old(handles) || |handles| == limit
      ensures delayed && used <= old(allocatedSize) && 3 * old(allocatedSize) <= 4 * used ==> handles == old(handles)
      ensures ok && !(delayed && used <= old(allocatedSize) && 3 * old(allocatedSize) <= 4 * used) ==> used <= allocatedSize < used + DUMMY
    {
      memoryUsed := used;
      NeedIff(used, |handles|);
      ok := true;
      if used == allocatedSize {
        assert |handles| == Need(used);
      } else if used > allocatedSize {
        ok := IncreaseCacheReservation(used, limit);
      } else if delayed && used >= allocatedSize / 4 * 3 {
      } else {
        DecreaseCacheReservation(used);
      }
      NeedIff(used, |handles|);
    }

    /** A change relative to the memory in use, which never goes below zero. */
    method UpdateBy(delta: nat, increase: bool, limit: nat) returns (ok: bool)
      requires Valid()
      modifies this
      ensures Valid() && memoryUsed == if increase then old(memoryUsed) + delta else if old(memoryUsed) > delta then old(memoryUsed) - delta else 0
      ensures |handles| == Settled(|old(handles)|, memoryUsed, delayed, limit)
      ensures ok == (|old(handles)| >= Need(memoryUsed) || Need(memoryUsed) <= limit)
    {
      if !increase {
        ok := UpdateCacheReservation(if memoryUsed > delta then memoryUsed - delta else 0, limit);
      } else {
        ok := UpdateCacheReservation(memoryUsed + delta, limit);
      }
    }
  }

  /** With delayed decrease, at most a third more than the memory in use stays reserved. */
  lemma DelayIsBounded(count: nat, used: nat, limit: nat)
    requires count >= Need(used)
    ensures var n := Settled(count, used, true, limit); n == Need(used) || 3 * (n * DUMMY) <= 4 * used
  {
  }

  /* ---------- sharing placeholders between two caches ---------- */

  function RoundDown(n: nat): (r: nat)
    ensures r <= n < r + CHUNK && r % CHUNK == 0
  {
    n / CHUNK * CHUNK
  }

  /** The part of `reserved` that the secondary cache bears; the ratio of the capacities is exact. */
  function SecShare(reserved: nat, secCapacity: nat, capacity: nat): (n: nat)
    requires capacity > 0
    ensures n * capacity <= reserved * secCapacity < n * capacity + capacity
  {
    reserved * secCapacity / capacity
  }

  lemma MulLe(a: nat, b: nat, c: nat)
    requires a <= b
    ensures a * c <= b * c
  {
  }

  lemma DivLe(a: nat, b: nat, d: nat)
    requires a <= b && d > 0
    ensures a / d <= b / d
  {
    if a / d > b / d {
      MulLe(b / d + 1, a / d, d);
      assert false;
    }
  }

  lemma QuotientIs(x: nat, d: nat, q: nat)
    requires d > 0 && q * d <= x < q * d + d
    ensures x / d == q
  {
    var p := x / d;
    assert p * d <= x < p * d + d;
    if p < q {
      MulLe(p + 1, q, d);
    } else if q < p {
      MulLe(q + 1, p, d);
    }
  }

  lemma DivExact(n: nat, d: nat)
    requires d > 0
    ensures d * n / d == n
  {
    assert n * d == d * n;
    QuotientIs(d * n, d, n);
  }

  lemma ShareMonotone(a: nat, b: nat, secCapacity: nat, capacity: nat)
    requires a <= b && capacity > 0
    ensures SecShare(a, secCapacity, capacity) <= SecShare(b, secCapacity, capacity)
  {
    MulLe(a, b, secCapacity);
    DivLe(a * secCapacity, b * secCapacity, capacity);
  }

  lemma ShareBounds(reserved: nat, secCapacity: nat, capacity: nat)
    requires reserved <= capacity && capacity > 0
    ensures SecShare(reserved, secCapacity, capacity) <= secCapacity && SecShare(0, secCapacity, capacity) == 0
  {
    ShareMonotone(reserved, capacity, secCapacity, capacity);
    DivExact(secCapacity, capacity);
  }

  /** The counters of the adapter; `used` is the memory the primary cache reserves for the secondary one. */
  datatype Adapter = Adapter(capacity: nat, secCapacity: nat, placeholder: nat, reserved: nat, secReserved: nat, used: nat)

  /** `live` are the placeholders in the cache, with their charges. */
  ghost predicate Inv(a: Adapter, live: map<Ptr, nat>) {
    && a.capacity > 0 && a.placeholder == Total(live)
    && a.reserved <= a.placeholder && a.reserved <= a.capacity && a.reserved % CHUNK == 0
    && a.secReserved == SecShare(a.reserved, a.secCapacity, a.capacity)
    && a.secReserved <= a.secCapacity && a.used + a.secReserved == a.secCapacity
  }

  /** At the start the whole budget of the secondary cache is reserved. */
  function Fresh(capacity: nat, secCapacity: nat): Adapter {
    Adapter(capacity, secCapacity, 0, 0, 0, secCapacity)
  }

  lemma FreshInv(capacity: nat, secCapacity: nat)
    requires capacity > 0
    ensures Inv(Fresh(capacity, secCapacity), map[])
  {
    ShareBounds(0, secCapacity, capacity);
  }

  /** Unsigned subtraction that must not wrap, and the clamped one of the manager. */
  function Clamped(total: nat, delta: nat): nat {
    if total > delta then total - delta else 0
  }

  lemma RoundsUp(placeholder: nat, reserved: nat)
    requires placeholder >= reserved + CHUNK
    ensures reserved < RoundDown(placeholder)
  {
  }

  /** A placeholder has been inserted into the primary cache. When enough has come together, the secondary cache is
      deflated by its share, and the reservation for it shrinks by as much. No subtraction wraps. */
  method InsertPlaceholder(a: Adapter, charge: nat, ghost h: Ptr, ghost live: map<Ptr, nat>) returns (a': Adapter, deflate: nat)
    requires Inv(a, live) && h !in live
    ensures Inv(a', live[h := charge]) && a'.capacity == a.capacity && a'.secCapacity == a.secCapacity
    ensures a'.secReserved == a.secReserved + deflate && a.used == a'.used + deflate
    ensures a'.placeholder == a.placeholder + charge && (a'.placeholder <= a.capacity ==> a'.placeholder < a'.reserved + CHUNK)
    ensures a'.placeholder > a.capacity || a'.placeholder < a.reserved + CHUNK ==> a'.reserved == a.reserved
  {
    TotalWith(live, h, charge);
    a' := a.(placeholder := a.placeholder + charge);
    deflate := 0;
    if a'.placeholder <= a.capacity && a'.placeholder - a.reserved >= CHUNK {
      RoundsUp(a'.placeholder, a.reserved);
      var reserved := RoundDown(a'.placeholder);
      ShareMonotone(a.reserved, reserved, a.secCapacity, a.capacity);
      ShareBounds(reserved, a.secCapacity, a.capacity);
      var sec := SecShare(reserved, a.secCapacity, a.capacity);
      deflate := sec - a.secReserved;
      a' := a'.(reserved := reserved, used := Clamped(a.used, deflate), secReserved := a.secReserved + deflate);
    }
  }

  /** A placeholder is released and erased. */
  method ReleasePlaceholder(a: Adapter, charge: nat, ghost h: Ptr, ghost live: map<Ptr, nat>) returns (a': Adapter, inflate: nat)
    requires Inv(a, live) && h in live && live[h] == charge
    ensures Inv(a', live - {h}) && a'.capacity == a.capacity && a'.secCapacity == a.secCapacity
    ensures a.secReserved == a'.secReserved + inflate && a'.used == a.used + inflate
    ensures a'.placeholder + charge == a.placeholder
    ensures a'.placeholder <= a.capacity && a'.placeholder < a.reserved ==> a'.reserved <= a'.placeholder < a'.reserved + CHUNK
    ensures a'.placeholder > a.capacity || a'.placeholder >= a.reserved ==> a'.reserved == a.reserved
  {
    TotalWithout(live, h);
    a' := a.(placeholder := a.placeholder - charge);
    inflate := 0;
    if a'.placeholder <= a.capacity && a'.placeholder < a.reserved {
      var reserved := RoundDown(a'.placeholder);
      ShareMonotone(reserved, a.reserved, a.secCapacity, a.capacity);
      ShareBounds(reserved, a.secCapacity, a.capacity);
      var sec := SecShare(reserved, a.secCapacity, a.capacity);
      inflate := a.secReserved - sec;
      a' := a'.(reserved := reserved, used := a.used + inflate, secReserved := a.secReserved - inflate);
    }
  }

  /** When every placeholder has been released, nothing is reserved and the primary cache reserves exactly the
      capacity of the secondary one again. */
  lemma AllReleased(a: Adapter)
    requires Inv(a, map[])
    ensures a.placeholder == 0 && a.reserved == 0 && a.secReserved == 0 && a.used == a.secCapacity
  {
    ShareBounds(0, a.secCapacity, a.capacity);
  }

  datatype Op = Insert(h: Ptr, charge: nat) | Release(h: Ptr)

  predicate Can(live: map<Ptr, nat>, op: Op) {
    match op case Insert(h, _) => h !in live case Release(h) => h in live
  }

  function LiveAfter(live: map<Ptr, nat>, op: Op): map<Ptr, nat>
    requires Can(live, op)
  {
    match op case Insert(h, charge) => live[h := charge] case Release(h) => live - {h}
  }

  ghost predicate CanRun(live: map<Ptr, nat>, ops: seq<Op>)
    decreases |ops|
  {
    ops == [] || (Can(live, ops[0]) && CanRun(LiveAfter(live, ops[0]), ops[1..]))
  }

  ghost function LiveAtEnd(live: map<Ptr, nat>, ops: seq<Op>): map<Ptr, nat>
    requires CanRun(live, ops)
    decreases |ops|
  {
    if ops == [] then live else LiveAtEnd(LiveAfter(live, ops[0]), ops[1..])
  }

  /** The placeholders fit the capacity at the start, and after every step. */
  ghost predicate Fits(live: map<Ptr, nat>, ops: seq<Op>, capacity: nat)
    requires CanRun(live, ops)
    decreases |ops|
  {
    Total(live) <= capacity && (ops == [] || Fits(LiveAfter(live, ops[0]), ops[1..], capacity))
  }

  /** One step. What fits the capacity stays reserved up to less than a chunk. */
  method Step(a: Adapter, op: Op, live: map<Ptr, nat>) returns (a': Adapter, live': map<Ptr, nat>)
    requires Inv(a, live) && Can(live, op)
    ensures live' == LiveAfter(live, op) && Inv(a', live') && a'.capacity == a.capacity && a'.secCapacity == a.secCapacity
    ensures a.placeholder < a.reserved + CHUNK && Total(live') <= a.capacity ==> a'.placeholder < a'.reserved + CHUNK
  {
    var change;
    match op {
      case Insert(h, charge) =>
        a', change := InsertPlaceholder(a, charge, h, live);
        live' := live[h := charge];
      case Release(h) =>
        a', change := ReleasePlaceholder(a, live[h], h, live);
        live' := live - {h};
    }
  }

  /** Any run of insertions and releases keeps the shares right; one that releases everything passes the checks of the
      destructor. While the placeholders fit the capacity, less than a chunk of them is not reserved. */
  method Run(capacity: nat, secCapacity: nat, ops: seq<Op>) returns (a: Adapter)
    requires capacity > 0 && CanRun(map[], ops)
    ensures Inv(a, LiveAtEnd(map[], ops)) && a.capacity == capacity && a.secCapacity == secCapacity
    ensures LiveAtEnd(map[], ops) == map[] ==> a.placeholder == 0 && a.reserved == 0 && a.used == secCapacity
    ensures Fits(map[], ops, capacity) ==> a.placeholder < a.reserved + CHUNK
  {
    a := Fresh(capacity, secCapacity);
    FreshInv(capacity, secCapacity);
    var live: map<Ptr, nat> := map[];
    ghost var rest := ops;
    assert ops[0..] == ops;
    for i := 0 to |ops|
      invariant rest == ops[i..] && Inv(a, live) && a.capacity == capacity && a.secCapacity == secCapacity
      invariant CanRun(live, rest) && LiveAtEnd(live, rest) == LiveAtEnd(map[], ops)
      invariant Fits(map[], ops, capacity) ==> Fits(live, rest, capacity) && a.placeholder < a.reserved + CHUNK
    {
      assert rest[0] == ops[i] && rest[1..] == ops[i + 1..];
      a, live := Step(a, ops[i], live);
      rest := rest[1..];
    }
    if LiveAtEnd(map[], ops) == map[] {
      AllReleased(a);
    }
  }

  /** Once they have gone over it, more may be left out: a release never reserves. */
  method ReservedLags() returns (a: Adapter)
    ensures a.placeholder == 63 * CHUNK <= a.capacity && a.reserved == 2 * CHUNK
  {
    a := Fresh(64 * CHUNK, 16 * CHUNK);
    var change;
    a, change := InsertPlaceholder(a, 2 * CHUNK, 1, map[]);
    a, change := InsertPlaceholder(a, 63 * CHUNK, 2, map[1 := 2 * CHUNK]);
    a, change := ReleasePlaceholder(a, 2 * CHUNK, 1, map[1 := 2 * CHUNK][2 := 63 * CHUNK]);
  }
}
