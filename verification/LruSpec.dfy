/**
 What a cache shard does, on values: which handles exist, which the directory lists, which wait for
 eviction and in what order, and how much they are charged. Every operation is a function from one
 state to the next.
 */
module LruSpec {
  import opened Seal
  import opened LruList
  import opened LruTable

  datatype Priority = HighPri | LowPri | BottomPri

  /** The life-cycle fields of a handle. */
  datatype Entry = Entry(value: nat, refs: nat, inCache: bool, hit: bool, pri: Priority)

  function WantOf(e: Entry): Want {
    if e.pri.HighPri? || e.hit then WantHigh else if e.pri.LowPri? then WantLow else WantBottom
  }

  /** `es`, `tags` and `charge` describe the handles that exist, `dir` those the table lists,
      `ls` those waiting for eviction. */
  datatype State = State(
    capacity: nat, strict: bool, highRatio: real, lowRatio: real, highCap: real, lowCap: real,
    es: map<Ptr, Entry>, tags: map<Ptr, Tag>, charge: map<Ptr, nat>, dir: map<Tag, Ptr>, ls: Lists, usage: nat)

  /* ---------- totals over a map ---------- */

  ghost function Total(c: map<Ptr, nat>): nat
    decreases |c|
  {
    if c == map[] then 0
    else
      var p :| p in c;
      Shrinks(c, p);
      c[p] + Total(c - {p})
  }

  lemma Shrinks(c: map<Ptr, nat>, p: Ptr)
    requires p in c
    ensures |c - {p}| < |c|
  {
    assert c == (c - {p})[p := c[p]];
  }

  lemma {:induction false} TotalWithout(c: map<Ptr, nat>, p: Ptr)
    requires p in c
    ensures Total(c) == c[p] + Total(c - {p})
    decreases |c|
  {
    var q :| q in c && Total(c) == c[q] + Total(c - {q});
    if p != q {
      Shrinks(c, q);
      Shrinks(c, p);
      TotalWithout(c - {q}, p);
      TotalWithout(c - {p}, q);
      assert c - {q} - {p} == c - {p} - {q};
    }
  }

  lemma TotalWith(c: map<Ptr, nat>, p: Ptr, n: nat)
    requires p !in c
    ensures Total(c[p := n]) == Total(c) + n
  {
    TotalWithout(c[p := n], p);
    assert c[p := n] - {p} == c;
  }

  /* ---------- the invariant ---------- */

  /** The directory lists exactly the handles that are in the cache. */
  ghost predicate Indexes(es: map<Ptr, Entry>, tags: map<Ptr, Tag>, charge: map<Ptr, nat>, dir: map<Tag, Ptr>) {
    && tags.Keys == es.Keys && charge.Keys == es.Keys && NULL !in es && HEAD !in es
    && (forall g :: g in dir ==> dir[g] in es && tags[dir[g]] == g && es[dir[g]].inCache)
    && (forall p :: p in es && es[p].inCache ==> tags[p] in dir && dir[tags[p]] == p)
  }

  /** Exactly the handles in the cache that nobody refers to wait for eviction;
      a handle out of the cache exists only while somebody refers to it. */
  ghost predicate Waits(es: map<Ptr, Entry>, ls: Lists) {
    && ls.Ok() && Distinct(ls.order)
    && (forall p :: p in ls.order ==> p in es && es[p].inCache && es[p].refs == 0)
    && (forall p :: p in es && es[p].refs == 0 ==> es[p].inCache && p in ls.order)
  }

  ghost predicate Indexed(es: map<Ptr, Entry>, tags: map<Ptr, Tag>, charge: map<Ptr, nat>, dir: map<Tag, Ptr>) {
    forall n: nat {:trigger Open(n)} :: Open(n) ==> Indexes(es, tags, charge, dir)
  }

  ghost predicate Waiting(es: map<Ptr, Entry>, ls: Lists) {
    forall n: nat {:trigger Open(n)} :: Open(n) ==> Waits(es, ls)
  }

  function PoolCap(capacity: nat, ratio: real): real {
    capacity as real * ratio
  }

  ghost predicate CapIs(cap: real, capacity: nat, ratio: real) {
    forall n: nat {:trigger Open(n)} :: Open(n) ==> cap == PoolCap(capacity, ratio)
  }

  /** The pool capacities are the shares of the capacity that the ratios say. */
  ghost predicate LimitsOk(a: State) {
    && a.highRatio >= 0.0 && a.lowRatio >= 0.0 && a.highCap >= 0.0 && a.lowCap >= 0.0
    && CapIs(a.highCap, a.capacity, a.highRatio) && CapIs(a.lowCap, a.capacity, a.lowRatio)
  }

  ghost predicate Sound(a: State) {
    Indexed(a.es, a.tags, a.charge, a.dir) && Waiting(a.es, a.ls) && LimitsOk(a) && a.usage == Total(a.charge)
  }

  /** Over capacity, nothing is left to evict. */
  ghost predicate Inv(a: State) {
    Sound(a) && (a.usage > a.capacity ==> a.ls.order == [])
  }

  /* ---------- the operations ---------- */

  function Minus(x: nat, y: nat): nat {
    if y <= x then x - y else 0
  }

  /** The handle is freed and no longer charged. */
  function Discard(a: State, p: Ptr): State {
    a.(es := a.es - {p}, tags := a.tags - {p}, charge := a.charge - {p}, usage := Minus(a.usage, Of(a.charge, p)))
  }

  function Unqueued(ls: Lists, e: Ptr): Lists {
    if ls.nb + ls.nl <= |ls.order| && e in ls.order then Dropped(ls, e) else ls
  }

  /** The entry of a tag leaves the directory; it is freed unless somebody refers to it. */
  function Erased(a: State, tag: Tag): State {
    if tag !in a.dir || a.dir[tag] !in a.es then a
    else
      var e := a.dir[tag];
      if a.es[e].refs == 0 then Discard(a.(dir := a.dir - {tag}, ls := Unqueued(a.ls, e)), e)
      else a.(dir := a.dir - {tag}, es := a.es[e := a.es[e].(inCache := false)])
  }

  /** The oldest waiting entry is erased. */
  function EvictOne(a: State): State
    requires a.ls.order != []
  {
    if a.ls.order[0] in a.tags then Erased(a, a.tags[a.ls.order[0]]) else a
  }

  ghost function Evict(a: State, need: nat): (r: State)
    requires Sound(a)
    ensures Sound(r) && (r.usage + need > r.capacity ==> r.ls.order == [])
    ensures r.capacity == a.capacity && r.strict == a.strict && r.es.Keys <= a.es.Keys && |r.ls.order| <= |a.ls.order|
    decreases |a.ls.order|
  {
    if a.usage + need > a.capacity && a.ls.order != [] then
      EvictOneSound(a);
      Evict(EvictOne(a), need)
    else a
  }

  ghost function EvictAll(a: State): (r: State)
    requires Sound(a)
    ensures Sound(r) && r.ls.order == [] && r.capacity == a.capacity
    decreases |a.ls.order|
  {
    if a.ls.order != [] then
      EvictOneSound(a);
      EvictAll(EvictOne(a))
    else a
  }

  /** A new handle is charged; it is not in the directory yet. */
  function Allocated(a: State, p: Ptr, tag: Tag, c: nat, e: Entry): State {
    a.(es := a.es[p := e], tags := a.tags[p := tag], charge := a.charge[p := c], usage := a.usage + c)
  }

  /** The entry waits for eviction, as the newest of the segment it may enter. */
  function Enqueued(a: State, p: Ptr, e: Entry): State {
    if !(a.ls.nb + a.ls.nl <= |a.ls.order| && a.highCap >= 0.0 && a.lowCap >= 0.0) then a
    else
      a.(ls := Inserted(a.ls, a.charge, p, Target(WantOf(e), a.highRatio, a.lowRatio), a.highCap, a.lowCap))
  }

  /** A new entry takes the place of the one with its tag. */
  function Added(a: State, p: Ptr, tag: Tag, c: nat, value: nat, pri: Priority, keep: bool): State {
    var e := Entry(value, if keep then 1 else 0, true, false, pri);
    var b := Allocated(Erased(a, tag), p, tag, c, e);
    var b := b.(dir := b.dir[tag := p]);
    if keep then b else Enqueued(b, p, e)
  }

  datatype Status = Ok | OkOverwritten | MemoryLimit

  ghost predicate Refused(a: State, c: nat, keep: bool)
    requires Sound(a)
  {
    Evict(a, c).usage + c > a.capacity && (a.strict || !keep)
  }

  ghost function AfterInsert(a: State, p: Ptr, tag: Tag, c: nat, value: nat, pri: Priority, keep: bool): State
    requires Sound(a)
  {
    if Refused(a, c, keep) then Evict(a, c) else Added(Evict(a, c), p, tag, c, value, pri, keep)
  }

  ghost function InsertStatus(a: State, tag: Tag, c: nat, keep: bool): Status
    requires Sound(a)
  {
    if Refused(a, c, keep) then (if keep then MemoryLimit else Ok)
    else if tag in Evict(a, c).dir then OkOverwritten else Ok
  }

  function AfterLookup(a: State, tag: Tag): State {
    if tag !in a.dir || a.dir[tag] !in a.es then a
    else
      var e := a.dir[tag];
      a.(ls := if a.es[e].refs == 0 then Unqueued(a.ls, e) else a.ls,
         es := a.es[e := a.es[e].(refs := a.es[e].refs + 1, hit := true)])
  }

  function AfterRef(a: State, e: Ptr): State
    requires e in a.es
  {
    a.(es := a.es[e := a.es[e].(refs := a.es[e].refs + 1)])
  }

  /** The last reference is gone: the entry waits for eviction, or is freed. */
  function AfterRelease(a: State, e: Ptr, erase: bool): State
    requires e in a.es && a.es[e].refs > 0 && e in a.tags
  {
    var entry := a.es[e].(refs := a.es[e].refs - 1);
    var b := a.(es := a.es[e := entry]);
    if entry.refs > 0 then b
    else if !entry.inCache then Discard(b, e)
    else if a.usage > a.capacity || erase then Discard(b.(dir := a.dir - {a.tags[e]}), e)
    else Enqueued(b, e, entry)
  }

  ghost predicate StandaloneRefused(a: State, c: nat)
    requires Sound(a)
  {
    a.strict && Evict(a, c).usage + c > a.capacity
  }

  ghost function AfterStandalone(a: State, p: Ptr, tag: Tag, c: nat, value: nat, allowUncharged: bool): State
    requires Sound(a)
  {
    var e := Entry(value, 1, false, false, BottomPri);
    if !StandaloneRefused(a, c) then Allocated(Evict(a, c), p, tag, c, e)
    else if allowUncharged then Allocated(Evict(a, c), p, tag, 0, e)
    else Evict(a, c)
  }

  function Limited(a: State, capacity: nat): State {
    a.(capacity := capacity, highCap := PoolCap(capacity, a.highRatio), lowCap := PoolCap(capacity, a.lowRatio))
  }

  ghost function AfterSetCapacity(a: State, capacity: nat): State
    requires Sound(a)
  {
    LimitedSound(a, capacity);
    Evict(Limited(a, capacity), 0)
  }

  function Trimmed(a: State): State {
    if !(a.ls.nb + a.ls.nl <= |a.ls.order| && a.highCap >= 0.0 && a.lowCap >= 0.0) then a
    else a.(ls := Maintained(a.ls, a.charge, a.highCap, a.lowCap))
  }

  function AfterSetHighRatio(a: State, ratio: real): State {
    Trimmed(a.(highRatio := ratio, highCap := PoolCap(a.capacity, ratio)))
  }

  function AfterSetLowRatio(a: State, ratio: real): State {
    Trimmed(a.(lowRatio := ratio, lowCap := PoolCap(a.capacity, ratio)))
  }

  /* ---------- every operation keeps the invariant ---------- */

  lemma NonNegative(capacity: nat, ratio: real)
    requires ratio >= 0.0
    ensures PoolCap(capacity, ratio) >= 0.0
  {
  }

  lemma UnqueuedMembers(ls: Lists, e: Ptr, r: Lists)
    requires ls.Ok() && Distinct(ls.order) && r == Unqueued(ls, e)
    ensures r.Ok() && Distinct(r.order) && forall p :: p in r.order <==> p in ls.order && p != e
    ensures |r.order| == if e in ls.order then |ls.order| - 1 else |ls.order|
  {
    if e in ls.order {
      RemoveAtMembers(ls.order, IndexOf(ls.order, e));
    }
  }

  lemma DiscardTotal(a: State, p: Ptr)
    requires a.usage == Total(a.charge) && p in a.charge
    ensures Discard(a, p).usage == Total(Discard(a, p).charge) && Discard(a, p).usage + a.charge[p] == a.usage
  {
    TotalWithout(a.charge, p);
  }

  lemma FreedIndexed(es: map<Ptr, Entry>, tags: map<Ptr, Tag>, charge: map<Ptr, nat>, dir: map<Tag, Ptr>, e: Ptr)
    requires Indexed(es, tags, charge, dir) && e in es && e in tags
    ensures Indexed(es - {e}, tags - {e}, charge - {e}, if es[e].inCache then dir - {tags[e]} else dir)
  {
    assert Open(0);
  }

  lemma UnlistedIndexed(es: map<Ptr, Entry>, tags: map<Ptr, Tag>, charge: map<Ptr, nat>, dir: map<Tag, Ptr>, e: Ptr, entry: Entry)
    requires Indexed(es, tags, charge, dir) && e in es && e in tags && es[e].inCache && !entry.inCache
    ensures Indexed(es[e := entry], tags, charge, dir - {tags[e]})
  {
    assert Open(0);
  }

  lemma FreedWaiting(es: map<Ptr, Entry>, ls: Lists, e: Ptr, ls': Lists)
    requires Waiting(es, ls) && ls' == Unqueued(ls, e)
    ensures Waiting(es - {e}, ls')
  {
    assert Open(0);
    UnqueuedMembers(ls, e, ls');
  }

  lemma PinnedWaiting(es: map<Ptr, Entry>, ls: Lists, e: Ptr, entry: Entry, ls': Lists)
    requires Waiting(es, ls) && entry.refs > 0 && ls' == Unqueued(ls, e)
    ensures Waiting(es[e := entry], ls')
  {
    assert Open(0);
    UnqueuedMembers(ls, e, ls');
  }

  lemma NotWaiting(es: map<Ptr, Entry>, ls: Lists, e: Ptr)
    requires Waiting(es, ls) && (e !in es || es[e].refs > 0)
    ensures e !in ls.order && Unqueued(ls, e) == ls
  {
    assert Open(0);
  }

  lemma ListedFacts(a: State, tag: Tag, e: Ptr)
    requires Sound(a) && tag in a.dir && e == a.dir[tag]
    ensures e in a.es && e in a.tags && e in a.charge && a.tags[e] == tag && a.es[e].inCache
    ensures e in a.ls.order <==> a.es[e].refs == 0
    ensures NULL !in a.es && HEAD !in a.es
  {
    assert Open(0);
  }

  lemma ErasedSound(a: State, tag: Tag, r: State)
    requires Sound(a) && r == Erased(a, tag)
    ensures Sound(r) && r.usage <= a.usage && tag !in r.dir && r.es.Keys <= a.es.Keys
  {
    if tag in a.dir {
      var e := a.dir[tag];
      ListedFacts(a, tag, e);
      if a.es[e].refs == 0 {
        FreedIndexed(a.es, a.tags, a.charge, a.dir, e);
        FreedWaiting(a.es, a.ls, e, r.ls);
        DiscardTotal(a, e);
      } else {
        UnlistedIndexed(a.es, a.tags, a.charge, a.dir, e, r.es[e]);
        NotWaiting(a.es, a.ls, e);
        PinnedWaiting(a.es, a.ls, e, r.es[e], a.ls);
      }
    }
  }

  lemma OldestFacts(a: State, e: Ptr)
    requires Sound(a) && a.ls.order != [] && e == a.ls.order[0]
    ensures e in a.es && e in a.tags && e in a.charge && a.tags[e] in a.dir && a.dir[a.tags[e]] == e && a.es[e].refs == 0 && a.es[e].inCache
  {
    assert Open(0);
    assert e in a.ls.order;
  }

  lemma EvictOneSound(a: State)
    requires Sound(a) && a.ls.order != []
    ensures Sound(EvictOne(a)) && |EvictOne(a).ls.order| == |a.ls.order| - 1
    ensures EvictOne(a).capacity == a.capacity && EvictOne(a).strict == a.strict && EvictOne(a).es.Keys <= a.es.Keys
  {
    var e := a.ls.order[0];
    OldestFacts(a, e);
    ErasedSound(a, a.tags[e], EvictOne(a));
    assert a.ls.Ok() && Distinct(a.ls.order) by { assert Open(0); }
    UnqueuedMembers(a.ls, e, EvictOne(a).ls);
  }

  lemma LimitedSound(a: State, capacity: nat)
    requires Sound(a)
    ensures Sound(Limited(a, capacity))
  {
    NonNegative(capacity, a.highRatio);
    NonNegative(capacity, a.lowRatio);
  }

  predicate FreshPtr(a: State, p: Ptr) {
    p !in a.es && p != NULL && p != HEAD
  }

  lemma NewIndexed(es: map<Ptr, Entry>, tags: map<Ptr, Tag>, charge: map<Ptr, nat>, dir: map<Tag, Ptr>, p: Ptr, tag: Tag, c: nat, e: Entry)
    requires Indexed(es, tags, charge, dir) && p !in es && p != NULL && p != HEAD && (e.inCache ==> tag !in dir)
    ensures Indexed(es[p := e], tags[p := tag], charge[p := c], if e.inCache then dir[tag := p] else dir)
  {
    assert Open(0);
  }

  lemma SameIndexed(es: map<Ptr, Entry>, tags: map<Ptr, Tag>, charge: map<Ptr, nat>, dir: map<Tag, Ptr>, p: Ptr, e: Entry)
    requires Indexed(es, tags, charge, dir) && p in es && e.inCache == es[p].inCache
    ensures Indexed(es[p := e], tags, charge, dir)
  {
    assert Open(0);
  }

  lemma QueuedWaiting(es: map<Ptr, Entry>, ls: Lists, p: Ptr, entry: Entry, ls': Lists)
    requires Waiting(es, ls) && (p in es ==> es[p].refs > 0) && entry.refs == 0 && entry.inCache
    requires ls'.Ok() && Distinct(ls'.order) && forall q :: q in ls'.order <==> q == p || q in ls.order
    ensures Waiting(es[p := entry], ls')
  {
    assert Open(0);
  }

  lemma EnqueuedMembers(a: State, p: Ptr, e: Entry, r: State)
    requires a.ls.Ok() && Distinct(a.ls.order) && LimitsOk(a) && p !in a.ls.order && r == Enqueued(a, p, e)
    ensures r == a.(ls := r.ls) && r.ls.Ok() && Distinct(r.ls.order) && forall q :: q in r.ls.order <==> q == p || q in a.ls.order
  {
    var k := Spot(a.ls, Target(WantOf(e), a.highRatio, a.lowRatio));
    assert r.ls.order == a.ls.order[..k] + [p] + a.ls.order[k..];
    InsertAtDistinct(a.ls.order, k, p, r.ls.order);
    InsertAtMembers(a.ls.order, k, p, r.ls.order);
  }

  lemma OrderOk(a: State)
    requires Sound(a)
    ensures a.ls.Ok() && Distinct(a.ls.order) && NULL !in a.es && HEAD !in a.es
    ensures a.tags.Keys == a.es.Keys && a.charge.Keys == a.es.Keys
    ensures forall p :: p in a.ls.order ==> p in a.es && a.es[p].refs == 0
  {
    assert Open(0);
  }

  /** Adding an entry whose tag is not listed. */
  lemma KeptSound(b: State, p: Ptr, tag: Tag, c: nat, e: Entry, r: State)
    requires Sound(b) && FreshPtr(b, p) && tag !in b.dir && e.inCache && e.refs > 0
    requires r == Allocated(b, p, tag, c, e).(dir := b.dir[tag := p])
    ensures Sound(r)
  {
    OrderOk(b);
    NewIndexed(b.es, b.tags, b.charge, b.dir, p, tag, c, e);
    TotalWith(b.charge, p, c);
    NotWaiting(b.es, b.ls, p);
    PinnedWaiting(b.es, b.ls, p, e, b.ls);
  }

  lemma UnkeptSound(b: State, p: Ptr, tag: Tag, c: nat, e: Entry, b': State, r: State)
    requires Sound(b) && FreshPtr(b, p) && tag !in b.dir && e.inCache && e.refs == 0
    requires b' == Allocated(b, p, tag, c, e).(dir := b.dir[tag := p]) && r == Enqueued(b', p, e)
    ensures Sound(r) && r == b'.(ls := r.ls)
  {
    OrderOk(b);
    NewIndexed(b.es, b.tags, b.charge, b.dir, p, tag, c, e);
    TotalWith(b.charge, p, c);
    EnqueuedMembers(b', p, e, r);
    QueuedWaiting(b.es, b.ls, p, e, r.ls);
  }

  lemma AddedSound(a: State, p: Ptr, tag: Tag, c: nat, value: nat, pri: Priority, keep: bool, b: State, r: State)
    requires Sound(a) && FreshPtr(a, p) && b == Erased(a, tag) && r == Added(a, p, tag, c, value, pri, keep)
    ensures Sound(r) && r.usage <= a.usage + c && r.capacity == a.capacity && r.strict == a.strict
    ensures keep ==> r.ls == b.ls
    ensures tag in r.dir && r.dir[tag] == p && p in r.es
  {
    ErasedSound(a, tag, b);
    var e := Entry(value, if keep then 1 else 0, true, false, pri);
    if keep {
      KeptSound(b, p, tag, c, e, r);
    } else {
      UnkeptSound(b, p, tag, c, e, Allocated(b, p, tag, c, e).(dir := b.dir[tag := p]), r);
    }
  }

  lemma ErasedShrinks(a: State, tag: Tag)
    requires Sound(a) && a.ls.order == []
    ensures Erased(a, tag).ls.order == []
  {
  }

  lemma InsertInv(a: State, p: Ptr, tag: Tag, c: nat, value: nat, pri: Priority, keep: bool, r: State)
    requires Inv(a) && FreshPtr(a, p) && r == AfterInsert(a, p, tag, c, value, pri, keep)
    ensures Inv(r)
  {
    var b := Evict(a, c);
    if !Refused(a, c, keep) {
      AddedSound(b, p, tag, c, value, pri, keep, Erased(b, tag), r);
      if b.usage + c > b.capacity {
        ErasedShrinks(b, tag);
      }
    }
  }

  lemma LookupInv(a: State, tag: Tag, r: State)
    requires Inv(a) && r == AfterLookup(a, tag)
    ensures Inv(r)
  {
    if tag in a.dir {
      var e := a.dir[tag];
      ListedFacts(a, tag, e);
      SameIndexed(a.es, a.tags, a.charge, a.dir, e, r.es[e]);
      if a.es[e].refs > 0 {
        NotWaiting(a.es, a.ls, e);
      }
      PinnedWaiting(a.es, a.ls, e, r.es[e], r.ls);
    }
  }

  lemma RefInv(a: State, e: Ptr, r: State)
    requires Inv(a) && e in a.es && a.es[e].refs > 0 && r == AfterRef(a, e)
    ensures Inv(r)
  {
    StillHeldInv(a, e, r.es[e], r);
  }

  lemma StillHeldInv(a: State, e: Ptr, entry: Entry, r: State)
    requires Inv(a) && e in a.es && a.es[e].refs > 0 && entry.refs > 0 && entry.inCache == a.es[e].inCache
    requires r == a.(es := a.es[e := entry])
    ensures Inv(r)
  {
    SameIndexed(a.es, a.tags, a.charge, a.dir, e, entry);
    NotWaiting(a.es, a.ls, e);
    PinnedWaiting(a.es, a.ls, e, entry, a.ls);
  }

  lemma FreedInv(a: State, e: Ptr, r: State)
    requires Inv(a) && e in a.es && e in a.tags && a.es[e].refs > 0
    requires r == Discard(a.(dir := if a.es[e].inCache then a.dir - {a.tags[e]} else a.dir), e)
    ensures Inv(r) && r.usage <= a.usage
  {
    OrderOk(a);
    FreedIndexed(a.es, a.tags, a.charge, a.dir, e);
    NotWaiting(a.es, a.ls, e);
    FreedWaiting(a.es, a.ls, e, a.ls);
    DiscardTotal(a, e);
  }

  lemma EnqueuedInv(a: State, e: Ptr, entry: Entry, b: State, r: State)
    requires Inv(a) && e in a.es && a.es[e].refs > 0 && a.es[e].inCache && entry.refs == 0 && entry.inCache && a.usage <= a.capacity
    requires b == a.(es := a.es[e := entry]) && r == Enqueued(b, e, entry)
    ensures Inv(r) && r.usage == a.usage
  {
    OrderOk(a);
    NotWaiting(a.es, a.ls, e);
    SameIndexed(a.es, a.tags, a.charge, a.dir, e, entry);
    EnqueuedMembers(b, e, entry, r);
    QueuedWaiting(a.es, a.ls, e, entry, r.ls);
  }

  lemma ReleaseInv(a: State, e: Ptr, erase: bool, r: State)
    requires Inv(a) && e in a.es && e in a.tags && a.es[e].refs > 0 && r == AfterRelease(a, e, erase)
    ensures Inv(r) && r.usage <= a.usage
  {
    var entry := a.es[e].(refs := a.es[e].refs - 1);
    if entry.refs > 0 {
      StillHeldInv(a, e, entry, r);
    } else if !entry.inCache || a.usage > a.capacity || erase {
      assert r.es == a.es - {e};
      FreedInv(a, e, r);
    } else {
      EnqueuedInv(a, e, entry, a.(es := a.es[e := entry]), r);
    }
  }

  lemma AllocatedSound(a: State, p: Ptr, tag: Tag, c: nat, e: Entry, r: State)
    requires Sound(a) && FreshPtr(a, p) && e.refs > 0 && !e.inCache && r == Allocated(a, p, tag, c, e)
    ensures Sound(r)
  {
    OrderOk(a);
    NewIndexed(a.es, a.tags, a.charge, a.dir, p, tag, c, e);
    NotWaiting(a.es, a.ls, p);
    PinnedWaiting(a.es, a.ls, p, e, a.ls);
    TotalWith(a.charge, p, c);
  }

  lemma StandaloneInv(a: State, p: Ptr, tag: Tag, c: nat, value: nat, allowUncharged: bool, r: State)
    requires Inv(a) && FreshPtr(a, p) && r == AfterStandalone(a, p, tag, c, value, allowUncharged)
    ensures Inv(r)
  {
    var b, e := Evict(a, c), Entry(value, 1, false, false, BottomPri);
    if !StandaloneRefused(a, c) {
      AllocatedSound(b, p, tag, c, e, r);
    } else if allowUncharged {
      AllocatedSound(b, p, tag, 0, e, r);
    }
  }

  lemma SetCapacityInv(a: State, capacity: nat, r: State)
    requires Sound(a) && r == AfterSetCapacity(a, capacity)
    ensures Inv(r)
  {
    LimitedSound(a, capacity);
  }

  lemma TrimmedWaiting(es: map<Ptr, Entry>, ls: Lists, ls': Lists)
    requires Waiting(es, ls) && ls'.Ok() && ls'.order == ls.order
    ensures Waiting(es, ls')
  {
    assert Open(0);
  }

  lemma SetRatioInv(a: State, ratio: real, high: bool, r: State)
    requires Inv(a) && ratio >= 0.0 && r == if high then AfterSetHighRatio(a, ratio) else AfterSetLowRatio(a, ratio)
    ensures Inv(r)
  {
    NonNegative(a.capacity, ratio);
    OrderOk(a);
    TrimmedWaiting(a.es, a.ls, r.ls);
  }

  /* ---------- eviction takes the oldest entries, and no more than it must ---------- */

  lemma EvictOneIs(a: State, e: Ptr, r: State)
    requires Sound(a) && a.ls.order != [] && r == EvictOne(a)
    requires e == a.ls.order[0]
    ensures e in a.charge && r.ls.order == a.ls.order[1..] && r.usage + a.charge[e] == a.usage
    ensures r.es == a.es - {e} && r.charge == a.charge - {e}
  {
    OldestFacts(a, e);
    OrderOk(a);
    assert IndexOf(a.ls.order, e) == 0;
    assert Without(a.ls.order, 0) == a.ls.order[1..];
    DiscardTotal(a, e);
  }

  /** `Evict` frees the first `k` waiting entries: all of them, or just enough. */
  ghost predicate Evicts(a: State, need: nat, r: State, k: nat) {
    && k <= |a.ls.order|
    && r.ls.order == a.ls.order[k..]
    && r.es == a.es - (set p | p in a.ls.order[..k])
    && r.usage + Sum(a.charge, a.ls.order[..k]) == a.usage
    && (r.usage + need <= a.capacity || k == |a.ls.order|)
    && (k > 0 ==> r.usage + Of(a.charge, a.ls.order[k - 1]) + need > a.capacity)
  }

  lemma {:induction false} EvictIsLeast(a: State, need: nat, r: State) returns (k: nat)
    requires Sound(a) && r == Evict(a, need)
    ensures Evicts(a, need, r, k)
    decreases |a.ls.order|
  {
    var order := a.ls.order;
    if a.usage + need > a.capacity && order != [] {
      var b, e := EvictOne(a), order[0];
      EvictOneSound(a);
      EvictOneIs(a, e, b);
      var j := EvictIsLeast(b, need, r);
      OrderOk(a);
      EvictsMore(a, need, b, e, r, j);
      k := j + 1;
    } else {
      assert order[0..] == order && order[..0] == [];
      k := 0;
    }
  }

  lemma EvictsMore(a: State, need: nat, b: State, e: Ptr, r: State, k: nat)
    requires a.ls.order != [] && e == a.ls.order[0] && Distinct(a.ls.order) && a.usage + need > a.capacity
    requires b.ls.order == a.ls.order[1..] && b.es == a.es - {e} && b.charge == a.charge - {e} && b.usage + Of(a.charge, e) == a.usage
    requires b.capacity == a.capacity && Evicts(b, need, r, k)
    ensures Evicts(a, need, r, k + 1)
  {
    var order, rest, k' := a.ls.order, b.ls.order, k + 1;
    assert order[..k'] == [e] + rest[..k];
    assert order[..k'][1..] == rest[..k];
    assert e !in rest;
    SumAgree(a.charge, b.charge, rest[..k]);
    assert order[k'..] == rest[k..];
    assert k > 0 ==> order[k' - 1] == rest[k - 1] && rest[k - 1] in rest;
    assert forall p :: p in order[..k'] <==> p == e || p in rest[..k];
  }
}
