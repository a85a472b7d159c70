/**
 What the operations of a shard mean to a caller, in terms of the charges that cannot be evicted: when an entry is refused, where
 it waits, and when it is freed.
 */
module LruMeaning {
  import opened Coding
  import opened Seal
  import opened LruList
  import opened LruTable
  import opened LruSpec
  import opened LruRuns

  /** Eviction makes room if and only if what cannot be evicted leaves that much. */
  lemma EvictLeaves(a: State, need: nat, r: State, pinned: nat)
    requires Sound(a) && r == Evict(a, need) && pinned == Total(a.charge - (set q | q in a.ls.order))
    ensures pinned <= r.usage && (r.usage + need > a.capacity <==> pinned + need > a.capacity)
  {
    PinnedIsUnevictable(a);
    var order := a.ls.order;
    var k := EvictIsLeast(a, need, r);
    assert order == order[..k] + order[k..];
    SumConcat(a.charge, order[..k], order[k..]);
    if k == |order| {
      assert order[k..] == [];
    }
  }

  /** An entry is refused if and only if it does not fit beside what cannot be evicted, and the limit is strict or the caller wants
      no handle. */
  lemma RefusedIff(a: State, c: nat, keep: bool, pinned: nat)
    requires Sound(a) && pinned == Total(a.charge - (set q | q in a.ls.order))
    ensures Refused(a, c, keep) <==> pinned + c > a.capacity && (a.strict || !keep)
  {
    EvictLeaves(a, c, Evict(a, c), pinned);
  }

  lemma StandaloneRefusedIff(a: State, c: nat, pinned: nat)
    requires Sound(a) && pinned == Total(a.charge - (set q | q in a.ls.order))
    ensures StandaloneRefused(a, c) <==> a.strict && pinned + c > a.capacity
  {
    EvictLeaves(a, c, Evict(a, c), pinned);
  }

  /* ---------- inserting ---------- */

  /** The directory lists, of the handles that are left, those it listed. */
  ghost predicate ListsWhatIsLeft(a: State, r: State) {
    && (forall g :: g in r.dir ==> g in a.dir && r.dir[g] == a.dir[g])
    && (forall g :: g in a.dir && a.dir[g] in r.es ==> g in r.dir)
  }

  lemma EvictOneLists(a: State, r: State)
    requires Sound(a) && a.ls.order != [] && r == EvictOne(a)
    ensures ListsWhatIsLeft(a, r)
  {
    var e := a.ls.order[0];
    OldestFacts(a, e);
    EvictOneIs(a, e, r);
    assert r.dir == a.dir - {a.tags[e]};
  }

  lemma {:induction false} EvictLists(a: State, need: nat, r: State)
    requires Sound(a) && r == Evict(a, need)
    ensures ListsWhatIsLeft(a, r)
    decreases |a.ls.order|
  {
    if a.usage + need > a.capacity && a.ls.order != [] {
      var b := EvictOne(a);
      EvictOneSound(a);
      EvictOneLists(a, b);
      EvictLists(b, need, r);
    } else {
      assert Open(0);
    }
  }

  /** Apart from `tag`, no key is new or has another handle, and those whose entries do not wait stay listed. */
  ghost predicate ListsPinned(a: State, dir: map<Tag, Ptr>, tag: Option<Tag>) {
    && (forall g :: g in dir && Some(g) != tag ==> g in a.dir && dir[g] == a.dir[g])
    && (forall g :: g in a.dir && Some(g) != tag && a.dir[g] !in a.ls.order ==> g in dir)
  }

  /** The entry that was put in is the one its key finds, as it was given. */
  ghost predicate IsIn(a: State, p: Ptr, tag: Tag, c: nat, value: nat, pri: Priority, keep: bool, r: State) {
    && tag in r.dir && r.dir[tag] == p
    && p in r.es && r.es[p] == Entry(value, if keep then 1 else 0, true, false, pri)
    && p in r.tags && r.tags[p] == tag && p in r.charge && r.charge[p] == c
    && (p in r.ls.order <==> !keep)
    && ListsPinned(a, r.dir, Some(tag))
  }

  /** Only the entry of this key leaves the directory. */
  lemma ErasedLists(a: State, tag: Tag, r: State)
    requires Sound(a) && r == Erased(a, tag)
    ensures r.dir == a.dir - {tag}
  {
    if tag in a.dir {
      ListedFacts(a, tag, a.dir[tag]);
    } else {
      assert a.dir - {tag} == a.dir;
    }
  }

  lemma NewIsIn(d: State, p: Ptr, tag: Tag, c: nat, e: Entry, b: State, r: State)
    requires Sound(d) && FreshPtr(d, p) && b == Allocated(d, p, tag, c, e).(dir := d.dir[tag := p])
    requires r == if e.refs > 0 then b else Enqueued(b, p, e)
    ensures r == b.(ls := r.ls) && (p in r.ls.order <==> e.refs == 0)
  {
    OrderOk(d);
    if e.refs == 0 {
      EnqueuedMembers(b, p, e, r);
    }
  }

  lemma AddedIsIn(b: State, p: Ptr, tag: Tag, c: nat, value: nat, pri: Priority, keep: bool, e: Entry, r: State)
    requires Sound(b) && FreshPtr(b, p) && r == Added(b, p, tag, c, value, pri, keep)
    requires e == Entry(value, if keep then 1 else 0, true, false, pri)
    ensures r.dir == (b.dir - {tag})[tag := p] && p in r.charge && r.charge[p] == c && p in r.tags && r.tags[p] == tag
    ensures p in r.es && r.es[p] == e && (p in r.ls.order <==> !keep)
  {
    var d := Erased(b, tag);
    ErasedSound(b, tag, d);
    ErasedLists(b, tag, d);
    NewIsIn(d, p, tag, c, e, Allocated(d, p, tag, c, e).(dir := d.dir[tag := p]), r);
  }

  lemma EvictListsPinned(a: State, need: nat, r: State)
    requires Inv(a) && r == Evict(a, need)
    ensures ListsPinned(a, r.dir, None)
  {
    var k := EvictIsLeast(a, need, r);
    EvictLists(a, need, r);
    forall g | g in a.dir && a.dir[g] !in a.ls.order ensures g in r.dir {
      ListedFacts(a, g, a.dir[g]);
      assert a.dir[g] in r.es;
    }
  }

  lemma InsertedIsIn(a: State, p: Ptr, tag: Tag, c: nat, value: nat, pri: Priority, keep: bool, r: State)
    requires Inv(a) && FreshPtr(a, p) && !Refused(a, c, keep) && r == AfterInsert(a, p, tag, c, value, pri, keep)
    ensures IsIn(a, p, tag, c, value, pri, keep, r)
  {
    var b := Evict(a, c);
    EvictListsPinned(a, c, b);
    AddedIsIn(b, p, tag, c, value, pri, keep, Entry(value, if keep then 1 else 0, true, false, pri), r);
  }

  /** Inserting an entry. */
  lemma InsertMeans(a: State, p: Ptr, tag: Tag, c: nat, value: nat, pri: Priority, keep: bool, r: State, pinned: nat)
    requires Inv(a) && FreshPtr(a, p) && r == AfterInsert(a, p, tag, c, value, pri, keep)
    requires pinned == Total(a.charge - (set q | q in a.ls.order))
    ensures if pinned + c > a.capacity && (a.strict || !keep) then p !in r.es && r.ls.order == [] && r.usage == pinned
            else IsIn(a, p, tag, c, value, pri, keep, r)
  {
    RefusedIff(a, c, keep, pinned);
    if Refused(a, c, keep) {
      PinnedIsUnevictable(a);
      var order := a.ls.order;
      var k := EvictIsLeast(a, c, r);
      assert k == |order| && order[..k] == order;
    } else {
      InsertedIsIn(a, p, tag, c, value, pri, keep, r);
    }
  }

  /* ---------- waiting ---------- */

  /** Where an entry starts to wait: as the newest of all when it has high priority or was found before, and there is a high segment,
      in which it stays if and only if it fits there by itself. */
  lemma EnqueuedHigh(a: State, p: Ptr, e: Entry, r: State)
    requires a.ls.Ok() && LimitsOk(a) && p !in a.ls.order && r == Enqueued(a, p, e) && a.highRatio > 0.0 && (e.pri.HighPri? || e.hit)
    ensures r == a.(ls := r.ls) && r.ls.Ok() && r.ls.order == a.ls.order + [p]
    ensures p in r.ls.High() <==> Of(a.charge, p) as real <= a.highCap
  {
    assert a.ls.order[..|a.ls.order|] + [p] + a.ls.order[|a.ls.order|..] == a.ls.order + [p];
    NewestInHigh(a.ls, a.charge, p, Lists(a.ls.order + [p], a.ls.nb, a.ls.nl), a.highCap, a.lowCap, r.ls);
  }

  /** Otherwise it is the newest of the low segment, if there is one and it has any priority or was found, or of the bottom one. */
  lemma EnqueuedBelow(a: State, p: Ptr, e: Entry, r: State)
    requires a.ls.Ok() && LimitsOk(a) && r == Enqueued(a, p, e) && !(a.highRatio > 0.0 && (e.pri.HighPri? || e.hit))
    ensures if a.lowRatio > 0.0 && (e.pri.HighPri? || e.pri.LowPri? || e.hit) then
              var k := a.ls.nb + a.ls.nl; r.ls.order == a.ls.order[..k] + [p] + a.ls.order[k..]
            else
              r.ls == Lists(a.ls.order[..a.ls.nb] + [p] + a.ls.order[a.ls.nb..], a.ls.nb + 1, a.ls.nl)
  {
    var pool := Target(WantOf(e), a.highRatio, a.lowRatio);
    assert pool == if a.lowRatio > 0.0 && (e.pri.HighPri? || e.pri.LowPri? || e.hit) then LowPool else BottomPool;
    assert r.ls == Inserted(a.ls, a.charge, p, pool, a.highCap, a.lowCap);
  }

  lemma NewestInHigh(ls: Lists, charge: map<Ptr, nat>, p: Ptr, grown: Lists, highCap: real, lowCap: real, r: Lists)
    requires ls.Ok() && p !in ls.order && highCap >= 0.0 && lowCap >= 0.0 && grown == Lists(ls.order + [p], ls.nb, ls.nl)
    requires r == Maintained(grown, charge, highCap, lowCap)
    ensures p in r.High() <==> Of(charge, p) as real <= highCap
  {
    var cut, k, j := MaintainedParts(grown, charge, highCap, lowCap, r);
    var high, n := grown.High(), |grown.High()| - 1;
    assert high[n..] == [p] && [p][1..] == [];
    SpillIsLeast(charge, high, highCap, n);
    assert Sum(charge, [p]) == Of(charge, p);
    if k <= n {
      assert r.High()[|r.High()| - 1] == p;
    } else {
      assert r.High() == [];
    }
  }

  /** A lookup marks the entry as found, gives out a reference and takes it out of the line; nothing else changes. */
  lemma LookupMeans(a: State, tag: Tag, e: Ptr, r: State)
    requires Inv(a) && tag in a.dir && e == a.dir[tag] && r == AfterLookup(a, tag)
    ensures e in a.es && r.es == a.es[e := a.es[e].(refs := a.es[e].refs + 1, hit := true)]
    ensures e !in r.ls.order && forall q :: q != e ==> (q in r.ls.order <==> q in a.ls.order)
    ensures r == a.(es := r.es, ls := r.ls)
  {
    ListedFacts(a, tag, e);
    OrderOk(a);
    if a.es[e].refs == 0 {
      UnqueuedMembers(a.ls, e, r.ls);
    }
  }

  /** Giving up a reference frees the handle if and only if it was the last one, and the entry has left the cache, or must go: the
      shard is over its capacity, or the caller asks for it. An entry whose last reference goes otherwise waits. */
  lemma ReleaseMeans(a: State, e: Ptr, erase: bool, r: State)
    requires Inv(a) && e in a.es && e in a.tags && a.es[e].refs > 0 && r == AfterRelease(a, e, erase)
    ensures e !in r.es <==> a.es[e].refs == 1 && (!a.es[e].inCache || a.usage > a.capacity || erase)
    ensures e in r.es ==> r.es == a.es[e := a.es[e].(refs := a.es[e].refs - 1)] && (e in r.ls.order <==> a.es[e].refs == 1)
    ensures e !in r.es ==> r.es == a.es - {e} && r.ls == a.ls && r.usage + Of(a.charge, e) == a.usage
    ensures r.dir == if e !in r.es && a.es[e].inCache then a.dir - {a.tags[e]} else a.dir
  {
    NotWaiting(a.es, a.ls, e);
    var entry := a.es[e].(refs := a.es[e].refs - 1);
    if entry.refs == 0 {
      if !entry.inCache || a.usage > a.capacity || erase {
        OrderOk(a);
        DiscardTotal(a, e);
        FreedIs(a, e, entry, r);
      } else {
        var st := a.(es := a.es[e := entry]);
        OrderOk(a);
        EnqueuedMembers(st, e, entry, r);
      }
    }
  }

  lemma FreedIs(a: State, e: Ptr, entry: Entry, r: State)
    requires e in a.tags && r == Discard(a.(es := a.es[e := entry], dir := if entry.inCache then a.dir - {a.tags[e]} else a.dir), e)
    ensures r == Discard(a.(dir := r.dir), e)
  {
    assert a.es[e := entry] - {e} == a.es - {e};
  }

  /** An entry that is found and given back waits as the newest of all, when there is a high segment; in it if it fits there. */
  lemma FoundWaitsInHigh(a: State, tag: Tag, e: Ptr, b: State, r: State)
    requires Inv(a) && tag in a.dir && e == a.dir[tag] && e in a.ls.order && a.highRatio > 0.0
    requires b == AfterLookup(a, tag) && e in b.es && e in b.tags && b.es[e].refs > 0 && r == AfterRelease(b, e, false)
    ensures e in a.es && r.es == a.es[e := a.es[e].(hit := true)] && r.dir == a.dir && r.usage == a.usage
    ensures r.ls.Ok() && r.ls.order == b.ls.order + [e] && (e in r.ls.High() <==> Of(a.charge, e) as real <= a.highCap)
  {
    LookupMeans(a, tag, e, b);
    LookupInv(a, tag, b);
    ListedFacts(a, tag, e);
    OrderOk(b);
    GivenBack(a, e, a.es[e].(hit := true), b, r);
  }

  lemma GivenBack(a: State, e: Ptr, entry: Entry, b: State, r: State)
    requires e in a.es && a.es[e].refs == 0 && entry == a.es[e].(hit := true) && entry.inCache && b.usage <= b.capacity
    requires b == a.(es := a.es[e := entry.(refs := 1)], ls := b.ls) && b.ls.Ok() && e !in b.ls.order && LimitsOk(b) && b.highRatio > 0.0
    requires e in b.tags && r == AfterRelease(b, e, false)
    ensures r.es == a.es[e := entry] && r.dir == a.dir && r.usage == a.usage
    ensures r.ls.Ok() && r.ls.order == b.ls.order + [e] && (e in r.ls.High() <==> Of(a.charge, e) as real <= a.highCap)
  {
    assert b.es[e := entry] == a.es[e := entry];
    EnqueuedHigh(b.(es := a.es[e := entry]), e, entry, r);
  }

  /** A new ratio gives its segment that share of the capacity; both segments fit their shares afterwards, and nothing leaves the line
      or changes its place in it. */
  lemma RatioMeans(a: State, ratio: real, high: bool, cap: real, r: State)
    requires Inv(a) && ratio >= 0.0 && cap == a.capacity as real * ratio
    requires r == if high then AfterSetHighRatio(a, ratio) else AfterSetLowRatio(a, ratio)
    ensures r == if high then a.(highRatio := ratio, highCap := cap, ls := r.ls) else a.(lowRatio := ratio, lowCap := cap, ls := r.ls)
    ensures r.ls.Ok() && r.ls.order == a.ls.order
    ensures Sum(r.charge, r.ls.High()) as real <= r.highCap && Sum(r.charge, r.ls.Low()) as real <= r.lowCap
  {
    var b := if high then a.(highRatio := ratio, highCap := cap) else a.(lowRatio := ratio, lowCap := cap);
    RatioSet(a, ratio, high, cap, b, r);
    OrderOk(a);
    TrimmedFits(b, r);
  }

  lemma RatioFits(a: State, ratio: real, high: bool, r: State)
    requires Inv(a) && ratio >= 0.0 && r == if high then AfterSetHighRatio(a, ratio) else AfterSetLowRatio(a, ratio)
    ensures r.ls.Ok() && r.ls.order == a.ls.order
    ensures Sum(r.charge, r.ls.High()) as real <= r.highCap && Sum(r.charge, r.ls.Low()) as real <= r.lowCap
  {
    RatioMeans(a, ratio, high, a.capacity as real * ratio, r);
  }

  lemma RatioSet(a: State, ratio: real, high: bool, cap: real, b: State, r: State)
    requires ratio >= 0.0 && cap == a.capacity as real * ratio
    requires b == if high then a.(highRatio := ratio, highCap := cap) else a.(lowRatio := ratio, lowCap := cap)
    requires r == if high then AfterSetHighRatio(a, ratio) else AfterSetLowRatio(a, ratio)
    ensures r == Trimmed(b) && cap >= 0.0
  {
    NonNegative(a.capacity, ratio);
    assert cap == PoolCap(a.capacity, ratio);
    if high {
      assert r == AfterSetHighRatio(a, ratio);
    } else {
      assert r == AfterSetLowRatio(a, ratio);
    }
  }

  lemma TrimmedFits(a: State, r: State)
    requires a.ls.Ok() && a.highCap >= 0.0 && a.lowCap >= 0.0 && r == Trimmed(a)
    ensures r == a.(ls := r.ls) && r.ls.Ok() && r.ls.order == a.ls.order
    ensures Sum(r.charge, r.ls.High()) as real <= r.highCap && Sum(r.charge, r.ls.Low()) as real <= r.lowCap
  {
    MaintainedHighFits(a.ls, a.charge, a.highCap, a.lowCap, r.ls);
    MaintainedLowFits(a.ls, a.charge, a.highCap, a.lowCap, r.ls);
  }

  /* ---------- erasing ---------- */

  /** Erasing takes the key out of the directory and frees its entry, unless somebody refers to it; no other key is touched. */
  lemma EraseMeans(a: State, tag: Tag, r: State)
    requires Inv(a) && r == Erased(a, tag)
    ensures r.dir == a.dir - {tag}
    ensures tag !in a.dir ==> r == a
    ensures tag in a.dir ==>
              var e := a.dir[tag];
              e in a.es && if a.es[e].refs == 0 then r.es == a.es - {e} && e !in r.ls.order && r.usage + Of(a.charge, e) == a.usage
                           else r.es == a.es[e := a.es[e].(inCache := false)] && r.usage == a.usage && r.ls == a.ls
  {
    if tag in a.dir {
      var e := a.dir[tag];
      ListedFacts(a, tag, e);
      OrderOk(a);
      DiscardTotal(a, e);
      UnqueuedMembers(a.ls, e, Unqueued(a.ls, e));
    } else {
      assert a.dir - {tag} == a.dir;
    }
  }

  /* ---------- standalone handles ---------- */

  lemma StandaloneMeans(a: State, p: Ptr, tag: Tag, c: nat, value: nat, allowUncharged: bool, r: State, pinned: nat)
    requires Inv(a) && FreshPtr(a, p) && r == AfterStandalone(a, p, tag, c, value, allowUncharged)
    requires pinned == Total(a.charge - (set q | q in a.ls.order))
    ensures var over := a.strict && pinned + c > a.capacity;
            if over && !allowUncharged then p !in r.es
            else
              && p in r.es && r.es[p] == Entry(value, 1, false, false, BottomPri) && p in r.charge && r.charge[p] == (if over then 0 else c)
              && p in r.tags && r.tags[p] == tag
    ensures ListsPinned(a, r.dir, None)
  {
    StandaloneRefusedIff(a, c, pinned);
    EvictListsPinned(a, c, Evict(a, c));
  }
}
