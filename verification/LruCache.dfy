/**
 The cache shard as an object: one record that its methods replace, next to the state it represents.
 Every method keeps the invariant and moves to the state that `LruSpec` gives.
 */
module LruCache {
  import opened Seal
  import opened LruList
  import opened LruTable
  import opened LruSpec
  import opened LruRuns
  import opened LruMeaning
  import LruShard

  class LRUCacheShard {
    var s: LruShard.Shard
    ghost var a: State

    ghost predicate Valid()
      reads this
    {
      LruShard.Rep(s, a) && Inv(a)
    }

    constructor (capacity: nat, strict: bool, highRatio: real, lowRatio: real, maxBits: nat)
      requires highRatio >= 0.0 && lowRatio >= 0.0
      ensures Valid() && a.capacity == capacity && a.strict == strict && a.highRatio == highRatio && a.lowRatio == lowRatio
      ensures a.es == map[] && a.dir == map[] && a.usage == 0
    {
      var s0 := LruShard.Empty(strict, highRatio, lowRatio, maxBits);
      ghost var a0 := LruShard.EmptyState(strict, highRatio, lowRatio);
      LruShard.EmptySound(a0);
      s0 := LruShard.SetCapacity(s0, a0, capacity);
      SetCapacityInv(a0, capacity, AfterSetCapacity(a0, capacity));
      LimitedSound(a0, capacity);
      s, a := s0, AfterSetCapacity(a0, capacity);
    }

    method Insert(p: Ptr, tag: Tag, c: nat, value: nat, pri: Priority, keep: bool) returns (status: Status, handle: Ptr)
      requires Valid() && FreshPtr(a, p)
      modifies this
      ensures Valid() && a == AfterInsert(old(a), p, tag, c, value, pri, keep)
      ensures status == InsertStatus(old(a), tag, c, keep)
      ensures var full := Total(old(a).charge - (set q | q in old(a).ls.order)) + c > old(a).capacity && (old(a).strict || !keep);
              if full then handle == NULL && (status == if keep then MemoryLimit else Ok) && p !in a.es
              else handle == (if keep then p else NULL) && status != MemoryLimit && IsIn(old(a), p, tag, c, value, pri, keep, a)
    {
      InsertMeans(a, p, tag, c, value, pri, keep, AfterInsert(a, p, tag, c, value, pri, keep), Total(a.charge - (set q | q in a.ls.order)));
      var s1;
      s1, status, handle := LruShard.Insert(s, a, p, tag, c, value, pri, keep);
      ghost var a1 := AfterInsert(a, p, tag, c, value, pri, keep);
      InsertInv(a, p, tag, c, value, pri, keep, a1);
      s, a := s1, a1;
    }

    method Lookup(tag: Tag) returns (e: Ptr)
      requires Valid()
      modifies this
      ensures Valid() && a == AfterLookup(old(a), tag)
      ensures tag !in old(a).dir ==> e == NULL && a == old(a)
      ensures tag in old(a).dir ==>
                && e == old(a).dir[tag] && e in old(a).es && e !in a.ls.order
                && a.es == old(a).es[e := old(a).es[e].(refs := old(a).es[e].refs + 1, hit := true)]
    {
      if tag in a.dir {
        LookupMeans(a, tag, a.dir[tag], AfterLookup(a, tag));
      }
      var s1;
      s1, e := LruShard.Lookup(s, a, tag);
      LookupInv(a, tag, AfterLookup(a, tag));
      s, a := s1, AfterLookup(a, tag);
    }

    method Ref(e: Ptr)
      requires Valid() && e in a.es && a.es[e].refs > 0
      modifies this
      ensures Valid() && a == AfterRef(old(a), e)
    {
      var s1 := LruShard.Ref(s, a, e);
      RefInv(a, e, AfterRef(a, e));
      s, a := s1, AfterRef(a, e);
    }

    /** A null handle is ignored. */
    method Release(e: Ptr, erase: bool) returns (freed: bool)
      requires Valid() && (e != NULL ==> e in a.es && a.es[e].refs > 0)
      modifies this
      ensures Valid()
      ensures e == NULL ==> !freed && a == old(a)
      ensures e != NULL ==> e in old(a).tags && a == AfterRelease(old(a), e, erase) && freed == (e !in a.es)
      ensures e != NULL ==>
                && (freed <==> old(a).es[e].refs == 1 && (!old(a).es[e].inCache || old(a).usage > old(a).capacity || erase))
                && (!freed ==> (e in a.ls.order <==> old(a).es[e].refs == 1))
    {
      if e == NULL {
        return false;
      }
      var s1;
      s1, freed := LruShard.Release(s, a, e, erase);
      ghost var a1 := AfterRelease(a, e, erase);
      ReleaseMeans(a, e, erase, a1);
      ReleaseInv(a, e, erase, a1);
      s, a := s1, a1;
    }

    method Erase(tag: Tag)
      requires Valid()
      modifies this
      ensures Valid() && a == Erased(old(a), tag) && a.dir == old(a).dir - {tag}
    {
      EraseMeans(a, tag, Erased(a, tag));
      var s1 := LruShard.Erase(s, a, tag);
      ghost var a1 := Erased(a, tag);
      ErasedSound(a, tag, a1);
      if a1.usage > a1.capacity {
        ErasedShrinks(a, tag);
      }
      s, a := s1, a1;
    }

    method CreateStandalone(p: Ptr, tag: Tag, c: nat, value: nat, allowUncharged: bool) returns (handle: Ptr)
      requires Valid() && FreshPtr(a, p)
      modifies this
      ensures Valid() && a == AfterStandalone(old(a), p, tag, c, value, allowUncharged)
      ensures var full := Total(old(a).charge - (set q | q in old(a).ls.order)) + c > old(a).capacity && old(a).strict;
              && handle == (if full && !allowUncharged then NULL else p)
              && (handle != NULL ==> p in a.es && p in a.charge && a.charge[p] == if full then 0 else c)
    {
      StandaloneMeans(a, p, tag, c, value, allowUncharged, AfterStandalone(a, p, tag, c, value, allowUncharged),
                      Total(a.charge - (set q | q in a.ls.order)));
      var s1;
      s1, handle := LruShard.CreateStandalone(s, a, p, tag, c, value, allowUncharged);
      ghost var a1 := AfterStandalone(a, p, tag, c, value, allowUncharged);
      StandaloneInv(a, p, tag, c, value, allowUncharged, a1);
      s, a := s1, a1;
    }

    method SetCapacity(capacity: nat)
      requires Valid()
      modifies this
      ensures Valid() && a == AfterSetCapacity(old(a), capacity)
    {
      var s1 := LruShard.SetCapacity(s, a, capacity);
      ghost var a1 := AfterSetCapacity(a, capacity);
      SetCapacityInv(a, capacity, a1);
      s, a := s1, a1;
    }

    method SetStrictCapacityLimit(strict: bool)
      requires Valid()
      modifies this
      ensures Valid() && a == old(a).(strict := strict)
    {
      s, a := s.(strict := strict), a.(strict := strict);
    }

    method SetHighPriorityPoolRatio(ratio: real)
      requires Valid() && ratio >= 0.0
      modifies this
      ensures Valid() && a == AfterSetHighRatio(old(a), ratio) && a.ls.Ok() && a.ls.order == old(a).ls.order
      ensures Sum(a.charge, a.ls.High()) as real <= a.highCap && Sum(a.charge, a.ls.Low()) as real <= a.lowCap
    {
      var s1 := LruShard.SetHighPriorityPoolRatio(s, a, ratio);
      ghost var a1 := AfterSetHighRatio(a, ratio);
      SetRatioInv(a, ratio, true, a1);
      RatioFits(a, ratio, true, a1);
      s, a := s1, a1;
    }

    method SetLowPriorityPoolRatio(ratio: real)
      requires Valid() && ratio >= 0.0
      modifies this
      ensures Valid() && a == AfterSetLowRatio(old(a), ratio) && a.ls.Ok() && a.ls.order == old(a).ls.order
      ensures Sum(a.charge, a.ls.High()) as real <= a.highCap && Sum(a.charge, a.ls.Low()) as real <= a.lowCap
    {
      var s1 := LruShard.SetLowPriorityPoolRatio(s, a, ratio);
      ghost var a1 := AfterSetLowRatio(a, ratio);
      SetRatioInv(a, ratio, false, a1);
      RatioFits(a, ratio, false, a1);
      s, a := s1, a1;
    }

    method EraseUnRefEntries()
      requires Valid()
      modifies this
      ensures Valid() && a == EvictAll(old(a))
    {
      var s1 := LruShard.EraseUnRefEntries(s, a);
      s, a := s1, EvictAll(a);
    }

    /** The charges of the handles that cannot be evicted. */
    method GetPinnedUsage() returns (pinned: nat)
      requires Valid()
      ensures pinned == Total(a.charge - (set p | p in a.ls.order)) && pinned <= a.usage
    {
      PinnedIsUnevictable(a);
      assert s.list.lruUsage == Sum(a.charge, a.ls.order) by {
        assert Open(0);
        UsagesAre(s.list, a.ls);
      }
      pinned := s.usage - s.list.lruUsage;
    }
  }
}
