/**
 The cache shard itself: its list, its table and the handles in memory, changed step by step, and
 proved to do what the functions of `LruSpec` say.
 */
module LruShard {
  import opened Seal
  import opened Coding
  import opened LruList
  import opened LruTable
  import opened LruSpec
  import opened LruMeaning

  /** A handle is spread over `list.links` (list fields and charge), `table.cells` (key, hash and chain)
      and `meta` (value, references, flags). A handle that has been freed is in none of them. */
  datatype Shard = Shard(list: ListState, table: Table, meta: map<Ptr, Entry>, usage: nat, capacity: nat, strict: bool)

  ghost predicate Structures(list: ListState, table: Table, ls: Lists, dir: map<Tag, Ptr>, charge: map<Ptr, nat>, tags: map<Ptr, Tag>) {
    && IsList(list, ls) && IsTable(table, dir)
    && ChargesOf(list.links) == charge && TagsOf(table.cells) == tags
  }

  ghost predicate Built(list: ListState, table: Table, ls: Lists, dir: map<Tag, Ptr>, charge: map<Ptr, nat>, tags: map<Ptr, Tag>) {
    forall n: nat {:trigger Open(n)} :: Open(n) ==> Structures(list, table, ls, dir, charge, tags)
  }

  /** The concrete shard represents the state `a`. */
  ghost predicate Rep(s: Shard, a: State) {
    && Built(s.list, s.table, a.ls, a.dir, a.charge, a.tags)
    && s.meta == a.es && s.usage == a.usage && s.capacity == a.capacity && s.strict == a.strict
    && s.list.highRatio == a.highRatio && s.list.lowRatio == a.lowRatio
    && s.list.highCap == a.highCap && s.list.lowCap == a.lowCap
  }

  lemma MemoryOf(s: Shard, a: State, e: Ptr)
    requires Rep(s, a) && e != HEAD
    ensures e in a.charge <==> e in s.list.links
    ensures e in a.charge ==> a.charge[e] == s.list.links[e].charge
    ensures e in a.tags <==> e in s.table.cells
    ensures e in a.tags ==> a.tags[e] == s.table.cells[e].tag
  {
    assert Open(0);
    assert e in ChargesOf(s.list.links) <==> e in s.list.links;
    assert e in TagsOf(s.table.cells) <==> e in s.table.cells;
  }

  /* ---------- the building blocks ---------- */

  method ListRemove(s: Shard, ghost a: State, e: Ptr) returns (s': Shard)
    requires Rep(s, a) && e in a.ls.order
    ensures Rep(s', a.(ls := Unqueued(a.ls, e)))
  {
    assert Open(0);
    var l := LRURemove(s.list, a.ls, e);
    s' := s.(list := l);
  }

  method ListInsert(s: Shard, ghost a: State, e: Ptr) returns (s': Shard)
    requires Rep(s, a) && e !in a.ls.order && e != HEAD && e in a.charge && e in a.es
    ensures Rep(s', Enqueued(a, e, a.es[e]))
  {
    MemoryOf(s, a, e);
    assert Open(0);
    var l := LRUInsert(s.list, a.ls, e, WantOf(s.meta[e]));
    s' := s.(list := l);
  }

  method TableRemove(s: Shard, ghost a: State, tag: Tag) returns (s': Shard, e: Ptr)
    requires Rep(s, a)
    ensures Rep(s', a.(dir := a.dir - {tag})) && e == if tag in a.dir then a.dir[tag] else NULL
  {
    var t;
    assert Open(0);
    t, e := LruTable.Remove(s.table, tag, a.dir);
    assert TagsOf(t.cells) == TagsOf(s.table.cells);
    s' := s.(table := t);
  }

  method TableInsert(s: Shard, ghost a: State, p: Ptr, tag: Tag) returns (s': Shard, old_: Ptr)
    requires Rep(s, a) && p != HEAD && p in a.tags && a.tags[p] == tag && (tag in a.dir ==> a.dir[tag] != p)
    ensures Rep(s', a.(dir := a.dir[tag := p])) && old_ == if tag in a.dir then a.dir[tag] else NULL
  {
    MemoryOf(s, a, p);
    var t;
    assert Open(0);
    t, old_ := LruTable.Insert(s.table, p, a.dir);
    assert TagsOf(t.cells) == TagsOf(s.table.cells);
    s' := s.(table := t);
  }

  method SetEntry(s: Shard, ghost a: State, e: Ptr, entry: Entry) returns (s': Shard)
    requires Rep(s, a)
    ensures Rep(s', a.(es := a.es[e := entry]))
  {
    s' := s.(meta := s.meta[e := entry]);
  }

  /** Allocates a handle and charges for it. */
  method Allocate(s: Shard, ghost a: State, p: Ptr, tag: Tag, c: nat, e: Entry) returns (s': Shard)
    requires Rep(s, a) && p !in a.charge && p !in a.tags && p != NULL && p != HEAD
    ensures Rep(s', Allocated(a, p, tag, c, e))
  {
    MemoryOf(s, a, p);
    assert Open(0);
    var l := s.list.(links := s.list.links[p := Node(NULL, NULL, false, false, c)]);
    AddNode(s.list, a.ls, p, c, l);
    var t := s.table.(cells := s.table.cells[p := Cell(tag, NULL)]);
    AddCell(s.table, a.dir, p, tag, t);
    s' := s.(list := l, table := t, meta := s.meta[p := e], usage := s.usage + c);
  }

  /** Stops charging for a handle and frees it: it is neither listed nor waiting. */
  method Dispose(s: Shard, ghost a: State, e: Ptr) returns (s': Shard)
    requires Rep(s, a) && e !in a.ls.order && e != HEAD && e in a.charge && a.charge[e] <= a.usage
    requires e in a.tags && (a.tags[e] in a.dir ==> a.dir[a.tags[e]] != e)
    ensures Rep(s', Discard(a, e))
  {
    MemoryOf(s, a, e);
    assert Open(0);
    var c := s.list.links[e].charge;
    var l := s.list.(links := s.list.links - {e});
    FreeNode(s.list, a.ls, e, l);
    var t := s.table.(cells := s.table.cells - {e});
    FreeCell(s.table, a.dir, e, t);
    s' := s.(list := l, table := t, meta := s.meta - {e}, usage := s.usage - c);
  }

  lemma ChargeFits(a: State, e: Ptr)
    requires Sound(a) && e in a.charge
    ensures a.charge[e] <= a.usage
  {
    TotalWithout(a.charge, e);
  }

  /* ---------- eviction ---------- */

  lemma EvictOneMatches(a: State, e: Ptr, tag: Tag, b: State, r: State)
    requires e in a.es && e in a.tags && e in a.charge && a.es[e].refs == 0 && a.es[e].inCache && a.tags[e] == tag
    requires tag in a.dir && a.dir[tag] == e && a.ls.order != [] && a.ls.order[0] == e
    requires b == a.(ls := Unqueued(a.ls, e), dir := a.dir - {tag}, es := a.es[e := a.es[e].(inCache := false)])
    requires r == Discard(b, e)
    ensures r == EvictOne(a)
  {
    assert r.es == a.es - {e};
  }

  /** Takes the oldest waiting entry out of the list and the table and frees it. */
  method EvictFirst(s: Shard, ghost a: State) returns (s': Shard, e: Ptr)
    requires Rep(s, a) && Sound(a) && a.ls.order != []
    ensures Rep(s', EvictOne(a)) && e == a.ls.order[0]
  {
    EmptyIff(s, a);
    e := s.list.links[HEAD].next;
    OldestFacts(a, e);
    OrderOk(a);
    MemoryOf(s, a, e);
    assert s.meta[e].inCache && s.meta[e].refs == 0;
    assert e in a.ls.order;
    s' := ListRemove(s, a, e);
    ghost var a1 := a.(ls := Unqueued(a.ls, e));
    UnqueuedMembers(a.ls, e, a1.ls);
    var tag := s.table.cells[e].tag;
    var removed;
    s', removed := TableRemove(s', a1, tag);
    ghost var a2 := a1.(dir := a.dir - {tag});
    s' := SetEntry(s', a2, e, s.meta[e].(inCache := false));
    ghost var a3 := a2.(es := a.es[e := a.es[e].(inCache := false)]);
    ChargeFits(a, e);
    s' := Dispose(s', a3, e);
    EvictOneMatches(a, e, tag, a3, Discard(a3, e));
  }

  /** The list is empty exactly when the dummy head points to itself. */
  lemma EmptyIff(s: Shard, a: State)
    requires Rep(s, a) && Sound(a)
    ensures HEAD in s.list.links && (s.list.links[HEAD].next == HEAD <==> a.ls.order == [])
    ensures a.ls.order != [] ==> s.list.links[HEAD].next == a.ls.order[0]
  {
    assert Open(0);
    NextOf(s.list.links, a.ls.order, 0);
    OrderOk(a);
    if a.ls.order != [] {
      assert a.ls.order[0] in a.ls.order;
    }
  }

  /** Evicting from `cur` leads to `goal`. */
  ghost predicate Reaches(cur: State, need: nat, goal: State) {
    Sound(cur) && forall n: nat {:trigger Open(n)} :: Open(n) ==> Evict(cur, need) == goal
  }

  lemma ReachesNext(cur: State, need: nat, goal: State, next: State)
    requires Reaches(cur, need, goal) && cur.usage + need > cur.capacity && cur.ls.order != [] && next == EvictOne(cur)
    ensures Reaches(next, need, goal) && next.ls.order == cur.ls.order[1..]
  {
    assert Open(0);
    EvictOneSound(cur);
    EvictOneIs(cur, cur.ls.order[0], next);
  }

  lemma ReachesEnd(cur: State, need: nat, goal: State)
    requires Reaches(cur, need, goal) && (cur.usage + need <= cur.capacity || cur.ls.order == [])
    ensures goal == cur
  {
    assert Open(0);
  }

  /** The entries evicted so far and those still waiting are those that waited at first. */
  ghost predicate Divided(all: seq<Ptr>, deleted: seq<Ptr>, rest: seq<Ptr>) {
    forall n: nat {:trigger Open(n)} :: Open(n) ==> deleted + rest == all
  }

  lemma DividedNext(all: seq<Ptr>, deleted: seq<Ptr>, rest: seq<Ptr>)
    requires Divided(all, deleted, rest) && rest != []
    ensures Divided(all, deleted + [rest[0]], rest[1..])
  {
    assert Open(0);
    assert deleted + rest == deleted + [rest[0]] + rest[1..];
  }

  method EvictFromLRU(s: Shard, ghost a: State, need: nat) returns (s': Shard, deleted: seq<Ptr>)
    requires Rep(s, a) && Sound(a)
    ensures Rep(s', Evict(a, need)) && deleted + Evict(a, need).ls.order == a.ls.order
  {
    s', deleted := s, [];
    ghost var cur, goal := a, Evict(a, need);
    assert Divided(a.ls.order, deleted, cur.ls.order) by { assert [] + a.ls.order == a.ls.order; }
    EmptyIff(s', cur);
    while s'.usage + need > s'.capacity && s'.list.links[HEAD].next != HEAD
      invariant Rep(s', cur) && Reaches(cur, need, goal) && Divided(a.ls.order, deleted, cur.ls.order)
      invariant HEAD in s'.list.links && (s'.list.links[HEAD].next == HEAD <==> cur.ls.order == [])
      decreases |cur.ls.order|
    {
      ghost var next := EvictOne(cur);
      ReachesNext(cur, need, goal, next);
      DividedNext(a.ls.order, deleted, cur.ls.order);
      var e;
      s', e := EvictFirst(s', cur);
      deleted, cur := deleted + [e], next;
      EmptyIff(s', cur);
    }
    ReachesEnd(cur, need, goal);
    assert Open(0);
  }

  method EraseUnRefEntries(s: Shard, ghost a: State) returns (s': Shard)
    requires Rep(s, a) && Sound(a)
    ensures Rep(s', EvictAll(a))
  {
    s' := s;
    ghost var cur, goal := a, EvictAll(a);
    EmptyIff(s', cur);
    while s'.list.links[HEAD].next != HEAD
      invariant Rep(s', cur) && Sound(cur) && EvictAll(cur) == goal
      invariant HEAD in s'.list.links && (s'.list.links[HEAD].next == HEAD <==> cur.ls.order == [])
      decreases |cur.ls.order|
    {
      EvictOneSound(cur);
      var e;
      s', e := EvictFirst(s', cur);
      cur := EvictOne(cur);
      EmptyIff(s', cur);
    }
  }

  /* ---------- looking up, taking and giving back references ---------- */

  method Lookup(s: Shard, ghost a: State, tag: Tag) returns (s': Shard, e: Ptr)
    requires Rep(s, a) && Sound(a)
    ensures Rep(s', AfterLookup(a, tag)) && e == if tag in a.dir then a.dir[tag] else NULL
  {
    assert IsTable(s.table, a.dir) by { assert Open(0); }
    e := LruTable.Lookup(s.table, tag, a.dir);
    s' := s;
    if e != NULL {
      ListedFacts(a, tag, e);
      ghost var b := a;
      if s.meta[e].refs == 0 {
        s' := ListRemove(s, a, e);
        b := a.(ls := Unqueued(a.ls, e));
      }
      s' := SetEntry(s', b, e, s.meta[e].(refs := s.meta[e].refs + 1, hit := true));
    } else if tag in a.dir {
      ListedFacts(a, tag, e);
      assert false;
    }
  }

  method Ref(s: Shard, ghost a: State, e: Ptr) returns (s': Shard)
    requires Rep(s, a) && e in a.es && a.es[e].refs > 0
    ensures Rep(s', AfterRef(a, e))
  {
    s' := SetEntry(s, a, e, s.meta[e].(refs := s.meta[e].refs + 1));
  }

  lemma ListedOrNot(a: State, e: Ptr)
    requires Sound(a) && e in a.es && e in a.tags
    ensures a.es[e].inCache <==> a.tags[e] in a.dir && a.dir[a.tags[e]] == e
  {
    assert Open(0);
  }

  /** Takes the entry out of the table when it is listed, and frees it. */
  method FreeReleased(s: Shard, ghost a: State, e: Ptr, entry: Entry) returns (s': Shard)
    requires Rep(s, a.(es := a.es[e := entry])) && Sound(a) && e in a.es && a.es[e].refs > 0 && entry.inCache == a.es[e].inCache
    ensures e in a.tags && Rep(s', Discard(a.(dir := if a.es[e].inCache then a.dir - {a.tags[e]} else a.dir), e))
  {
    OrderOk(a);
    NotWaiting(a.es, a.ls, e);
    ChargeFits(a, e);
    ListedOrNot(a, e);
    ghost var b := a.(es := a.es[e := entry]);
    s' := s;
    if entry.inCache {
      MemoryOf(s, b, e);
      var removed;
      s', removed := TableRemove(s', b, s.table.cells[e].tag);
      b := b.(dir := a.dir - {a.tags[e]});
      s' := SetEntry(s', b, e, entry.(inCache := false));
      b := b.(es := b.es[e := entry.(inCache := false)]);
    }
    s' := Dispose(s', b, e);
    assert b.es - {e} == a.es - {e};
  }

  lemma ReleaseCases(a: State, e: Ptr, erase: bool, entry: Entry, r: State)
    requires e in a.es && e in a.tags && a.es[e].refs > 0 && entry == a.es[e].(refs := a.es[e].refs - 1) && r == AfterRelease(a, e, erase)
    ensures entry.refs > 0 ==> r == a.(es := a.es[e := entry])
    ensures entry.refs == 0 && (!entry.inCache || a.usage > a.capacity || erase) ==>
              r == Discard(a.(dir := if a.es[e].inCache then a.dir - {a.tags[e]} else a.dir), e)
    ensures entry.refs == 0 && entry.inCache && a.usage <= a.capacity && !erase ==> r == Enqueued(a.(es := a.es[e := entry]), e, entry)
    ensures e in r.es <==> entry.refs > 0 || (entry.inCache && a.usage <= a.capacity && !erase)
  {
    assert a.es[e := entry] - {e} == a.es - {e};
  }

  /** `freed` is what the source returns. When the shard is over capacity the list is empty. */
  method Release(s: Shard, ghost a: State, e: Ptr, erase: bool) returns (s': Shard, freed: bool)
    requires Rep(s, a) && Inv(a) && e in a.es && a.es[e].refs > 0
    ensures e in a.tags && Rep(s', AfterRelease(a, e, erase)) && freed == (e !in AfterRelease(a, e, erase).es)
  {
    OrderOk(a);
    NotWaiting(a.es, a.ls, e);
    var entry := s.meta[e].(refs := s.meta[e].refs - 1);
    ReleaseCases(a, e, erase, entry, AfterRelease(a, e, erase));
    s' := SetEntry(s, a, e, entry);
    freed := entry.refs == 0;
    if freed && entry.inCache {
      if s.usage > s.capacity || erase {
        assert a.ls.order == [] || erase;
      } else {
        s' := ListInsert(s', a.(es := a.es[e := entry]), e);
        freed := false;
      }
    }
    if freed {
      s' := FreeReleased(s', a, e, entry);
    }
  }

  /* ---------- erasing ---------- */

  lemma ErasedMatches(a: State, e: Ptr, tag: Tag, b: State)
    requires tag in a.dir && a.dir[tag] == e && e in a.es
    requires b == a.(dir := a.dir - {tag}, es := a.es[e := a.es[e].(inCache := false)])
    ensures if a.es[e].refs == 0 then Discard(b.(ls := Unqueued(a.ls, e)), e) == Erased(a, tag) else b == Erased(a, tag)
  {
    assert b.es - {e} == a.es - {e};
  }

  method Erase(s: Shard, ghost a: State, tag: Tag) returns (s': Shard)
    requires Rep(s, a) && Sound(a)
    ensures Rep(s', Erased(a, tag))
  {
    var e;
    s', e := TableRemove(s, a, tag);
    if e != NULL {
      ListedFacts(a, tag, e);
      ghost var b := a.(dir := a.dir - {tag});
      s' := SetEntry(s', b, e, s.meta[e].(inCache := false));
      b := b.(es := a.es[e := a.es[e].(inCache := false)]);
      ErasedMatches(a, e, tag, b);
      if s.meta[e].refs == 0 {
        s' := ListRemove(s', b, e);
        b := b.(ls := Unqueued(a.ls, e));
        OrderOk(a);
        UnqueuedMembers(a.ls, e, b.ls);
        ChargeFits(a, e);
        s' := Dispose(s', b, e);
      }
    } else {
      assert a.dir - {tag} == a.dir by {
        if tag in a.dir {
          ListedFacts(a, tag, e);
          assert false;
        }
      }
    }
  }

  /* ---------- inserting ---------- */

  /** The entry that a new one replaces leaves the cache; nobody holding it, it is freed. */
  method Displace(s: Shard, ghost b: State, old_: Ptr, ghost a: State, p: Ptr, tag: Tag, c: nat, e: Entry) returns (s': Shard)
    requires Sound(a) && tag in a.dir && a.dir[tag] == old_ && FreshPtr(a, p)
    requires b == Allocated(a, p, tag, c, e).(dir := a.dir[tag := p]) && Rep(s, b)
    ensures Rep(s', Allocated(Erased(a, tag), p, tag, c, e).(dir := a.dir[tag := p]))
  {
    ListedFacts(a, tag, old_);
    OrderOk(a);
    s' := SetEntry(s, b, old_, s.meta[old_].(inCache := false));
    ghost var b1 := b.(es := b.es[old_ := a.es[old_].(inCache := false)]);
    if s.meta[old_].refs == 0 {
      s' := ListRemove(s', b1, old_);
      ghost var b2 := b1.(ls := Unqueued(a.ls, old_));
      UnqueuedMembers(a.ls, old_, b2.ls);
      ChargeFits(a, old_);
      s' := Dispose(s', b2, old_);
      DisplaceFrees(a, old_, p, tag, c, e, b2);
    } else {
      assert b1.es == Erased(a, tag).es[p := e];
    }
  }

  lemma UpdateThenRemove<V>(m: map<Ptr, V>, p: Ptr, v: V, e: Ptr)
    requires p != e
    ensures m[p := v] - {e} == (m - {e})[p := v]
  {
  }

  lemma DisplaceFrees(a: State, old_: Ptr, p: Ptr, tag: Tag, c: nat, e: Entry, b: State)
    requires tag in a.dir && a.dir[tag] == old_ && old_ in a.es && a.es[old_].refs == 0 && old_ in a.charge && a.charge[old_] <= a.usage
    requires p != old_ && b.es == a.es[p := e][old_ := a.es[old_].(inCache := false)]
    requires b == Allocated(a, p, tag, c, e).(dir := a.dir[tag := p], ls := Unqueued(a.ls, old_), es := b.es)
    ensures Discard(b, old_) == Allocated(Erased(a, tag), p, tag, c, e).(dir := a.dir[tag := p])
  {
    assert b.es - {old_} == a.es[p := e] - {old_};
    UpdateThenRemove(a.es, p, e, old_);
    UpdateThenRemove(a.tags, p, tag, old_);
    UpdateThenRemove(a.charge, p, c, old_);
  }

  lemma AddedIs(a: State, p: Ptr, tag: Tag, c: nat, value: nat, pri: Priority, keep: bool, e: Entry, b: State)
    requires Sound(a) && e == Entry(value, if keep then 1 else 0, true, false, pri)
    requires b == Allocated(Erased(a, tag), p, tag, c, e).(dir := a.dir[tag := p])
    ensures Added(a, p, tag, c, value, pri, keep) == if keep then b else Enqueued(b, p, e)
  {
    ErasedSound(a, tag, Erased(a, tag));
    assert Erased(a, tag).dir[tag := p] == a.dir[tag := p] by {
      if tag in a.dir {
        ListedFacts(a, tag, a.dir[tag]);
      }
    }
  }

  lemma FreshOutside(a: State, p: Ptr)
    requires Sound(a) && FreshPtr(a, p)
    ensures p !in a.charge && p !in a.tags && p !in a.ls.order && forall g :: g in a.dir ==> a.dir[g] != p && a.dir[g] != NULL
  {
    assert Open(0);
  }

  /** Lists the new handle, in the place of the one with its tag. */
  method Enlist(s: Shard, ghost a: State, p: Ptr, tag: Tag, c: nat, e: Entry) returns (s': Shard, status: Status)
    requires Rep(s, a) && Sound(a) && FreshPtr(a, p)
    ensures Rep(s', Allocated(Erased(a, tag), p, tag, c, e).(dir := a.dir[tag := p]))
    ensures status == if tag in a.dir then OkOverwritten else Ok
  {
    FreshOutside(a, p);
    s' := Allocate(s, a, p, tag, c, e);
    ghost var b := Allocated(a, p, tag, c, e);
    var old_;
    s', old_ := TableInsert(s', b, p, tag);
    b := b.(dir := a.dir[tag := p]);
    status := Ok;
    if old_ != NULL {
      status := OkOverwritten;
      s' := Displace(s', b, old_, a, p, tag, c, e);
    }
  }

  lemma ErasedKeepsFresh(a: State, tag: Tag, p: Ptr, b: State)
    requires Sound(a) && FreshPtr(a, p) && b == Erased(a, tag)
    ensures Sound(b) && p !in b.ls.order
  {
    ErasedSound(a, tag, b);
    FreshOutside(b, p);
  }

  /** Makes room, then inserts the entry, keeping a reference for the caller when `keep` is set. Without room
      a strict limit refuses; an entry nobody keeps is then dropped as if it had been evicted at once. */
  method Insert(s: Shard, ghost a: State, p: Ptr, tag: Tag, c: nat, value: nat, pri: Priority, keep: bool)
    returns (s': Shard, status: Status, handle: Ptr)
    requires Rep(s, a) && Sound(a) && FreshPtr(a, p)
    ensures Rep(s', AfterInsert(a, p, tag, c, value, pri, keep)) && status == InsertStatus(a, tag, c, keep)
    ensures var full := Total(a.charge - (set q | q in a.ls.order)) + c > a.capacity && (a.strict || !keep);
            && handle == (if keep && !full then p else NULL)
            && (status == MemoryLimit <==> full && keep)
            && (status == OkOverwritten <==> !full && tag in Evict(a, c).dir)
  {
    RefusedIff(a, c, keep, Total(a.charge - (set q | q in a.ls.order)));
    var deleted;
    s', deleted := EvictFromLRU(s, a, c);
    ghost var b := Evict(a, c);
    handle := NULL;
    if s'.usage + c > s'.capacity && (s'.strict || !keep) {
      status := if keep then MemoryLimit else Ok;
    } else {
      var e := Entry(value, if keep then 1 else 0, true, false, pri);
      s', status := Enlist(s', b, p, tag, c, e);
      ghost var d := Allocated(Erased(b, tag), p, tag, c, e).(dir := b.dir[tag := p]);
      AddedIs(b, p, tag, c, value, pri, keep, e, d);
      if keep {
        handle := p;
      } else {
        ErasedKeepsFresh(b, tag, p, Erased(b, tag));
        s' := ListInsert(s', d, p);
      }
    }
  }

  /** A handle that is charged but never listed; without room a strict limit leaves it uncharged or refuses. */
  method CreateStandalone(s: Shard, ghost a: State, p: Ptr, tag: Tag, c: nat, value: nat, allowUncharged: bool)
    returns (s': Shard, handle: Ptr)
    requires Rep(s, a) && Sound(a) && FreshPtr(a, p)
    ensures Rep(s', AfterStandalone(a, p, tag, c, value, allowUncharged))
    ensures var full := Total(a.charge - (set q | q in a.ls.order)) + c > a.capacity && a.strict;
            handle == if full && !allowUncharged then NULL else p
  {
    StandaloneRefusedIff(a, c, Total(a.charge - (set q | q in a.ls.order)));
    var deleted;
    s', deleted := EvictFromLRU(s, a, c);
    ghost var b := Evict(a, c);
    var e := Entry(value, 1, false, false, BottomPri);
    FreshOutside(b, p);
    handle := p;
    if s'.strict && s'.usage + c > s'.capacity {
      if allowUncharged {
        s' := Allocate(s', b, p, tag, 0, e);
      } else {
        handle := NULL;
      }
    } else {
      s' := Allocate(s', b, p, tag, c, e);
    }
  }

  /* ---------- settings ---------- */

  lemma LimitsKeepBuilt(s: Shard, a: State, list': ListState)
    requires Rep(s, a) && list'.highCap >= 0.0 && list'.lowCap >= 0.0
    requires list' == s.list.(highRatio := list'.highRatio, lowRatio := list'.lowRatio, highCap := list'.highCap, lowCap := list'.lowCap)
    ensures Built(list', s.table, a.ls, a.dir, a.charge, a.tags)
  {
    assert Open(0);
  }

  method SetCapacity(s: Shard, ghost a: State, capacity: nat) returns (s': Shard)
    requires Rep(s, a) && Sound(a)
    ensures Rep(s', AfterSetCapacity(a, capacity))
  {
    LimitedSound(a, capacity);
    var l := s.list.(highCap := PoolCap(capacity, s.list.highRatio), lowCap := PoolCap(capacity, s.list.lowRatio));
    LimitsKeepBuilt(s, a, l);
    s' := s.(capacity := capacity, list := l);
    var deleted;
    s', deleted := EvictFromLRU(s', Limited(a, capacity), 0);
  }

  method Trim(s: Shard, ghost a: State) returns (s': Shard)
    requires Rep(s, a)
    ensures Rep(s', Trimmed(a))
  {
    assert Open(0);
    var l := MaintainPoolSize(s.list, a.ls);
    s' := s.(list := l);
  }

  method SetHighPriorityPoolRatio(s: Shard, ghost a: State, ratio: real) returns (s': Shard)
    requires Rep(s, a) && Sound(a) && ratio >= 0.0
    ensures Rep(s', AfterSetHighRatio(a, ratio))
  {
    NonNegative(a.capacity, ratio);
    var l := s.list.(highRatio := ratio, highCap := PoolCap(s.capacity, ratio));
    LimitsKeepBuilt(s, a, l);
    s' := s.(list := l);
    s' := Trim(s', a.(highRatio := ratio, highCap := PoolCap(a.capacity, ratio)));
  }

  method SetLowPriorityPoolRatio(s: Shard, ghost a: State, ratio: real) returns (s': Shard)
    requires Rep(s, a) && Sound(a) && ratio >= 0.0
    ensures Rep(s', AfterSetLowRatio(a, ratio))
  {
    NonNegative(a.capacity, ratio);
    var l := s.list.(lowRatio := ratio, lowCap := PoolCap(s.capacity, ratio));
    LimitsKeepBuilt(s, a, l);
    s' := s.(list := l);
    s' := Trim(s', a.(lowRatio := ratio, lowCap := PoolCap(a.capacity, ratio)));
  }

  /* ---------- an empty shard ---------- */

  function EmptyState(strict: bool, highRatio: real, lowRatio: real): State {
    State(0, strict, highRatio, lowRatio, 0.0, 0.0, map[], map[], map[], map[], Lists([], 0, 0), 0)
  }

  lemma EmptySound(a: State)
    requires a.highRatio >= 0.0 && a.lowRatio >= 0.0 && a == EmptyState(a.strict, a.highRatio, a.lowRatio)
    ensures Inv(a)
  {
    assert PoolCap(0, a.highRatio) == 0.0 && PoolCap(0, a.lowRatio) == 0.0;
  }

  lemma EmptyTable(t: Table)
    requires t.lengthBits <= 31 && |t.list| == Pow2(t.lengthBits) && t.cells == map[] && t.elems == 0
    requires forall b :: 0 <= b < |t.list| ==> t.list[b] == NULL
    ensures IsTable(t, map[])
  {
    var chains: seq<seq<Ptr>> := seq(|t.list|, _ => []);
    assert Holds(t, chains, map[]);
  }

  lemma EmptyList(l: ListState)
    requires l.links == map[HEAD := Node(HEAD, HEAD, false, false, 0)] && l.bottomPri == HEAD && l.lowPri == HEAD
    requires l.lruUsage == 0 && l.highUsage == 0 && l.lowUsage == 0 && l.highCap == 0.0 && l.lowCap == 0.0
    ensures IsList(l, Lists([], 0, 0))
  {
    assert Ring([]) == [HEAD, HEAD];
  }

  method Empty(strict: bool, highRatio: real, lowRatio: real, maxBits: nat) returns (s: Shard)
    requires highRatio >= 0.0 && lowRatio >= 0.0
    ensures Rep(s, EmptyState(strict, highRatio, lowRatio))
  {
    var l := ListState(map[HEAD := Node(HEAD, HEAD, false, false, 0)], HEAD, HEAD, 0, 0, 0, highRatio, lowRatio, 0.0, 0.0);
    var t := Table(4, maxBits, seq(Pow2(4), _ => NULL), map[], 0);
    EmptyList(l);
    EmptyTable(t);
    assert ChargesOf(l.links) == map[] && TagsOf(t.cells) == map[];
    s := Shard(l, t, map[], 0, 0, strict);
  }
}
