/**
 Whole runs of a cache shard: the invariant, the strict capacity limit and the promise that a handle
 somebody holds stays alive, over every sequence of operations.
 */
module LruRuns {
  import opened Seal
  import opened LruList
  import opened LruTable
  import opened LruSpec

  datatype Op =
    | Insert(p: Ptr, tag: Tag, c: nat, value: nat, pri: Priority, keep: bool)
    | Lookup(tag: Tag)
    | Ref(e: Ptr)
    | Release(e: Ptr, erase: bool)
    | Erase(tag: Tag)
    | CreateStandalone(p: Ptr, tag: Tag, c: nat, value: nat, allowUncharged: bool)
    | SetCapacity(capacity: nat)
    | SetStrict(strict: bool)
    | SetHighRatio(ratio: real)
    | SetLowRatio(ratio: real)
    | EraseUnRefEntries

  /** What the operation asks of its caller: new handles are new, references are held. */
  predicate Can(a: State, op: Op) {
    match op
    case Insert(p, _, _, _, _, _) => FreshPtr(a, p)
    case CreateStandalone(p, _, _, _, _) => FreshPtr(a, p)
    case Ref(e) => e in a.es && a.es[e].refs > 0
    case Release(e, _) => e in a.es && a.es[e].refs > 0
    case SetHighRatio(ratio) => ratio >= 0.0
    case SetLowRatio(ratio) => ratio >= 0.0
    case _ => true
  }

  ghost function Step(a: State, op: Op): State
    requires Inv(a) && Can(a, op)
  {
    OrderOk(a);
    match op
    case Insert(p, tag, c, value, pri, keep) => AfterInsert(a, p, tag, c, value, pri, keep)
    case Lookup(tag) => AfterLookup(a, tag)
    case Ref(e) => AfterRef(a, e)
    case Release(e, erase) => AfterRelease(a, e, erase)
    case Erase(tag) => Erased(a, tag)
    case CreateStandalone(p, tag, c, value, allowUncharged) => AfterStandalone(a, p, tag, c, value, allowUncharged)
    case SetCapacity(capacity) => AfterSetCapacity(a, capacity)
    case SetStrict(strict) => a.(strict := strict)
    case SetHighRatio(ratio) => AfterSetHighRatio(a, ratio)
    case SetLowRatio(ratio) => AfterSetLowRatio(a, ratio)
    case EraseUnRefEntries => EvictAll(a)
  }

  lemma EraseInv(a: State, tag: Tag, r: State)
    requires Inv(a) && r == Erased(a, tag)
    ensures Inv(r) && r.usage <= a.usage
  {
    ErasedSound(a, tag, r);
    if r.usage > r.capacity {
      ErasedShrinks(a, tag);
    }
  }

  /** Every operation keeps the invariant; in particular, over capacity nothing waits for eviction. */
  lemma StepInv(a: State, op: Op, r: State)
    requires Inv(a) && Can(a, op) && r == Step(a, op)
    ensures Inv(r)
  {
    match op
    case Insert(p, tag, c, value, pri, keep) => InsertInv(a, p, tag, c, value, pri, keep, r);
    case Lookup(tag) => LookupInv(a, tag, r);
    case Ref(e) => RefInv(a, e, r);
    case Release(e, erase) => OrderOk(a); ReleaseInv(a, e, erase, r);
    case Erase(tag) => EraseInv(a, tag, r);
    case CreateStandalone(p, tag, c, value, allowUncharged) => StandaloneInv(a, p, tag, c, value, allowUncharged, r);
    case SetCapacity(capacity) => SetCapacityInv(a, capacity, r);
    case SetStrict(strict) =>
    case SetHighRatio(ratio) => SetRatioInv(a, ratio, true, r);
    case SetLowRatio(ratio) => SetRatioInv(a, ratio, false, r);
    case EraseUnRefEntries =>
  }

  /* ---------- pinned usage and the strict limit ---------- */

  /** What `GetPinnedUsage` reports. */
  function Pinned(a: State): nat {
    Minus(a.usage, Sum(a.charge, a.ls.order))
  }

  /** The charges of the handles that do not wait for eviction. */
  lemma {:induction false} TotalSplits(c: map<Ptr, nat>, s: seq<Ptr>, rest: map<Ptr, nat>)
    requires Distinct(s) && (forall p :: p in s ==> p in c) && rest == c - (set p | p in s)
    ensures Total(c) == Sum(c, s) + Total(rest)
    decreases |s|
  {
    if s == [] {
      assert rest == c;
    } else {
      var e, tail, c' := s[0], s[1..], c - {s[0]};
      assert forall p :: p in s <==> p == e || p in tail;
      assert rest == c' - (set p | p in tail);
      TotalSplits(c', tail, rest);
      TotalWithout(c, e);
      SumAgree(c, c', tail);
    }
  }

  lemma PinnedIsUnevictable(a: State)
    requires Sound(a)
    ensures Pinned(a) == Total(a.charge - (set p | p in a.ls.order)) && Pinned(a) + Sum(a.charge, a.ls.order) == a.usage
  {
    OrderOk(a);
    TotalSplits(a.charge, a.ls.order, a.charge - (set p | p in a.ls.order));
  }

  /** Setting a capacity makes the shard fit into it exactly when what is pinned fits. */
  lemma SetCapacityFitsIff(a: State, capacity: nat, r: State)
    requires Inv(a) && r == AfterSetCapacity(a, capacity)
    ensures r.usage <= capacity <==> Pinned(a) <= capacity
  {
    LimitedSound(a, capacity);
    PinnedIsUnevictable(a);
    var k := EvictIsLeast(Limited(a, capacity), 0, r);
    var order := a.ls.order;
    assert order == order[..k] + order[k..];
    SumConcat(a.charge, order[..k], order[k..]);
    if k == |order| {
      assert order[k..] == [];
    }
  }

  /** The caller lowers the capacity only as far as pinned entries allow, and keeps the limit strict. */
  ghost predicate Careful(a: State, op: Op)
    requires Inv(a)
  {
    match op
    case SetCapacity(capacity) => Pinned(a) <= capacity
    case SetStrict(strict) => strict
    case _ => true
  }

  lemma EvictUses(a: State, need: nat)
    requires Sound(a)
    ensures Evict(a, need).usage <= a.usage
  {
    var k := EvictIsLeast(a, need, Evict(a, need));
  }

  lemma {:induction false} EvictAllUses(a: State)
    requires Sound(a)
    ensures EvictAll(a).usage <= a.usage && EvictAll(a).strict == a.strict
    decreases |a.ls.order|
  {
    if a.ls.order != [] {
      EvictOneSound(a);
      EvictOneIs(a, a.ls.order[0], EvictOne(a));
      EvictAllUses(EvictOne(a));
    }
  }

  lemma StrictInsert(a: State, p: Ptr, tag: Tag, c: nat, value: nat, pri: Priority, keep: bool, r: State)
    requires Inv(a) && FreshPtr(a, p) && a.strict && a.usage <= a.capacity
    requires r == AfterInsert(a, p, tag, c, value, pri, keep)
    ensures r.strict && r.usage <= r.capacity
  {
    var b := Evict(a, c);
    EvictUses(a, c);
    if !Refused(a, c, keep) {
      AddedSound(b, p, tag, c, value, pri, keep, Erased(b, tag), r);
    }
  }

  /** With a strict limit, no careful step takes the shard over its capacity. */
  lemma StrictStep(a: State, op: Op, r: State)
    requires Inv(a) && Can(a, op) && Careful(a, op) && a.strict && a.usage <= a.capacity && r == Step(a, op)
    ensures r.strict && r.usage <= r.capacity
  {
    match op
    case Insert(p, tag, c, value, pri, keep) => StrictInsert(a, p, tag, c, value, pri, keep, r);
    case Lookup(tag) =>
    case Ref(e) =>
    case Release(e, erase) => OrderOk(a); ReleaseInv(a, e, erase, r);
    case Erase(tag) => EraseInv(a, tag, r);
    case CreateStandalone(p, tag, c, value, allowUncharged) => EvictUses(a, c);
    case SetCapacity(capacity) =>
      SetCapacityFitsIff(a, capacity, r);
      LimitedSound(a, capacity);
    case SetStrict(strict) =>
    case SetHighRatio(ratio) =>
    case SetLowRatio(ratio) =>
    case EraseUnRefEntries => EvictAllUses(a);
  }

  ghost predicate CarefulRun(a: State, ops: seq<Op>)
    requires Inv(a)
    decreases |ops|
  {
    ops == [] ||
    (Can(a, ops[0]) && Careful(a, ops[0]) &&
     (StepInv(a, ops[0], Step(a, ops[0]));
      CarefulRun(Step(a, ops[0]), ops[1..])))
  }

  ghost function After(a: State, ops: seq<Op>): (r: State)
    requires Inv(a) && CarefulRun(a, ops)
    ensures Inv(r)
    decreases |ops|
  {
    if ops == [] then a
    else
      StepInv(a, ops[0], Step(a, ops[0]));
      After(Step(a, ops[0]), ops[1..])
  }

  /** A shard with a strict limit that starts within its capacity is within it after every run. */
  lemma {:induction false} StrictRun(a: State, ops: seq<Op>)
    requires Inv(a) && a.strict && a.usage <= a.capacity && CarefulRun(a, ops)
    ensures After(a, ops).usage <= After(a, ops).capacity
    decreases |ops|
  {
    if ops != [] {
      StepInv(a, ops[0], Step(a, ops[0]));
      StrictStep(a, ops[0], Step(a, ops[0]));
      StrictRun(Step(a, ops[0]), ops[1..]);
    }
  }

  /* ---------- handles that are held ---------- */

  /** The reference count of every handle is the number of references callers hold. */
  ghost predicate Counts(es: map<Ptr, Entry>, held: multiset<Ptr>) {
    (forall p :: p in es ==> es[p].refs == held[p]) && (forall p :: p in held ==> p in es)
  }

  ghost predicate Counted(es: map<Ptr, Entry>, held: multiset<Ptr>) {
    forall n: nat {:trigger Open(n)} :: Open(n) ==> Counts(es, held)
  }

  /** The handle the operation hands to its caller. */
  ghost function Got(a: State, op: Op): Ptr
    requires Inv(a)
  {
    match op
    case Insert(p, _, c, _, _, keep) => if keep && !Refused(a, c, keep) then p else NULL
    case Lookup(tag) => if tag in a.dir then a.dir[tag] else NULL
    case Ref(e) => e
    case CreateStandalone(p, _, c, _, allowUncharged) => if StandaloneRefused(a, c) && !allowUncharged then NULL else p
    case _ => NULL
  }

  ghost function HeldAfter(a: State, held: multiset<Ptr>, op: Op): multiset<Ptr>
    requires Inv(a)
  {
    if op.Release? then held - multiset{op.e}
    else if Got(a, op) == NULL then held
    else held + multiset{Got(a, op)}
  }

  /** Only entries nobody refers to are gone; the others keep references, value and tag. */
  ghost predicate OnlyIdleGone(a: State, r: State) {
    && (forall p :: p in r.es ==> p in a.es && r.es[p].refs == a.es[p].refs && Same(a, r, p))
    && (forall p :: p in a.es && a.es[p].refs > 0 ==> p in r.es)
  }

  ghost predicate Same(a: State, r: State, p: Ptr) {
    p in a.es && p in a.tags && p in r.es && p in r.tags && r.es[p].value == a.es[p].value && r.tags[p] == a.tags[p]
  }

  lemma IdleGoneCounted(a: State, r: State, held: multiset<Ptr>)
    requires Counted(a.es, held) && OnlyIdleGone(a, r)
    ensures Counted(r.es, held)
  {
    assert Open(0);
  }

  lemma ErasedIdle(a: State, tag: Tag, r: State)
    requires Sound(a) && r == Erased(a, tag)
    ensures OnlyIdleGone(a, r)
  {
    OrderOk(a);
  }

  lemma EvictOneIdle(a: State, r: State)
    requires Sound(a) && a.ls.order != [] && r == EvictOne(a)
    ensures OnlyIdleGone(a, r) && Sound(r) && |r.ls.order| < |a.ls.order|
  {
    OldestFacts(a, a.ls.order[0]);
    EvictOneSound(a);
    ErasedIdle(a, a.tags[a.ls.order[0]], r);
  }

  lemma IdleGoneTwice(a: State, b: State, r: State)
    requires OnlyIdleGone(a, b) && OnlyIdleGone(b, r)
    ensures OnlyIdleGone(a, r)
  {
  }

  lemma {:induction false} EvictIdle(a: State, need: nat, r: State)
    requires Sound(a) && r == Evict(a, need)
    ensures OnlyIdleGone(a, r)
    decreases |a.ls.order|
  {
    OrderOk(a);
    if a.usage + need > a.capacity && a.ls.order != [] {
      var b := EvictOne(a);
      EvictOneIdle(a, b);
      EvictIdle(b, need, r);
      IdleGoneTwice(a, b, r);
    }
  }

  lemma {:induction false} EvictAllIdle(a: State, r: State)
    requires Sound(a) && r == EvictAll(a)
    ensures OnlyIdleGone(a, r)
    decreases |a.ls.order|
  {
    OrderOk(a);
    if a.ls.order != [] {
      var b := EvictOne(a);
      EvictOneIdle(a, b);
      EvictAllIdle(b, r);
      IdleGoneTwice(a, b, r);
    }
  }

  lemma NewCounted(es: map<Ptr, Entry>, held: multiset<Ptr>, p: Ptr, e: Entry)
    requires Counted(es, held) && p !in es
    ensures e.refs == 1 ==> Counted(es[p := e], held + multiset{p})
    ensures e.refs == 0 ==> Counted(es[p := e], held)
  {
    assert Open(0);
  }

  lemma GainedCounted(es: map<Ptr, Entry>, held: multiset<Ptr>, p: Ptr, e: Entry)
    requires Counted(es, held) && p in es && e.refs == es[p].refs + 1
    ensures Counted(es[p := e], held + multiset{p})
  {
    assert Open(0);
  }

  lemma LostCounted(es: map<Ptr, Entry>, held: multiset<Ptr>, p: Ptr, e: Entry)
    requires Counted(es, held) && p in es && es[p].refs > 0 && e.refs == es[p].refs - 1
    ensures Counted(es[p := e], held - multiset{p})
    ensures e.refs == 0 ==> Counted(es - {p}, held - multiset{p})
  {
    assert Open(0);
  }

  lemma AddedEntries(a: State, p: Ptr, tag: Tag, c: nat, value: nat, pri: Priority, keep: bool, b: State, r: State)
    requires b == Erased(a, tag) && r == Added(a, p, tag, c, value, pri, keep)
    ensures r.es == b.es[p := Entry(value, if keep then 1 else 0, true, false, pri)] && r.tags == b.tags[p := tag]
  {
  }

  /** Before the new entry comes in, only idle entries go. */
  lemma InsertIdle(a: State, p: Ptr, tag: Tag, c: nat, value: nat, pri: Priority, keep: bool, d: State, r: State)
    requires Inv(a) && FreshPtr(a, p) && r == AfterInsert(a, p, tag, c, value, pri, keep)
    requires d == if Refused(a, c, keep) then Evict(a, c) else Erased(Evict(a, c), tag)
    ensures OnlyIdleGone(a, d) && p !in d.es
    ensures if Refused(a, c, keep) then r == d
            else r.es == d.es[p := Entry(value, if keep then 1 else 0, true, false, pri)] && r.tags == d.tags[p := tag]
  {
    var b := Evict(a, c);
    EvictIdle(a, c, b);
    if !Refused(a, c, keep) {
      ErasedSound(b, tag, d);
      ErasedIdle(b, tag, d);
      IdleGoneTwice(a, b, d);
      AddedEntries(b, p, tag, c, value, pri, keep, d, r);
    }
  }

  /** The value and the tag of a handle that is held before and after a step do not change. */
  ghost predicate KeepsHeld(a: State, r: State, held: multiset<Ptr>) {
    forall p :: p in held && p in r.es ==> Same(a, r, p)
  }

  /** The step keeps reference counts equal to the references held, and held entries as they are. */
  ghost predicate StepKeeps(a: State, held: multiset<Ptr>, r: State, held': multiset<Ptr>) {
    Counted(r.es, held') && KeepsHeld(a, r, held)
  }

  lemma IdleKeeps(a: State, held: multiset<Ptr>, r: State)
    requires Counted(a.es, held) && OnlyIdleGone(a, r)
    ensures StepKeeps(a, held, r, held)
  {
    IdleGoneCounted(a, r, held);
  }

  /** Adding a new handle after idle entries have gone. */
  lemma AddKeeps(a: State, held: multiset<Ptr>, d: State, p: Ptr, tag: Tag, e: Entry, r: State, held': multiset<Ptr>)
    requires Counted(a.es, held) && OnlyIdleGone(a, d) && p !in a.es && r.es == d.es[p := e] && r.tags == d.tags[p := tag]
    requires if e.refs == 0 then held' == held else e.refs == 1 && held' == held + multiset{p}
    ensures StepKeeps(a, held, r, held')
  {
    IdleGoneCounted(a, d, held);
    NewCounted(d.es, held, p, e);
    assert p !in held by { assert Open(0); }
  }

  lemma InsertKeeps(a: State, held: multiset<Ptr>, p: Ptr, tag: Tag, c: nat, value: nat, pri: Priority, keep: bool, r: State)
    requires Inv(a) && FreshPtr(a, p) && Counted(a.es, held) && r == AfterInsert(a, p, tag, c, value, pri, keep)
    ensures StepKeeps(a, held, r, if keep && !Refused(a, c, keep) then held + multiset{p} else held)
  {
    var d := if Refused(a, c, keep) then Evict(a, c) else Erased(Evict(a, c), tag);
    InsertIdle(a, p, tag, c, value, pri, keep, d, r);
    if Refused(a, c, keep) {
      IdleKeeps(a, held, r);
    } else {
      AddKeeps(a, held, d, p, tag, r.es[p], r, if keep then held + multiset{p} else held);
    }
  }

  lemma LookupKeeps(a: State, held: multiset<Ptr>, tag: Tag, r: State)
    requires Inv(a) && Counted(a.es, held) && r == AfterLookup(a, tag)
    ensures StepKeeps(a, held, r, if tag in a.dir then held + multiset{a.dir[tag]} else held)
  {
    OrderOk(a);
    if tag in a.dir {
      ListedFacts(a, tag, a.dir[tag]);
      GainedCounted(a.es, held, a.dir[tag], r.es[a.dir[tag]]);
    }
    assert forall p :: p in held ==> p in a.es by { assert Open(0); }
  }

  lemma RefKeeps(a: State, held: multiset<Ptr>, e: Ptr, r: State)
    requires Inv(a) && e in a.es && Counted(a.es, held) && r == AfterRef(a, e)
    ensures StepKeeps(a, held, r, held + multiset{e})
  {
    OrderOk(a);
    GainedCounted(a.es, held, e, r.es[e]);
    assert forall p :: p in held ==> p in a.es by { assert Open(0); }
  }

  lemma ReleaseKeeps(a: State, held: multiset<Ptr>, e: Ptr, erase: bool, r: State)
    requires Inv(a) && e in a.es && e in a.tags && a.es[e].refs > 0 && Counted(a.es, held) && r == AfterRelease(a, e, erase)
    ensures StepKeeps(a, held, r, held - multiset{e})
  {
    OrderOk(a);
    var entry := a.es[e].(refs := a.es[e].refs - 1);
    LostCounted(a.es, held, e, entry);
    assert (r.es == a.es[e := entry] && r.tags == a.tags) || (entry.refs == 0 && r.es == a.es - {e} && r.tags == a.tags - {e});
  }

  lemma StandaloneKeeps(a: State, held: multiset<Ptr>, p: Ptr, tag: Tag, c: nat, value: nat, allowUncharged: bool, r: State)
    requires Inv(a) && FreshPtr(a, p) && Counted(a.es, held) && r == AfterStandalone(a, p, tag, c, value, allowUncharged)
    ensures StepKeeps(a, held, r, if StandaloneRefused(a, c) && !allowUncharged then held else held + multiset{p})
  {
    var b := Evict(a, c);
    EvictIdle(a, c, b);
    if StandaloneRefused(a, c) && !allowUncharged {
      IdleKeeps(a, held, r);
    } else {
      AddKeeps(a, held, b, p, tag, Entry(value, 1, false, false, BottomPri), r, held + multiset{p});
    }
  }

  lemma SetCapacityKeeps(a: State, held: multiset<Ptr>, capacity: nat, r: State)
    requires Inv(a) && Counted(a.es, held) && r == AfterSetCapacity(a, capacity)
    ensures StepKeeps(a, held, r, held)
  {
    LimitedSound(a, capacity);
    EvictIdle(Limited(a, capacity), 0, r);
    assert OnlyIdleGone(a, r);
    IdleKeeps(a, held, r);
  }

  lemma SettingKeeps(a: State, held: multiset<Ptr>, r: State)
    requires Inv(a) && Counted(a.es, held) && r.es == a.es && r.tags == a.tags
    ensures StepKeeps(a, held, r, held)
  {
    OrderOk(a);
  }

  predicate HandsOut(op: Op) {
    op.Insert? || op.Lookup? || op.Ref? || op.Release? || op.CreateStandalone?
  }

  lemma MakingKeeps(a: State, held: multiset<Ptr>, op: Op, r: State)
    requires Inv(a) && Can(a, op) && Counted(a.es, held) && r == Step(a, op) && (op.Insert? || op.CreateStandalone?)
    ensures StepKeeps(a, held, r, HeldAfter(a, held, op))
  {
    OrderOk(a);
    match op
    case Insert(p, tag, c, value, pri, keep) => InsertKeeps(a, held, p, tag, c, value, pri, keep, r);
    case CreateStandalone(p, tag, c, value, allowUncharged) => StandaloneKeeps(a, held, p, tag, c, value, allowUncharged, r);
    case _ => assert false;
  }

  lemma HandingKeeps(a: State, held: multiset<Ptr>, op: Op, r: State)
    requires Inv(a) && Can(a, op) && Counted(a.es, held) && r == Step(a, op) && (op.Lookup? || op.Ref? || op.Release?)
    ensures StepKeeps(a, held, r, HeldAfter(a, held, op))
  {
    OrderOk(a);
    match op
    case Lookup(tag) =>
      if tag in a.dir {
        ListedFacts(a, tag, a.dir[tag]);
      }
      LookupKeeps(a, held, tag, r);
    case Ref(e) => RefKeeps(a, held, e, r);
    case Release(e, erase) => ReleaseKeeps(a, held, e, erase, r);
    case _ => assert false;
  }

  lemma OtherKeeps(a: State, held: multiset<Ptr>, op: Op, r: State)
    requires Inv(a) && Can(a, op) && Counted(a.es, held) && r == Step(a, op) && !HandsOut(op)
    ensures StepKeeps(a, held, r, held)
  {
    match op
    case Erase(tag) => ErasedIdle(a, tag, r); IdleKeeps(a, held, r);
    case SetCapacity(capacity) => SetCapacityKeeps(a, held, capacity, r);
    case EraseUnRefEntries => EvictAllIdle(a, r); IdleKeeps(a, held, r);
    case _ => SettingKeeps(a, held, r);
  }

  lemma StepKeepsHandles(a: State, held: multiset<Ptr>, op: Op, r: State)
    requires Inv(a) && Can(a, op) && Counted(a.es, held) && r == Step(a, op)
    ensures StepKeeps(a, held, r, HeldAfter(a, held, op))
  {
    if op.Insert? || op.CreateStandalone? {
      MakingKeeps(a, held, op, r);
    } else if HandsOut(op) {
      HandingKeeps(a, held, op, r);
    } else {
      OtherKeeps(a, held, op, r);
    }
  }

  /** Callers refer to and release only what they hold. */
  predicate Polite(a: State, held: multiset<Ptr>, op: Op) {
    match op
    case Ref(e) => e in held
    case Release(e, _) => e in held
    case _ => Can(a, op)
  }

  lemma PoliteCan(a: State, held: multiset<Ptr>, op: Op)
    requires Counted(a.es, held) && Polite(a, held, op)
    ensures Can(a, op)
  {
    assert Open(0);
  }

  lemma PoliteStep(a: State, held: multiset<Ptr>, op: Op)
    requires Inv(a) && Counted(a.es, held) && Polite(a, held, op)
    ensures Can(a, op) && Inv(Step(a, op)) && Counted(Step(a, op).es, HeldAfter(a, held, op))
  {
    PoliteCan(a, held, op);
    StepInv(a, op, Step(a, op));
    StepKeepsHandles(a, held, op, Step(a, op));
  }

  ghost predicate PoliteRun(a: State, held: multiset<Ptr>, ops: seq<Op>)
    requires Inv(a) && Counted(a.es, held)
    decreases |ops|
  {
    ops == [] ||
    (Polite(a, held, ops[0]) &&
     (PoliteStep(a, held, ops[0]);
      PoliteRun(Step(a, ops[0]), HeldAfter(a, held, ops[0]), ops[1..])))
  }

  /** The state and the references held at the end of a run, and whether `p` was held all along. */
  datatype Outcome = Outcome(a: State, held: multiset<Ptr>)

  ghost function Result(a: State, held: multiset<Ptr>, ops: seq<Op>): (r: Outcome)
    requires Inv(a) && Counted(a.es, held) && PoliteRun(a, held, ops)
    ensures Inv(r.a) && Counted(r.a.es, r.held)
    decreases |ops|
  {
    if ops == [] then Outcome(a, held)
    else
      PoliteStep(a, held, ops[0]);
      Result(Step(a, ops[0]), HeldAfter(a, held, ops[0]), ops[1..])
  }

  ghost predicate HeldThroughout(a: State, held: multiset<Ptr>, ops: seq<Op>, p: Ptr)
    requires Inv(a) && Counted(a.es, held) && PoliteRun(a, held, ops)
    decreases |ops|
  {
    p in held &&
    (ops == [] ||
     (PoliteStep(a, held, ops[0]);
      HeldThroughout(Step(a, ops[0]), HeldAfter(a, held, ops[0]), ops[1..], p)))
  }

  /** After every run in which callers release what they hold, every handle still held exists, with exactly
      that many references. */
  lemma HeldHandlesLive(a: State, held: multiset<Ptr>, ops: seq<Op>, p: Ptr)
    requires Inv(a) && Counted(a.es, held) && PoliteRun(a, held, ops)
    ensures var r := Result(a, held, ops);
            (p in r.held ==> p in r.a.es) && (p in r.a.es ==> r.a.es[p].refs == r.held[p])
  {
    assert Open(0);
  }

  lemma SameTwice(a: State, b: State, r: State, p: Ptr)
    requires Same(a, b, p) && Same(b, r, p)
    ensures Same(a, r, p)
  {
  }

  lemma HeldIsSame(a: State, held: multiset<Ptr>, p: Ptr)
    requires Inv(a) && Counted(a.es, held) && p in held
    ensures p in a.es && Same(a, a, p)
  {
    OrderOk(a);
    assert Open(0);
  }

  lemma HeldStep(a: State, held: multiset<Ptr>, op: Op, b: State, held': multiset<Ptr>, p: Ptr)
    requires Inv(a) && Counted(a.es, held) && Can(a, op) && b == Step(a, op) && held' == HeldAfter(a, held, op)
    requires p in held && p in held'
    ensures Same(a, b, p)
  {
    StepKeepsHandles(a, held, op, b);
    StepInv(a, op, b);
    HeldIsSame(b, held', p);
  }

  /** A handle held throughout a run has the same key and value at its end, whatever else was inserted,
      evicted or erased. */
  lemma {:induction false} HeldEntriesStay(a: State, held: multiset<Ptr>, ops: seq<Op>, p: Ptr)
    requires Inv(a) && Counted(a.es, held) && PoliteRun(a, held, ops) && HeldThroughout(a, held, ops, p)
    ensures Same(a, Result(a, held, ops).a, p)
    decreases |ops|
  {
    if ops == [] {
      HeldIsSame(a, held, p);
    } else {
      PoliteStep(a, held, ops[0]);
      var b, held' := Step(a, ops[0]), HeldAfter(a, held, ops[0]);
      HeldEntriesStay(b, held', ops[1..], p);
      HeldStep(a, held, ops[0], b, held', p);
      SameTwice(a, b, Result(b, held', ops[1..]).a, p);
    }
  }
}
