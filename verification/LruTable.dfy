/**
 The hash table of a cache shard: buckets of singly linked chains through the handles,
 indexed by the upper bits of the hash, doubled when it holds an entry per bucket.
 */
module LruTable {
  import opened Seal
  import opened Coding
  import opened LruList

  /** What identifies an entry: the key and its hash. */
  datatype Tag = Tag(key: seq<byte>, hash: uint32)

  /** The fields of a handle that the table uses. */
  datatype Cell = Cell(tag: Tag, next: Ptr)

  datatype Table = Table(lengthBits: nat, maxBits: nat, list: seq<Ptr>, cells: map<Ptr, Cell>, elems: nat)

  function Pow2(n: nat): (r: nat)
    ensures r >= 1
  {
    if n == 0 then 1 else 2 * Pow2(n - 1)
  }

  /** `x >> n` */
  function ShiftRight(x: nat, n: nat): nat
    decreases n
  {
    if n == 0 then x else ShiftRight(x / 2, n - 1)
  }

  lemma {:induction false} ShiftBound(x: nat, n: nat, k: nat)
    requires n <= k && x < Pow2(k)
    ensures ShiftRight(x, n) < Pow2(k - n)
    decreases n
  {
    if n > 0 {
      ShiftBound(x / 2, n - 1, k - 1);
    }
  }

  lemma Pow2Of32(n: nat)
    requires n == 32
    ensures Pow2(n) == TWO32
  {
    assert Pow2(8) == 256;
    assert Pow2(16) == Pow2(8) * 256;
    assert Pow2(24) == Pow2(16) * 256;
    assert Pow2(32) == Pow2(24) * 256;
  }

  /** The bucket of a hash: its upper bits. */
  function Bucket(hash: uint32, bits: nat): (b: nat)
    requires bits <= 32
    ensures b < Pow2(bits)
  {
    assert ShiftRight(hash, 32 - bits) < Pow2(bits) by {
      Pow2Of32(32);
      ShiftBound(hash, 32 - bits, 32);
    }
    ShiftRight(hash, 32 - bits)
  }

  /* ---------- chains ---------- */

  /** From `start`, `next` leads through `ps` and then to `end`. */
  ghost predicate Path(cells: map<Ptr, Cell>, start: Ptr, ps: seq<Ptr>, end: Ptr)
    decreases |ps|
  {
    if ps == [] then start == end
    else start == ps[0] && start != NULL && start in cells && Path(cells, cells[start].next, ps[1..], end)
  }

  ghost function First(ps: seq<Ptr>, end: Ptr): Ptr {
    if ps == [] then end else ps[0]
  }

  lemma {:induction false} PathConcat(cells: map<Ptr, Cell>, start: Ptr, a: seq<Ptr>, b: seq<Ptr>, end: Ptr)
    ensures Path(cells, start, a + b, end) <==> Path(cells, start, a, First(b, end)) && Path(cells, First(b, end), b, end)
    decreases |a|
  {
    if a == [] {
      assert a + b == b;
    } else {
      assert (a + b)[1..] == a[1..] + b;
      if start in cells {
        PathConcat(cells, cells[start].next, a[1..], b, end);
      }
    }
  }

  lemma {:induction false} PathFrame(cells: map<Ptr, Cell>, cells': map<Ptr, Cell>, start: Ptr, ps: seq<Ptr>, end: Ptr)
    requires Path(cells, start, ps, end)
    requires forall p :: p in ps && p in cells ==> p in cells' && cells'[p].next == cells[p].next
    ensures Path(cells', start, ps, end)
    decreases |ps|
  {
    if ps != [] {
      PathFrame(cells, cells', cells[start].next, ps[1..], end);
    }
  }

  lemma {:induction false} PathUnique(cells: map<Ptr, Cell>, start: Ptr, a: seq<Ptr>, b: seq<Ptr>)
    requires Path(cells, start, a, NULL) && Path(cells, start, b, NULL)
    ensures a == b
    decreases |a|
  {
    if a != [] && b != [] {
      PathUnique(cells, cells[start].next, a[1..], b[1..]);
      assert a == [a[0]] + a[1..] && b == [b[0]] + b[1..];
    }
  }

  lemma {:induction false} PathMembers(cells: map<Ptr, Cell>, start: Ptr, ps: seq<Ptr>, end: Ptr)
    requires Path(cells, start, ps, end)
    ensures forall p :: p in ps ==> p in cells && p != NULL
    decreases |ps|
  {
    if ps != [] {
      PathMembers(cells, cells[start].next, ps[1..], end);
      assert ps == [ps[0]] + ps[1..];
    }
  }

  /** The part of a chain from position `k` on. */
  lemma PathFrom(cells: map<Ptr, Cell>, start: Ptr, ps: seq<Ptr>, k: nat)
    requires Path(cells, start, ps, NULL) && k <= |ps|
    ensures Path(cells, First(ps[k..], NULL), ps[k..], NULL) && Path(cells, start, ps[..k], First(ps[k..], NULL))
  {
    assert ps == ps[..k] + ps[k..];
    PathConcat(cells, start, ps[..k], ps[k..], NULL);
  }

  /** A chain that ends does not visit a handle twice. */
  lemma {:induction false} PathDistinct(cells: map<Ptr, Cell>, start: Ptr, ps: seq<Ptr>)
    requires Path(cells, start, ps, NULL)
    ensures Distinct(ps)
    decreases |ps|
  {
    if ps != [] {
      PathDistinct(cells, cells[start].next, ps[1..]);
      if ps[0] in ps[1..] {
        var k :| 1 <= k < |ps| && ps[k] == ps[0];
        PathFrom(cells, start, ps, k);
        PathUnique(cells, start, ps, ps[k..]);
        assert false;
      }
    }
  }

  /* ---------- the addresses of links ---------- */

  /** The address of a link: a bucket, or the `next` of a handle. */
  datatype Slot = InList(b: nat) | InCell(p: Ptr)

  predicate SlotOk(t: Table, slot: Slot) {
    match slot case InList(b) => b < |t.list| case InCell(p) => p in t.cells
  }

  function Load(t: Table, slot: Slot): Ptr
    requires SlotOk(t, slot)
  {
    match slot case InList(b) => t.list[b] case InCell(p) => t.cells[p].next
  }

  function Store(t: Table, slot: Slot, x: Ptr): Table
    requires SlotOk(t, slot)
  {
    match slot
    case InList(b) => t.(list := t.list[b := x])
    case InCell(p) => t.(cells := t.cells[p := t.cells[p].(next := x)])
  }

  /** The slot of position `k` of the chain `c` in bucket `b`. */
  ghost function SlotAt(b: nat, c: seq<Ptr>, k: nat): Slot
    requires k <= |c|
  {
    if k == 0 then InList(b) else InCell(c[k - 1])
  }

  /** Storing into the handle before position `k` keeps the chain up to there and continues with what is stored. */
  lemma StoreInCell(cells: map<Ptr, Cell>, start: Ptr, c: seq<Ptr>, k: nat, q: Ptr, x: Ptr, d: seq<Ptr>, cells': map<Ptr, Cell>)
    requires Path(cells, start, c, NULL) && 0 < k <= |c| && q == c[k - 1] && q in cells
    requires Path(cells, x, d, NULL) && q !in d && cells' == cells[q := cells[q].(next := x)]
    ensures Path(cells', start, c[..k] + d, NULL)
  {
    var a := c[..k - 1];
    PathFrom(cells, start, c, k - 1);
    assert c[k - 1..][0] == q;
    assert q !in a by {
      PathDistinct(cells, start, c);
      DistinctIff(c);
    }
    PathMembers(cells, start, a, q);
    assert q != NULL by { PathMembers(cells, start, c, NULL); }
    PathFrame(cells, cells', start, a, q);
    PathFrame(cells, cells', x, d, NULL);
    assert ([q] + d)[1..] == d;
    PathConcat(cells', start, a, [q] + d, NULL);
    assert c[..k] + d == a + ([q] + d);
  }

  /* ---------- what a table holds ---------- */

  /** `p` is the entry that the directory has for its tag. */
  ghost predicate Listed(cells: map<Ptr, Cell>, dir: map<Tag, Ptr>, p: Ptr) {
    p in cells && cells[p].tag in dir && dir[cells[p].tag] == p
  }

  /** The chains hold exactly the entries of the directory, each in the bucket of its hash. */
  ghost predicate Sorted(cells: map<Ptr, Cell>, bits: nat, chains: seq<seq<Ptr>>, dir: map<Tag, Ptr>) {
    && bits <= 31 && |chains| == Pow2(bits)
    && (forall g :: g in dir ==> dir[g] in cells && cells[dir[g]].tag == g)
    && (forall b, p {:trigger p in chains[b]} :: 0 <= b < |chains| && p in chains[b] ==>
          Listed(cells, dir, p) && Bucket(cells[p].tag.hash, bits) == b)
    && (forall p {:trigger Listed(cells, dir, p)} :: Listed(cells, dir, p) ==> p in chains[Bucket(cells[p].tag.hash, bits)])
  }

  /** Each chain is linked. */
  ghost predicate Chained(list: seq<Ptr>, cells: map<Ptr, Cell>, chains: seq<seq<Ptr>>) {
    |list| == |chains| && forall b :: 0 <= b < |chains| ==> Path(cells, list[b], chains[b], NULL)
  }

  ghost predicate Filed(cells: map<Ptr, Cell>, bits: nat, chains: seq<seq<Ptr>>, dir: map<Tag, Ptr>) {
    forall n: nat {:trigger Open(n)} :: Open(n) ==> Sorted(cells, bits, chains, dir)
  }

  ghost predicate Strung(list: seq<Ptr>, cells: map<Ptr, Cell>, chains: seq<seq<Ptr>>) {
    forall n: nat {:trigger Open(n)} :: Open(n) ==> Chained(list, cells, chains)
  }

  ghost predicate Holds(t: Table, chains: seq<seq<Ptr>>, dir: map<Tag, Ptr>) {
    && t.lengthBits <= 31 && |t.list| == |chains| == Pow2(t.lengthBits)
    && Filed(t.cells, t.lengthBits, chains, dir) && Strung(t.list, t.cells, chains)
    && t.elems == |dir| && NULL !in t.cells
  }

  /** The table holds exactly the entries of `dir`. */
  ghost predicate IsTable(t: Table, dir: map<Tag, Ptr>) {
    exists chains :: Holds(t, chains, dir)
  }

  /** Links may change, entries may not. */
  ghost predicate SameTags(cells: map<Ptr, Cell>, cells': map<Ptr, Cell>) {
    cells'.Keys == cells.Keys && forall p :: p in cells ==> cells'[p].tag == cells[p].tag
  }

  /** On average at most one entry per bucket, unless the table cannot grow. */
  predicate Roomy(t: Table) {
    t.elems < Pow2(t.lengthBits) || t.lengthBits >= t.maxBits || t.lengthBits >= 31
  }

  /* ---------- finding ---------- */

  lemma ChainOf(t: Table, chains: seq<seq<Ptr>>, dir: map<Tag, Ptr>, tag: Tag, b: nat, c: seq<Ptr>)
    requires Holds(t, chains, dir) && b == Bucket(tag.hash, t.lengthBits) && c == chains[b]
    ensures Path(t.cells, t.list[b], c, NULL) && (forall p :: p in c ==> p in t.cells && p != NULL)
    ensures tag in dir ==> dir[tag] in c && t.cells[dir[tag]].tag == tag
    ensures forall p :: p in c && t.cells[p].tag == tag ==> tag in dir && dir[tag] == p
  {
    assert Open(0);
    PathMembers(t.cells, t.list[b], c, NULL);
    if tag in dir {
      assert Listed(t.cells, dir, dir[tag]);
    }
  }

  method FindPointer(t: Table, tag: Tag, ghost chains: seq<seq<Ptr>>, ghost dir: map<Tag, Ptr>)
    returns (slot: Slot, ghost b: nat, ghost k: nat)
    requires Holds(t, chains, dir)
    ensures b == Bucket(tag.hash, t.lengthBits) && k <= |chains[b]| && slot == SlotAt(b, chains[b], k) && SlotOk(t, slot)
    ensures k < |chains[b]| ==> tag in dir && chains[b][k] == dir[tag] == Load(t, slot) && dir[tag] in t.cells && dir[tag] != NULL
    ensures k == |chains[b]| ==> tag !in dir && Load(t, slot) == NULL
  {
    b := Bucket(tag.hash, t.lengthBits);
    slot := InList(Bucket(tag.hash, t.lengthBits));
    ghost var c := chains[b];
    ChainOf(t, chains, dir, tag, b, c);
    k := 0;
    assert c[k..] == c;
    while Load(t, slot) != NULL && t.cells[Load(t, slot)].tag != tag
      invariant k <= |c| && slot == SlotAt(b, c, k) && SlotOk(t, slot)
      invariant Path(t.cells, Load(t, slot), c[k..], NULL)
      invariant tag in dir ==> dir[tag] in c[k..]
      decreases |c| - k
    {
      assert c[k..] == [c[k]] + c[k + 1..];
      slot, k := InCell(Load(t, slot)), k + 1;
    }
    if k < |c| {
      assert c[k..][0] == c[k];
    }
  }

  method Lookup(t: Table, tag: Tag, ghost dir: map<Tag, Ptr>) returns (e: Ptr)
    requires IsTable(t, dir)
    ensures e == if tag in dir then dir[tag] else NULL
  {
    ghost var chains :| Holds(t, chains, dir);
    var slot, b, k := FindPointer(t, tag, chains, dir);
    e := Load(t, slot);
  }

  /* ---------- storing ---------- */

  /** No handle is in two chains. */
  ghost predicate Apart(chains: seq<seq<Ptr>>, b: nat, c: seq<Ptr>) {
    forall b', p :: 0 <= b' < |chains| && b' != b && p in chains[b'] ==> p !in c
  }

  lemma FiledApart(cells: map<Ptr, Cell>, bits: nat, chains: seq<seq<Ptr>>, dir: map<Tag, Ptr>, b: nat)
    requires Filed(cells, bits, chains, dir) && b < |chains|
    ensures Apart(chains, b, chains[b])
  {
    assert Open(0);
  }

  /** Storing `x`, the start of `d`, at position `k` of a chain. Other chains do not notice. */
  lemma StoreStrings(t: Table, chains: seq<seq<Ptr>>, b: nat, c: seq<Ptr>, k: nat, x: Ptr, d: seq<Ptr>, t': Table)
    requires Strung(t.list, t.cells, chains) && |t.list| == |chains| && b < |chains| && c == chains[b] && Apart(chains, b, c)
    requires k <= |c| && SlotOk(t, SlotAt(b, c, k)) && t' == Store(t, SlotAt(b, c, k), x)
    requires Path(t.cells, x, d, NULL) && forall j :: 0 <= j < k ==> c[j] !in d
    ensures Strung(t'.list, t'.cells, chains[b := c[..k] + d])
  {
    assert Open(0);
    if k == 0 {
      assert c[..k] + d == d;
    } else {
      StoreInCell(t.cells, t.list[b], c, k, c[k - 1], x, d, t'.cells);
      forall b' | 0 <= b' < |chains| && b' != b ensures Path(t'.cells, t.list[b'], chains[b'], NULL) {
        assert c[k - 1] in c;
        PathFrame(t.cells, t'.cells, t.list[b'], chains[b'], NULL);
      }
    }
  }

  /* ---------- removing ---------- */

  lemma SmallerDirectory(dir: map<Tag, Ptr>, tag: Tag)
    requires tag in dir
    ensures |dir| == |dir - {tag}| + 1
  {
    assert dir == (dir - {tag})[tag := dir[tag]];
  }

  lemma RemoveFiles(cells: map<Ptr, Cell>, bits: nat, chains: seq<seq<Ptr>>, dir: map<Tag, Ptr>,
                    b: nat, c: seq<Ptr>, k: nat, g: Tag, cells': map<Ptr, Cell>)
    requires Filed(cells, bits, chains, dir) && b < |chains| && c == chains[b] && k < |c| && Distinct(c)
    requires g in dir && dir[g] == c[k] && SameTags(cells, cells')
    ensures Filed(cells', bits, chains[b := Without(c, k)], dir - {g})
  {
    assert Open(0);
    RemoveAtMembers(c, k);
    forall p ensures Listed(cells', dir - {g}, p) <==> Listed(cells, dir, p) && p != c[k] {
    }
    var chains' := chains[b := Without(c, k)];
    forall b', p | 0 <= b' < |chains'| && p in chains'[b']
      ensures Listed(cells', dir - {g}, p) && Bucket(cells'[p].tag.hash, bits) == b'
    {
      assert p in chains[b'];
      assert b' != b ==> p != c[k] by { assert c[k] in chains[b]; }
    }
  }

  lemma RemoveHolds(t: Table, chains: seq<seq<Ptr>>, dir: map<Tag, Ptr>, b: nat, c: seq<Ptr>, k: nat, e: Ptr, tag: Tag, t': Table)
    requires Holds(t, chains, dir) && b < |chains| && c == chains[b] && k < |c| && c[k] == e && e in t.cells
    requires tag in dir && dir[tag] == e && SlotOk(t, SlotAt(b, c, k)) && t' == Store(t, SlotAt(b, c, k), t.cells[e].next)
    ensures t.elems > 0 && Holds(t'.(elems := t.elems - 1), chains[b := Without(c, k)], dir - {tag}) && SameTags(t.cells, t'.cells)
  {
    var d := c[k + 1..];
    assert Path(t.cells, t.cells[e].next, d, NULL) && Distinct(c) by {
      assert Open(0);
      PathFrom(t.cells, t.list[b], c, k);
      assert c[k..][0] == e && c[k..][1..] == d;
      PathDistinct(t.cells, t.list[b], c);
    }
    DistinctIff(c);
    FiledApart(t.cells, t.lengthBits, chains, dir, b);
    StoreStrings(t, chains, b, c, k, t.cells[e].next, d, t');
    RemoveFiles(t.cells, t.lengthBits, chains, dir, b, c, k, tag, t'.cells);
    SmallerDirectory(dir, tag);
  }

  method Remove(t: Table, tag: Tag, ghost dir: map<Tag, Ptr>) returns (t': Table, e: Ptr)
    requires IsTable(t, dir)
    ensures e == if tag in dir then dir[tag] else NULL
    ensures IsTable(t', dir - {tag}) && SameTags(t.cells, t'.cells) && t'.maxBits == t.maxBits && t'.lengthBits == t.lengthBits
    ensures Roomy(t) ==> Roomy(t')
  {
    ghost var chains :| Holds(t, chains, dir);
    var slot, b, k := FindPointer(t, tag, chains, dir);
    e := Load(t, slot);
    t' := t;
    if e != NULL {
      t' := Store(t, slot, t.cells[e].next);
      RemoveHolds(t, chains, dir, b, chains[b], k, e, tag, t');
      t' := t'.(elems := t.elems - 1);
    } else {
      assert dir - {tag} == dir;
    }
  }

  /* ---------- inserting ---------- */

  /** What follows `h` when it takes the place of position `k`, or comes last. */
  ghost function After(c: seq<Ptr>, k: nat): seq<Ptr>
    requires k <= |c|
  {
    if k < |c| then c[k + 1..] else []
  }

  lemma ReplacedMembers(c: seq<Ptr>, k: nat, h: Ptr, c': seq<Ptr>)
    requires k <= |c| && Distinct(c) && c' == c[..k] + ([h] + After(c, k))
    ensures forall p :: p in c' <==> p == h || (p in c && (k < |c| ==> p != c[k]))
  {
    if k < |c| {
      RemoveAtMembers(c, k);
      assert c' == c[..k] + [h] + c[k + 1..];
    } else {
      assert c[..k] == c;
    }
  }

  lemma ListedAfterInsert(cells: map<Ptr, Cell>, dir: map<Tag, Ptr>, h: Ptr, g: Tag, cells': map<Ptr, Cell>, p: Ptr)
    requires h in cells && g == cells[h].tag && SameTags(cells, cells')
    ensures Listed(cells', dir[g := h], p) <==> p == h || (Listed(cells, dir, p) && cells[p].tag != g)
  {
  }

  lemma InsertFiles(cells: map<Ptr, Cell>, bits: nat, chains: seq<seq<Ptr>>, dir: map<Tag, Ptr>,
                    b: nat, c: seq<Ptr>, k: nat, h: Ptr, g: Tag, c': seq<Ptr>, cells': map<Ptr, Cell>)
    requires Filed(cells, bits, chains, dir) && h in cells && !Listed(cells, dir, h) && g == cells[h].tag && bits <= 31
    requires b == Bucket(g.hash, bits) && b < |chains| && c == chains[b] && k <= |c| && Distinct(c)
    requires if k < |c| then g in dir && dir[g] == c[k] else g !in dir
    requires c' == c[..k] + ([h] + After(c, k)) && SameTags(cells, cells')
    ensures Filed(cells', bits, chains[b := c'], dir[g := h])
  {
    assert Open(0);
    ReplacedMembers(c, k, h, c');
    var chains', dir' := chains[b := c'], dir[g := h];
    forall b', p {:trigger p in chains'[b']} | 0 <= b' < |chains'| && p in chains'[b']
      ensures Listed(cells', dir', p) && Bucket(cells'[p].tag.hash, bits) == b'
    {
      assert p == h || p in chains[b'];
      ListedAfterInsert(cells, dir, h, g, cells', p);
    }
    forall p {:trigger Listed(cells', dir', p)} | Listed(cells', dir', p) ensures p in chains'[Bucket(cells'[p].tag.hash, bits)] {
      ListedAfterInsert(cells, dir, h, g, cells', p);
    }
  }

  lemma FreshStrung(t: Table, chains: seq<seq<Ptr>>, dir: map<Tag, Ptr>, h: Ptr, x: Ptr, t1: Table)
    requires Filed(t.cells, t.lengthBits, chains, dir) && Strung(t.list, t.cells, chains)
    requires h in t.cells && !Listed(t.cells, dir, h) && t1 == t.(cells := t.cells[h := t.cells[h].(next := x)])
    ensures Strung(t1.list, t1.cells, chains) && forall b :: 0 <= b < |chains| ==> h !in chains[b]
  {
    assert Open(0);
    forall b | 0 <= b < |chains| ensures Path(t1.cells, t1.list[b], chains[b], NULL) {
      PathFrame(t.cells, t1.cells, t.list[b], chains[b], NULL);
    }
  }

  lemma AfterPath(t: Table, chains: seq<seq<Ptr>>, b: nat, c: seq<Ptr>, k: nat, h: Ptr)
    requires Strung(t.list, t.cells, chains) && |t.list| == |chains| && b < |chains| && c == chains[b] && k <= |c|
    requires h in t.cells && h != NULL && h !in c
    requires if k < |c| then c[k] in t.cells && t.cells[h].next == t.cells[c[k]].next else t.cells[h].next == NULL
    ensures Path(t.cells, h, [h] + After(c, k), NULL) && Distinct(c)
    ensures forall j :: 0 <= j < k ==> c[j] !in [h] + After(c, k)
  {
    assert Open(0);
    PathDistinct(t.cells, t.list[b], c);
    DistinctIff(c);
    if k < |c| {
      PathFrom(t.cells, t.list[b], c, k);
      assert c[k..][0] == c[k] && c[k..][1..] == c[k + 1..];
    }
    assert ([h] + After(c, k))[1..] == After(c, k);
  }

  lemma InsertHolds(t: Table, chains: seq<seq<Ptr>>, dir: map<Tag, Ptr>, b: nat, c: seq<Ptr>, k: nat, h: Ptr, tag: Tag, t1: Table, t2: Table)
    requires Holds(t, chains, dir) && h in t.cells && !Listed(t.cells, dir, h) && tag == t.cells[h].tag
    requires b == Bucket(tag.hash, t.lengthBits) && c == chains[b] && k <= |c|
    requires if k < |c| then tag in dir && dir[tag] == c[k] && c[k] in t.cells else tag !in dir
    requires t1 == t.(cells := t.cells[h := t.cells[h].(next := if k < |c| then t.cells[c[k]].next else NULL)])
    requires SlotOk(t, SlotAt(b, c, k)) && t2 == Store(t1, SlotAt(b, c, k), h)
    ensures Holds(t2.(elems := if k < |c| then t.elems else t.elems + 1), chains[b := c[..k] + ([h] + After(c, k))], dir[tag := h])
    ensures SameTags(t.cells, t2.cells)
  {
    FreshStrung(t, chains, dir, h, t1.cells[h].next, t1);
    assert k < |c| ==> c[k] != h by { assert k < |c| ==> c[k] in c; }
    AfterPath(t1, chains, b, c, k, h);
    FiledApart(t.cells, t.lengthBits, chains, dir, b);
    StoreStrings(t1, chains, b, c, k, h, [h] + After(c, k), t2);
    InsertFiles(t.cells, t.lengthBits, chains, dir, b, c, k, h, tag, c[..k] + ([h] + After(c, k)), t2.cells);
  }

  /** The entry becomes the one for its tag; the one it replaces, if any, is returned. */
  method Insert(t: Table, h: Ptr, ghost dir: map<Tag, Ptr>) returns (t': Table, old_: Ptr)
    requires IsTable(t, dir) && h in t.cells && !Listed(t.cells, dir, h)
    ensures old_ == if t.cells[h].tag in dir then dir[t.cells[h].tag] else NULL
    ensures IsTable(t', dir[t.cells[h].tag := h]) && SameTags(t.cells, t'.cells) && t'.maxBits == t.maxBits
    ensures t.lengthBits <= t'.lengthBits <= t.lengthBits + 1 && (Roomy(t) ==> Roomy(t'))
  {
    ghost var chains :| Holds(t, chains, dir);
    var tag := t.cells[h].tag;
    var slot, b, k := FindPointer(t, tag, chains, dir);
    old_ := Load(t, slot);
    var t1 := t.(cells := t.cells[h := t.cells[h].(next := if old_ == NULL then NULL else t.cells[old_].next)]);
    var t2 := Store(t1, slot, h);
    InsertHolds(t, chains, dir, b, chains[b], k, h, tag, t1, t2);
    if old_ == NULL {
      t' := t2.(elems := t.elems + 1);
      if t'.elems >= Pow2(t'.lengthBits) {
        t' := Resize(t', dir[tag := h]);
      }
    } else {
      t' := t2;
    }
  }

  /* ---------- doubling ---------- */

  /** The entries `done` sit in the new chains. */
  ghost predicate Moved(cells: map<Ptr, Cell>, bits: nat, list: seq<Ptr>, chains: seq<seq<Ptr>>, done: set<Ptr>) {
    && bits <= 31 && |list| == |chains| == Pow2(bits)
    && (forall p :: p in done ==> p in cells && p in chains[Bucket(cells[p].tag.hash, bits)])
    && (forall b :: 0 <= b < |chains| ==> Path(cells, list[b], chains[b], NULL))
    && (forall b, p {:trigger p in chains[b]} :: 0 <= b < |chains| && p in chains[b] ==> p in done && Bucket(cells[p].tag.hash, bits) == b)
  }

  ghost predicate HasMoved(cells: map<Ptr, Cell>, bits: nat, list: seq<Ptr>, chains: seq<seq<Ptr>>, done: set<Ptr>) {
    forall n: nat {:trigger Open(n)} :: Open(n) ==> Moved(cells, bits, list, chains, done)
  }

  lemma PushKeeps(cells: map<Ptr, Cell>, bits: nat, list: seq<Ptr>, chains: seq<seq<Ptr>>, done: set<Ptr>, h: Ptr, b: nat,
                  cells': map<Ptr, Cell>, c': seq<Ptr>)
    requires HasMoved(cells, bits, list, chains, done) && h in cells && h != NULL && h !in done
    requires bits <= 31 && b == Bucket(cells[h].tag.hash, bits) && b < |list| == |chains|
    requires cells' == cells[h := cells[h].(next := list[b])] && c' == [h] + chains[b]
    ensures HasMoved(cells', bits, list[b := h], chains[b := c'], done + {h})
  {
    assert Open(0);
    forall b' | 0 <= b' < |chains| ensures Path(cells', list[b'], chains[b'], NULL) {
      PathFrame(cells, cells', list[b'], chains[b'], NULL);
    }
    assert c'[1..] == chains[b];
  }

  /** Entries are moved bucket by bucket, in chain order: those of buckets before `i`, and those of
      bucket `i` that are not in `rest`. */
  ghost predicate Passed(t: Table, dir: map<Tag, Ptr>, i: nat, rest: seq<Ptr>, p: Ptr)
    requires t.lengthBits <= 31
  {
    Listed(t.cells, dir, p) &&
    var b := Bucket(t.cells[p].tag.hash, t.lengthBits);
    b < i || (b == i && p !in rest)
  }

  ghost predicate Progress(t: Table, dir: map<Tag, Ptr>, i: nat, rest: seq<Ptr>, done: set<Ptr>) {
    t.lengthBits <= 31 && forall n: nat {:trigger Open(n)} :: Open(n) ==> forall p :: p in done <==> Passed(t, dir, i, rest, p)
  }

  lemma {:induction false} ListedCount(cells: map<Ptr, Cell>, dir: map<Tag, Ptr>, done: set<Ptr>)
    requires forall g :: g in dir ==> dir[g] in cells && cells[dir[g]].tag == g
    requires forall p :: p in done <==> Listed(cells, dir, p)
    ensures |done| == |dir|
    decreases |dir|
  {
    if g :| g in dir {
      SmallerDirectory(dir, g);
      var e := dir[g];
      assert Listed(cells, dir, e);
      assert forall p :: Listed(cells, dir - {g}, p) <==> Listed(cells, dir, p) && p != e;
      ListedCount(cells, dir - {g}, done - {e});
    } else {
      assert done == {};
    }
  }

  /** Only `next` links of moved entries differ from the old table. */
  ghost predicate OnlyMoved(old_: map<Ptr, Cell>, cells: map<Ptr, Cell>, done: set<Ptr>) {
    SameTags(old_, cells) && forall p :: p in old_ && p !in done ==> cells[p] == old_[p]
  }

  lemma NextToMove(t: Table, chains: seq<seq<Ptr>>, dir: map<Tag, Ptr>, i: nat, rest: seq<Ptr>, done: set<Ptr>, h: Ptr)
    requires Filed(t.cells, t.lengthBits, chains, dir) && i < |chains| && (forall p :: p in rest ==> p in chains[i])
    requires Progress(t, dir, i, rest, done) && h != NULL && Path(t.cells, h, rest, NULL)
    ensures rest != [] && h == rest[0] && h in t.cells && h !in done && Path(t.cells, t.cells[h].next, rest[1..], NULL)
    ensures Progress(t, dir, i, rest[1..], done + {h})
  {
    assert Open(0);
    PathDistinct(t.cells, h, rest);
    assert h in rest && h in chains[i] && rest == [h] + rest[1..];
    forall p ensures Passed(t, dir, i, rest[1..], p) <==> p == h || Passed(t, dir, i, rest, p) {
    }
  }

  /** Moves the entries of bucket `i` to the heads of their new chains. */
  method MoveBucket(t: Table, ghost old_: seq<seq<Ptr>>, ghost dir: map<Tag, Ptr>, i: nat, bits: nat, cells: map<Ptr, Cell>,
                    list: seq<Ptr>, ghost chains: seq<seq<Ptr>>, ghost done: set<Ptr>, count: nat)
    returns (cells': map<Ptr, Cell>, list': seq<Ptr>, ghost chains': seq<seq<Ptr>>, ghost done': set<Ptr>, count': nat)
    requires Filed(t.cells, t.lengthBits, old_, dir) && i < |old_| == |t.list| && Path(t.cells, t.list[i], old_[i], NULL)
    requires HasMoved(cells, bits, list, chains, done) && count == |done| && bits <= 31 && |list| == |chains| == Pow2(bits)
    requires Progress(t, dir, i, old_[i], done) && OnlyMoved(t.cells, cells, done)
    ensures HasMoved(cells', bits, list', chains', done') && count' == |done'| && |list'| == |chains'| == Pow2(bits)
    ensures Progress(t, dir, i, [], done') && OnlyMoved(t.cells, cells', done')
  {
    cells', list', chains', done', count' := cells, list, chains, done, count;
    var h := t.list[i];
    ghost var rest := old_[i];
    while h != NULL
      invariant Path(t.cells, h, rest, NULL) && forall p :: p in rest ==> p in old_[i]
      invariant HasMoved(cells', bits, list', chains', done') && count' == |done'| && |list'| == |chains'| == Pow2(bits)
      invariant Progress(t, dir, i, rest, done') && OnlyMoved(t.cells, cells', done')
      decreases |rest|
    {
      NextToMove(t, old_, dir, i, rest, done', h);
      var next, b := cells'[h].next, Bucket(cells'[h].tag.hash, bits);
      var moved := cells'[h := cells'[h].(next := list'[b])];
      PushKeeps(cells', bits, list', chains', done', h, b, moved, [h] + chains'[b]);
      chains', done' := chains'[b := [h] + chains'[b]], done' + {h};
      cells', list' := moved, list'[b := h];
      h, rest, count' := next, rest[1..], count' + 1;
    }
  }

  lemma DoneIsListed(t: Table, old_: seq<seq<Ptr>>, dir: map<Tag, Ptr>, done: set<Ptr>)
    requires Holds(t, old_, dir) && Progress(t, dir, Pow2(t.lengthBits), [], done)
    ensures |done| == |dir| && forall p :: p in done <==> Listed(t.cells, dir, p)
  {
    assert Open(0);
    forall p ensures p in done <==> Listed(t.cells, dir, p) {
      assert p in done <==> Passed(t, dir, Pow2(t.lengthBits), [], p);
    }
    ListedCount(t.cells, dir, done);
  }

  lemma AllMoved(t: Table, old_: seq<seq<Ptr>>, dir: map<Tag, Ptr>, bits: nat, list: seq<Ptr>, chains: seq<seq<Ptr>>,
                 done: set<Ptr>, cells: map<Ptr, Cell>)
    requires Filed(t.cells, t.lengthBits, old_, dir) && (forall p :: p in done <==> Listed(t.cells, dir, p))
    requires HasMoved(cells, bits, list, chains, done) && SameTags(t.cells, cells)
    ensures Filed(cells, bits, chains, dir) && Strung(list, cells, chains)
  {
    assert Open(0);
    assert forall p :: Listed(cells, dir, p) <==> Listed(t.cells, dir, p);
  }

  lemma NoneMoved(t: Table, old_: seq<seq<Ptr>>, dir: map<Tag, Ptr>, bits: nat, list: seq<Ptr>, chains: seq<seq<Ptr>>)
    requires Holds(t, old_, dir) && bits <= 31 && |list| == |chains| == Pow2(bits)
    requires forall b :: 0 <= b < |chains| ==> chains[b] == [] && list[b] == NULL
    ensures HasMoved(t.cells, bits, list, chains, {}) && Progress(t, dir, 0, old_[0], {})
  {
    assert Open(0);
    forall p ensures !Passed(t, dir, 0, old_[0], p) {
      if Listed(t.cells, dir, p) {
        assert p in old_[Bucket(t.cells[p].tag.hash, t.lengthBits)];
      }
    }
  }

  lemma NextBucket(t: Table, old_: seq<seq<Ptr>>, dir: map<Tag, Ptr>, i: nat, j: nat, rest: seq<Ptr>, done: set<Ptr>)
    requires Holds(t, old_, dir) && j == i + 1 <= |old_| && rest == (if j < |old_| then old_[j] else [])
    requires Progress(t, dir, i, [], done)
    ensures Progress(t, dir, j, rest, done)
  {
    assert Open(0);
    forall p ensures Passed(t, dir, i, [], p) <==> Passed(t, dir, j, rest, p) {
      if Listed(t.cells, dir, p) {
        assert p in old_[Bucket(t.cells[p].tag.hash, t.lengthBits)];
      }
    }
  }

  /** Doubles the number of buckets, unless the hash has no more bits to offer. */
  method Resize(t: Table, ghost dir: map<Tag, Ptr>) returns (t': Table)
    requires IsTable(t, dir)
    ensures IsTable(t', dir) && SameTags(t.cells, t'.cells) && t'.maxBits == t.maxBits && t'.elems == t.elems
    ensures t'.lengthBits == if t.lengthBits >= t.maxBits || t.lengthBits >= 31 then t.lengthBits else t.lengthBits + 1
  {
    if t.lengthBits >= t.maxBits || t.lengthBits >= 31 {
      return t;
    }
    ghost var old_ :| Holds(t, old_, dir);
    var bits, i, count, cells := t.lengthBits + 1, 0, 0, t.cells;
    var list: seq<Ptr> := seq(Pow2(bits), _ => NULL);
    ghost var chains: seq<seq<Ptr>>, done: set<Ptr> := seq(Pow2(bits), _ => []), {};
    NoneMoved(t, old_, dir, bits, list, chains);
    while i < Pow2(t.lengthBits)
      invariant i <= Pow2(t.lengthBits) && |list| == |chains| == Pow2(bits)
      invariant HasMoved(cells, bits, list, chains, done) && count == |done|
      invariant Progress(t, dir, i, if i < |old_| then old_[i] else [], done) && OnlyMoved(t.cells, cells, done)
    {
      assert Path(t.cells, t.list[i], old_[i], NULL) by { assert Open(0); }
      cells, list, chains, done, count := MoveBucket(t, old_, dir, i, bits, cells, list, chains, done, count);
      NextBucket(t, old_, dir, i, i + 1, if i + 1 < |old_| then old_[i + 1] else [], done);
      i := i + 1;
    }
    t' := t.(list := list, lengthBits := bits, cells := cells);
    DoneIsListed(t, old_, dir, done);
    assert count == t.elems;
    AllMoved(t, old_, dir, bits, list, chains, done, cells);
    assert Holds(t', chains, dir);
  }

  /* ---------- handles that are not in the table ---------- */

  lemma {:induction false} PathWithout(cells: map<Ptr, Cell>, cells': map<Ptr, Cell>, bits: nat, chains: seq<seq<Ptr>>, dir: map<Tag, Ptr>,
                                       list: seq<Ptr>, e: Ptr)
    requires Filed(cells, bits, chains, dir) && Strung(list, cells, chains) && !Listed(cells, dir, e)
    requires forall p :: p != e ==> (p in cells <==> p in cells') && (p in cells ==> cells'[p] == cells[p])
    requires e in cells ==> e !in cells'
    ensures Filed(cells', bits, chains, dir) && Strung(list, cells', chains)
  {
    assert Open(0);
    forall p ensures Listed(cells', dir, p) <==> Listed(cells, dir, p) {
    }
    forall b | 0 <= b < |chains| ensures Path(cells', list[b], chains[b], NULL) {
      PathFrame(cells, cells', list[b], chains[b], NULL);
    }
  }

  function TagsOf(cells: map<Ptr, Cell>): map<Ptr, Tag> {
    map p | p in cells :: cells[p].tag
  }

  lemma AddCell(t: Table, dir: map<Tag, Ptr>, e: Ptr, tag: Tag, t': Table)
    requires IsTable(t, dir) && e !in t.cells && e != NULL && t' == t.(cells := t.cells[e := Cell(tag, NULL)])
    ensures IsTable(t', dir) && !Listed(t'.cells, dir, e) && TagsOf(t'.cells) == TagsOf(t.cells)[e := tag]
  {
    var chains :| Holds(t, chains, dir);
    assert !Listed(t'.cells, dir, e) by { assert Open(0); }
    PathWithout(t.cells, t'.cells, t.lengthBits, chains, dir, t.list, e);
    assert Holds(t', chains, dir);
  }

  lemma FreeCell(t: Table, dir: map<Tag, Ptr>, e: Ptr, t': Table)
    requires IsTable(t, dir) && !Listed(t.cells, dir, e) && t' == t.(cells := t.cells - {e})
    ensures IsTable(t', dir) && TagsOf(t'.cells) == TagsOf(t.cells) - {e}
  {
    var chains :| Holds(t, chains, dir);
    PathWithout(t.cells, t'.cells, t.lengthBits, chains, dir, t.list, e);
    assert Holds(t', chains, dir);
  }
}
