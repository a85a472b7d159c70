/**
 The arena: blocks cut from both ends, aligned requests from the front and others from the back. Addresses are numbers;
 a new block is wherever the system puts it, aligned and apart from all others.
 */
module Arena {

  const ALIGN: nat := 16
  const INLINE_SIZE: nat := 2048
  const MIN_BLOCK: nat := 4096
  const MAX_BLOCK: nat := 0x8000_0000

  datatype Region = Region(addr: nat, len: nat)

  predicate Apart(a: Region, b: Region) {
    a.addr + a.len <= b.addr || b.addr + b.len <= a.addr
  }

  predicate Within(a: Region, b: Region) {
    b.addr <= a.addr && a.addr + a.len <= b.addr + b.len
  }

  ghost predicate AllApart(rs: seq<Region>) {
    forall i, j :: 0 <= i < j < |rs| ==> Apart(rs[i], rs[j])
  }

  ghost predicate ApartFrom(rs: seq<Region>, r: Region) {
    forall i :: 0 <= i < |rs| ==> Apart(rs[i], r)
  }

  ghost predicate InSome(rs: seq<Region>, r: Region) {
    exists i :: 0 <= i < |rs| && Within(r, rs[i])
  }

  lemma InSomeApart(rs: seq<Region>, r: Region, x: Region)
    requires InSome(rs, r) && ApartFrom(rs, x)
    ensures Apart(r, x)
  {
    var i :| 0 <= i < |rs| && Within(r, rs[i]);
  }

  lemma InSomeMore(rs: seq<Region>, r: Region, x: Region)
    requires InSome(rs, r)
    ensures InSome(rs + [x], r)
  {
    var i :| 0 <= i < |rs| && Within(r, rs[i]);
    assert (rs + [x])[i] == rs[i];
  }

  lemma AllApartMore(rs: seq<Region>, x: Region)
    requires AllApart(rs) && ApartFrom(rs, x)
    ensures AllApart(rs + [x])
  {
  }

  /** The block size is brought into range and up to a multiple of the alignment. */
  function OptimizeBlockSize(size: nat): (r: nat)
    ensures MIN_BLOCK <= r <= MAX_BLOCK && r % ALIGN == 0
    ensures MIN_BLOCK <= size <= MAX_BLOCK ==> size <= r < size + ALIGN
  {
    var s := if size < MIN_BLOCK then MIN_BLOCK else size;
    var s := if s > MAX_BLOCK then MAX_BLOCK else s;
    if s % ALIGN != 0 then (1 + s / ALIGN) * ALIGN else s
  }

  /** The two ends of the active block and what is left between them; `blocks` counts the blocks besides the inline one. */
  datatype Arena = Arena(blockSize: nat, aligned: nat, unaligned: nat, remaining: nat, blocks: nat, irregular: nat, memory: nat)

  /** All blocks, all regions handed out, and which block is active. */
  datatype Ledger = Ledger(blocks: seq<Region>, given: seq<Region>, active: nat)

  /** A request, and where the system would put a new block. */
  datatype Request = Request(bytes: nat, aligned: bool, base: nat)

  function Gap(a: Arena): Region {
    Region(a.aligned, a.remaining)
  }

  ghost predicate Blocks(h: Ledger) {
    && AllApart(h.blocks) && h.active < |h.blocks|
    && (forall i :: 0 <= i < |h.blocks| ==> h.blocks[i].addr % ALIGN == 0)
    && (forall i {:trigger h.given[i]} :: 0 <= i < |h.given| ==> InSome(h.blocks, h.given[i]))
  }

  /** Everything handed out is inside a block, and apart from everything else handed out and from the gap; the bytes
      left are exactly the gap between the two ends. */
  ghost predicate Inv(a: Arena, h: Ledger) {
    && a.blockSize >= MIN_BLOCK && a.blockSize % ALIGN == 0
    && Blocks(h) && AllApart(h.given) && ApartFrom(h.given, Gap(a))
    && a.unaligned == a.aligned + a.remaining && Within(Gap(a), h.blocks[h.active]) && |h.blocks| == a.blocks + 1
  }

  /** The region is new: apart from all handed out before, inside a block. */
  ghost predicate Gives(h: Ledger, h': Ledger, r: Region) {
    h'.given == h.given + [r] && ApartFrom(h.given, r) && InSome(h'.blocks, r)
  }

  /** What the system promises of a new block. */
  ghost predicate FreshBlock(h: Ledger, base: nat, size: nat) {
    base % ALIGN == 0 && ApartFrom(h.blocks, Region(base, size))
  }

  ghost function WithBlock(h: Ledger, base: nat, size: nat): Ledger {
    h.(blocks := h.blocks + [Region(base, size)])
  }

  lemma NewBlockKeeps(h: Ledger, base: nat, size: nat, h': Ledger)
    requires Blocks(h) && FreshBlock(h, base, size) && h' == WithBlock(h, base, size)
    ensures Blocks(h') && h'.blocks[h.active] == h.blocks[h.active]
    ensures forall r :: Within(r, Region(base, size)) ==> ApartFrom(h.given, r) && InSome(h'.blocks, r)
  {
    var block := Region(base, size);
    AllApartMore(h.blocks, block);
    forall i {:trigger h'.given[i]} | 0 <= i < |h'.given| ensures InSome(h'.blocks, h'.given[i]) {
      InSomeMore(h.blocks, h.given[i], block);
    }
    forall r | Within(r, block) ensures ApartFrom(h.given, r) && InSome(h'.blocks, r) {
      forall i | 0 <= i < |h.given| ensures Apart(h.given[i], r) {
        InSomeApart(h.blocks, h.given[i], block);
      }
      assert Within(r, h'.blocks[|h.blocks|]);
    }
  }

  lemma GivenMore(h: Ledger, r: Region)
    requires Blocks(h) && AllApart(h.given) && ApartFrom(h.given, r) && InSome(h.blocks, r)
    ensures Blocks(h.(given := h.given + [r])) && AllApart(h.given + [r])
  {
    AllApartMore(h.given, r);
  }

  lemma GapApart(a: Arena, h: Ledger, r: Region)
    requires Inv(a, h) && ApartFrom(h.blocks, r)
    ensures Apart(r, Gap(a))
  {
    assert Within(Gap(a), h.blocks[h.active]);
    InSomeApart(h.blocks, Gap(a), r);
  }

  /** A piece of the gap is handed out, and the gap shrinks to another piece. */
  lemma CarveKeeps(a: Arena, h: Ledger, r: Region, a': Arena, h': Ledger)
    requires Inv(a, h) && Within(r, Gap(a)) && Within(Gap(a'), Gap(a)) && Apart(r, Gap(a'))
    requires a'.blockSize == a.blockSize && a'.blocks == a.blocks && a'.unaligned == a'.aligned + a'.remaining && h' == h.(given := h.given + [r])
    ensures Inv(a', h') && Gives(h, h', r)
  {
    assert Within(r, h.blocks[h.active]);
    GivenMore(h, r);
  }

  /* ---------- what a request does ---------- */

  function Slop(addr: nat): (s: nat)
    ensures (addr + s) % ALIGN == 0 && s < ALIGN
  {
    if addr % ALIGN == 0 then 0 else ALIGN - addr % ALIGN
  }

  /** The bytes of the active block that the request takes. */
  function Needed(a: Arena, q: Request): nat {
    if q.aligned then q.bytes + Slop(a.aligned) else q.bytes
  }

  function NewSize(a: Arena, bytes: nat): nat {
    if bytes > a.blockSize / 4 then bytes else a.blockSize
  }

  /** Unaligned requests of no bytes are not allowed; a new block is there if one is needed. */
  ghost predicate CanServe(a: Arena, h: Ledger, q: Request) {
    (q.aligned || q.bytes > 0) && (Needed(a, q) > a.remaining ==> FreshBlock(h, q.base, NewSize(a, q.bytes)))
  }

  function Taken(a: Arena, q: Request): (Arena, Region)
    requires Needed(a, q) <= a.remaining <= a.unaligned
  {
    var n := Needed(a, q);
    if q.aligned then (a.(aligned := a.aligned + n, remaining := a.remaining - n), Region(a.aligned + n - q.bytes, q.bytes))
    else (a.(unaligned := a.unaligned - n, remaining := a.remaining - n), Region(a.unaligned - n, n))
  }

  /** A large request gets a block of its own, any other a new active block. */
  function Fallen(a: Arena, q: Request): (Arena, Region) {
    var size := NewSize(a, q.bytes);
    var b := a.(blocks := a.blocks + 1, memory := a.memory + size);
    if q.bytes > a.blockSize / 4 then (b.(irregular := a.irregular + 1), Region(q.base, q.bytes))
    else if q.aligned then
      (b.(remaining := size - q.bytes, aligned := q.base + q.bytes, unaligned := q.base + size), Region(q.base, q.bytes))
    else
      (b.(remaining := size - q.bytes, aligned := q.base, unaligned := q.base + size - q.bytes), Region(q.base + size - q.bytes, q.bytes))
  }

  function Served(a: Arena, q: Request): (Arena, Region)
    requires a.remaining <= a.unaligned
  {
    if Needed(a, q) <= a.remaining then Taken(a, q) else Fallen(a, q)
  }

  function Recorded(a: Arena, h: Ledger, q: Request): Ledger
    requires a.remaining <= a.unaligned
  {
    var h1 := h.(given := h.given + [Served(a, q).1]);
    if Needed(a, q) <= a.remaining then h1
    else h1.(blocks := h.blocks + [Region(q.base, NewSize(a, q.bytes))],
             active := if q.bytes > a.blockSize / 4 then h.active else |h.blocks|)
  }

  lemma TakenKeeps(a: Arena, h: Ledger, q: Request, a': Arena, r: Region, h': Ledger)
    requires Inv(a, h) && Needed(a, q) <= a.remaining && (a', r) == Taken(a, q) && h' == h.(given := h.given + [r])
    ensures Inv(a', h') && Gives(h, h', r) && r.len == q.bytes && (q.aligned ==> r.addr % ALIGN == 0) && a'.blockSize == a.blockSize
  {
    CarveKeeps(a, h, r, a', h');
  }

  lemma IrregularKeeps(a: Arena, h: Ledger, q: Request, a': Arena, r: Region, h': Ledger)
    requires Inv(a, h) && q.bytes > a.blockSize / 4 && FreshBlock(h, q.base, q.bytes) && (a', r) == Fallen(a, q)
    requires h' == WithBlock(h, q.base, q.bytes).(given := h.given + [r])
    ensures Inv(a', h') && Gives(h, h', r)
  {
    var h1 := WithBlock(h, q.base, q.bytes);
    NewBlockKeeps(h, q.base, q.bytes, h1);
    GivenMore(h1, r);
    GapApart(a, h, r);
  }

  lemma RegularKeeps(a: Arena, h: Ledger, q: Request, a': Arena, r: Region, h': Ledger, size: nat)
    requires Inv(a, h) && q.bytes <= a.blockSize / 4 && size == a.blockSize && FreshBlock(h, q.base, size) && (a', r) == Fallen(a, q)
    requires h' == WithBlock(h, q.base, size).(given := h.given + [r], active := |h.blocks|)
    ensures Inv(a', h') && Gives(h, h', r)
  {
    var h1 := WithBlock(h, q.base, size);
    NewBlockKeeps(h, q.base, size, h1);
    assert Within(r, Region(q.base, size)) && Within(Gap(a'), Region(q.base, size)) && Apart(r, Gap(a'));
    GivenMore(h1.(active := |h.blocks|), r);
  }

  /** Every request is answered with a new region of the right length, aligned if asked for, and keeps the invariant. */
  lemma ServedKeeps(a: Arena, h: Ledger, q: Request, a': Arena, r: Region, h': Ledger)
    requires Inv(a, h) && CanServe(a, h, q) && (a', r) == Served(a, q) && h' == Recorded(a, h, q)
    ensures Inv(a', h') && Gives(h, h', r) && r.len == q.bytes && (q.aligned ==> r.addr % ALIGN == 0) && a'.blockSize == a.blockSize
  {
    if Needed(a, q) <= a.remaining {
      TakenKeeps(a, h, q, a', r, h');
    } else if q.bytes > a.blockSize / 4 {
      IrregularKeeps(a, h, q, a', r, h');
    } else {
      RegularKeeps(a, h, q, a', r, h', a.blockSize);
    }
  }

  /* ---------- the operations ---------- */

  function Fresh(blockSize: nat, inline_: nat): Arena {
    Arena(OptimizeBlockSize(blockSize), inline_, inline_ + INLINE_SIZE, INLINE_SIZE, 0, 0, INLINE_SIZE)
  }

  function FreshLedger(inline_: nat): Ledger {
    Ledger([Region(inline_, INLINE_SIZE)], [], 0)
  }

  /** The arena starts with a block inside itself. */
  lemma FreshInv(blockSize: nat, inline_: nat)
    requires inline_ % ALIGN == 0
    ensures Inv(Fresh(blockSize, inline_), FreshLedger(inline_)) && Fresh(blockSize, inline_).remaining == INLINE_SIZE
  {
  }

  /** A request that the active block cannot serve. */
  method AllocateFallback(a: Arena, bytes: nat, aligned: bool, base: nat) returns (a': Arena, r: Region)
    ensures (a', r) == Fallen(a, Request(bytes, aligned, base))
  {
    if bytes > a.blockSize / 4 {
      a' := a.(irregular := a.irregular + 1, blocks := a.blocks + 1, memory := a.memory + bytes);
      return a', Region(base, bytes);
    }
    var size := a.blockSize;
    a' := a.(blocks := a.blocks + 1, memory := a.memory + size);
    a' := a'.(remaining := size - bytes);
    if aligned {
      a' := a'.(aligned := base + bytes, unaligned := base + size);
      r := Region(base, bytes);
    } else {
      a' := a'.(aligned := base, unaligned := base + size - bytes);
      r := Region(a'.unaligned, bytes);
    }
  }

  /** From the back of the active block. */
  method Allocate(a: Arena, bytes: nat, base: nat, ghost h: Ledger) returns (a': Arena, r: Region, ghost h': Ledger)
    requires Inv(a, h) && CanServe(a, h, Request(bytes, false, base))
    ensures (a', r) == Served(a, Request(bytes, false, base)) && h' == Recorded(a, h, Request(bytes, false, base))
    ensures Inv(a', h') && Gives(h, h', r) && r.len == bytes && a'.blockSize == a.blockSize
  {
    ghost var q := Request(bytes, false, base);
    if bytes <= a.remaining {
      a' := a.(unaligned := a.unaligned - bytes, remaining := a.remaining - bytes);
      r := Region(a'.unaligned, bytes);
    } else {
      a', r := AllocateFallback(a, bytes, false, base);
    }
    h' := Recorded(a, h, q);
    ServedKeeps(a, h, q, a', r, h');
  }

  /** From the front, skipping to the next aligned address. */
  method AllocateAligned(a: Arena, bytes: nat, base: nat, ghost h: Ledger) returns (a': Arena, r: Region, ghost h': Ledger)
    requires Inv(a, h) && CanServe(a, h, Request(bytes, true, base))
    ensures (a', r) == Served(a, Request(bytes, true, base)) && h' == Recorded(a, h, Request(bytes, true, base))
    ensures Inv(a', h') && Gives(h, h', r) && r.len == bytes && r.addr % ALIGN == 0 && a'.blockSize == a.blockSize
  {
    ghost var q := Request(bytes, true, base);
    var slop := Slop(a.aligned);
    var needed := bytes + slop;
    if needed <= a.remaining {
      r := Region(a.aligned + slop, bytes);
      a' := a.(aligned := a.aligned + needed, remaining := a.remaining - needed);
    } else {
      a', r := AllocateFallback(a, bytes, true, base);
    }
    h' := Recorded(a, h, q);
    ServedKeeps(a, h, q, a', r, h');
  }

  /* ---------- runs ---------- */

  /** The system has room for every request when it comes. */
  ghost predicate CanRun(a: Arena, h: Ledger, qs: seq<Request>)
    requires Inv(a, h)
    decreases |qs|
  {
    qs == [] ||
    (CanServe(a, h, qs[0]) &&
     (ServedKeeps(a, h, qs[0], Served(a, qs[0]).0, Served(a, qs[0]).1, Recorded(a, h, qs[0]));
      CanRun(Served(a, qs[0]).0, Recorded(a, h, qs[0]), qs[1..])))
  }

  /** Request `i` got region `given[from + i]`. */
  ghost predicate Answered(given: seq<Region>, from: nat, qs: seq<Request>) {
    && |given| == from + |qs|
    && (forall i {:trigger qs[i]} :: 0 <= i < |qs| ==> given[from + i].len == qs[i].bytes && (qs[i].aligned ==> given[from + i].addr % ALIGN == 0))
  }

  ghost function TotalLength(blocks: seq<Region>): nat {
    if blocks == [] then 0 else TotalLength(blocks[..|blocks| - 1]) + blocks[|blocks| - 1].len
  }

  /** How many blocks are not of the usual size. */
  ghost function Unusual(blocks: seq<Region>, size: nat): nat {
    if blocks == [] then 0 else Unusual(blocks[..|blocks| - 1], size) + if blocks[|blocks| - 1].len != size then 1 else 0
  }

  /** The counters agree with the blocks: the memory is theirs, and every block of another size, apart from the inline one, is
      counted as irregular. */
  ghost predicate Accounts(a: Arena, h: Ledger) {
    a.memory == TotalLength(h.blocks) && Unusual(h.blocks, a.blockSize) <= a.irregular + 1 && a.irregular <= a.blocks
  }

  lemma ServedAccounts(a: Arena, h: Ledger, q: Request, a': Arena, h': Ledger)
    requires a.remaining <= a.unaligned && Accounts(a, h) && a' == Served(a, q).0 && h' == Recorded(a, h, q)
    ensures Accounts(a', h')
  {
    if Needed(a, q) > a.remaining {
      assert h'.blocks[..|h'.blocks| - 1] == h.blocks;
    }
  }

  lemma FreshAccounts(blockSize: nat, inline_: nat)
    ensures Accounts(Fresh(blockSize, inline_), FreshLedger(inline_))
  {
    var block := Region(inline_, INLINE_SIZE);
    assert [block][..0] == [];
  }

  /** All requests of a run, one after another. */
  method Run(a: Arena, qs: seq<Request>, ghost h: Ledger) returns (a': Arena, regions: seq<Region>, ghost h': Ledger)
    requires Inv(a, h) && CanRun(a, h, qs)
    ensures Inv(a', h') && h'.given == h.given + regions && Answered(h'.given, |h.given|, qs)
    ensures Accounts(a, h) ==> Accounts(a', h')
    decreases |qs|
  {
    if qs == [] {
      return a, [], h;
    }
    var r;
    if qs[0].aligned {
      a', r, h' := AllocateAligned(a, qs[0].bytes, qs[0].base, h);
    } else {
      a', r, h' := Allocate(a, qs[0].bytes, qs[0].base, h);
    }
    if Accounts(a, h) {
      ServedAccounts(a, h, qs[0], a', h');
    }
    var rest;
    a', rest, h' := Run(a', qs[1..], h');
    regions := [r] + rest;
    AnsweredFirst(h.given, r, rest, qs, h'.given);
  }

  lemma AnsweredFirst(before: seq<Region>, r: Region, rest: seq<Region>, qs: seq<Request>, given: seq<Region>)
    requires qs != [] && given == before + [r] + rest && Answered(given, |before + [r]|, qs[1..])
    requires r.len == qs[0].bytes && (qs[0].aligned ==> r.addr % ALIGN == 0)
    ensures given == before + ([r] + rest) && Answered(given, |before|, qs)
  {
    forall i {:trigger qs[i]} | 0 <= i < |qs|
      ensures given[|before| + i].len == qs[i].bytes && (qs[i].aligned ==> given[|before| + i].addr % ALIGN == 0)
    {
      if i > 0 {
        assert qs[1..][i - 1] == qs[i];
      }
    }
  }

  /** Any run of requests from a new arena, in any mixture: all regions are inside blocks, pairwise apart, as long as asked
      for, and aligned where asked for; what is left is exactly the gap between the two ends of the active block, and the memory
      counted is that of the blocks. */
  method RunFromStart(blockSize: nat, inline_: nat, qs: seq<Request>) returns (a: Arena, regions: seq<Region>, ghost h: Ledger)
    requires inline_ % ALIGN == 0 && (FreshInv(blockSize, inline_); CanRun(Fresh(blockSize, inline_), FreshLedger(inline_), qs))
    ensures |regions| == |qs| && AllApart(regions) && AllApart(h.blocks)
    ensures forall i :: 0 <= i < |qs| ==> regions[i].len == qs[i].bytes && InSome(h.blocks, regions[i])
    ensures forall i :: 0 <= i < |qs| && qs[i].aligned ==> regions[i].addr % ALIGN == 0
    ensures a.remaining == a.unaligned - a.aligned && ApartFrom(regions, Gap(a))
    ensures a.memory == TotalLength(h.blocks) && Unusual(h.blocks, a.blockSize) <= a.irregular + 1 <= |h.blocks|
  {
    FreshInv(blockSize, inline_);
    FreshAccounts(blockSize, inline_);
    a, regions, h := Run(Fresh(blockSize, inline_), qs, FreshLedger(inline_));
    assert h.given == regions;
  }
}
