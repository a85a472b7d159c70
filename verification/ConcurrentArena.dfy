/**
 The concurrent arena: small requests are served from shards that are refilled from the main arena. An event is what one
 thread does while it holds a lock, so a run of events is an interleaving of any number of threads.
 */
module ConcurrentArena {
  import opened Seal
  import opened Coding
  import opened Arena

  const WORD: nat := 8

  /** What a caller asks for. */
  datatype Want = Want(bytes: nat, aligned: bool)

  /** Requests for aligned memory are rounded up to whole words. */
  function Amount(want: Want): (n: nat)
    ensures if want.aligned then n % WORD == 0 && want.bytes <= n < want.bytes + WORD else n == want.bytes
  {
    if want.aligned then (want.bytes + WORD - 1) / WORD * WORD else want.bytes
  }

  /** While a thread holds the shard, `job` is what it wants and `avail` what it knows to be free. */
  datatype Shard = Shard(freeBegin: nat, unused: nat, job: Option<Want>, avail: nat)

  /** `cached` is the atomic copy of the bytes left in the arena. */
  datatype State = State(arena: Arena, shards: seq<Shard>, cached: nat, shardBlock: nat)

  /** Where the last refill of a shard begins, and how much has been cut from its front since. */
  datatype Fill = Fill(base: nat, front: nat)

  /** A request that was answered, and whether a shard answered it. */
  datatype Grant = Grant(want: Want, byShard: bool)

  /** The arena, the ledger of its regions, the regions returned to callers and what these had asked for. */
  datatype World = World(c: State, h: Ledger, users: seq<Region>, grants: seq<Grant>, fills: seq<Fill>)

  function ShardGap(s: Shard): Region {
    Region(s.freeBegin, if s.job.Some? then s.avail else s.unused)
  }

  /** A region the arena has given out, or an empty one. */
  ghost predicate Claimed(h: Ledger, r: Region) {
    r == Region(0, 0) || InSome(h.given, r)
  }

  ghost predicate ShardsApart(h: Ledger, shards: seq<Shard>, users: seq<Region>) {
    && (forall i :: 0 <= i < |shards| ==> Claimed(h, ShardGap(shards[i])))
    && (forall i, k :: 0 <= i < |shards| && 0 <= k < |users| ==> Apart(users[k], ShardGap(shards[i])))
    && (forall i, j :: 0 <= i < j < |shards| ==> Apart(ShardGap(shards[i]), ShardGap(shards[j])))
  }

  /** What the shards hold is theirs, and apart from what callers have. */
  ghost predicate ShardsOk(h: Ledger, shards: seq<Shard>, users: seq<Region>) {
    forall n: nat {:trigger Open(n)} :: Open(n) ==> ShardsApart(h, shards, users)
  }

  ghost predicate UsersApart(h: Ledger, users: seq<Region>) {
    AllApart(users) && forall k {:trigger users[k]} :: 0 <= k < |users| ==> InSome(h.given, users[k])
  }

  /** What callers have is apart, and was given out by the arena. */
  ghost predicate UsersOk(h: Ledger, users: seq<Region>) {
    forall n: nat {:trigger Open(n)} :: Open(n) ==> UsersApart(h, users)
  }

  /** A region is as long as the request says; an aligned one is aligned to words, and to the unit of the arena when the
      arena itself served it. */
  predicate Suits(r: Region, g: Grant) {
    && r.len == Amount(g.want) && (g.want.aligned ==> r.addr % WORD == 0)
    && (g.want.aligned && !g.byShard ==> r.addr % ALIGN == 0)
  }

  ghost predicate GrantsOk(users: seq<Region>, grants: seq<Grant>) {
    |users| == |grants| && forall n: nat {:trigger Open(n)} :: Open(n) ==> forall k :: 0 <= k < |users| ==> Suits(users[k], grants[k])
  }

  /** A shard begins where its last refill does, plus what has been cut from its front. The thread that holds it knows what
      is free, or has refilled it. */
  predicate FillOk(s: Shard, f: Fill, block: nat) {
    && s.freeBegin == f.base + f.front && f.base % ALIGN == 0 && f.front % WORD == 0
    && (s.job.Some? ==>
          0 < s.job.value.bytes && Amount(s.job.value) <= block / 4 && (s.avail == s.unused || Amount(s.job.value) <= s.avail))
  }

  ghost predicate FillsOk(shards: seq<Shard>, fills: seq<Fill>, block: nat) {
    |fills| == |shards| &&
    forall n: nat {:trigger Open(n)} :: Open(n) ==> forall i :: 0 <= i < |shards| ==> FillOk(shards[i], fills[i], block)
  }

  ghost predicate ArenaOk(a: Arena, h: Ledger) {
    forall n: nat {:trigger Open(n)} :: Open(n) ==> Inv(a, h)
  }

  /** All regions returned are apart from each other and from what the shards hold, and inside what the arena gave out;
      the cached counter is right whenever no thread is inside the arena. */
  ghost predicate Shared(w: World) {
    && ArenaOk(w.c.arena, w.h) && w.c.arena.remaining <= w.c.arena.unaligned && w.c.cached == w.c.arena.remaining && w.c.shardBlock > 0
    && UsersOk(w.h, w.users) && ShardsOk(w.h, w.c.shards, w.users)
    && GrantsOk(w.users, w.grants) && FillsOk(w.c.shards, w.fills, w.c.shardBlock)
  }

  /* ---------- what a new region from the arena means ---------- */

  lemma ClaimedApart(h: Ledger, r: Region, x: Region)
    requires Claimed(h, r) && ApartFrom(h.given, x)
    ensures Apart(r, x)
  {
    if r != Region(0, 0) {
      InSomeApart(h.given, r, x);
    }
  }

  lemma ClaimedMore(h: Ledger, h': Ledger, r: Region, x: Region)
    requires Claimed(h, r) && h'.given == h.given + [x]
    ensures Claimed(h', r)
  {
    if r != Region(0, 0) {
      InSomeMore(h.given, r, x);
    }
  }

  lemma GivenInSome(h': Ledger, given: seq<Region>, x: Region)
    requires h'.given == given + [x]
    ensures InSome(h'.given, x)
  {
    assert h'.given[|given|] == x && Within(x, h'.given[|given|]);
  }

  ghost predicate IsNew(h: Ledger, h': Ledger, x: Region) {
    forall n: nat {:trigger Open(n)} :: Open(n) ==> Gives(h, h', x)
  }

  ghost predicate ApartFromAll(h: Ledger, shards: seq<Shard>, users: seq<Region>, i: int, x: Region) {
    ApartFrom(users, x) && (forall j :: 0 <= j < |shards| && j != i ==> Apart(ShardGap(shards[j]), x)) && Claimed(h, x)
  }

  /** `x` was given out, and is apart from what callers have and what the shards except `i` hold. */
  ghost predicate Free(h: Ledger, shards: seq<Shard>, users: seq<Region>, i: int, x: Region) {
    forall n: nat {:trigger Open(n)} :: Open(n) ==> ApartFromAll(h, shards, users, i, x)
  }

  lemma ArenaServes(a: Arena, h: Ledger, q: Request, a': Arena, r: Region, h': Ledger)
    requires ArenaOk(a, h) && CanServe(a, h, q) && a.remaining <= a.unaligned && (a', r) == Served(a, q) && h' == Recorded(a, h, q)
    ensures ArenaOk(a', h') && a'.remaining <= a'.unaligned && IsNew(h, h', r) && r.len == q.bytes && (q.aligned ==> r.addr % ALIGN == 0)
  {
    assert Open(0);
    ServedKeeps(a, h, q, a', r, h');
  }

  /** The arena gave out `x`; nobody has used it yet. */
  lemma ArenaGave(h: Ledger, h': Ledger, shards: seq<Shard>, users: seq<Region>, x: Region)
    requires IsNew(h, h', x) && ShardsOk(h, shards, users) && UsersOk(h, users)
    ensures ShardsOk(h', shards, users) && UsersOk(h', users) && Free(h', shards, users, -1, x)
  {
    assert Open(0);
    GivenInSome(h', h.given, x);
    forall k | 0 <= k < |users| ensures InSome(h'.given, users[k]) && Apart(users[k], x) {
      InSomeMore(h.given, users[k], x);
      InSomeApart(h.given, users[k], x);
    }
    forall i | 0 <= i < |shards| ensures Claimed(h', ShardGap(shards[i])) && Apart(ShardGap(shards[i]), x) {
      ClaimedMore(h, h', ShardGap(shards[i]), x);
      ClaimedApart(h, ShardGap(shards[i]), x);
    }
  }

  lemma UserAdded(h: Ledger, shards: seq<Shard>, users: seq<Region>, x: Region)
    requires ShardsOk(h, shards, users) && UsersOk(h, users) && Free(h, shards, users, -1, x) && x.len > 0
    ensures ShardsOk(h, shards, users + [x]) && UsersOk(h, users + [x])
  {
    assert Open(0);
    AllApartMore(users, x);
  }

  lemma ShardReplaced(h: Ledger, shards: seq<Shard>, users: seq<Region>, i: nat, s: Shard)
    requires ShardsOk(h, shards, users) && i < |shards| && Free(h, shards, users, i, ShardGap(s))
    ensures ShardsOk(h, shards[i := s], users)
  {
    assert Open(0);
  }

  lemma FreeForShard(h: Ledger, shards: seq<Shard>, users: seq<Region>, i: nat, x: Region)
    requires Free(h, shards, users, -1, x)
    ensures Free(h, shards, users, i, x)
  {
    assert Open(0);
  }

  /** Locking and unlocking a shard changes nothing about what it holds. */
  lemma LockKeeps(h: Ledger, shards: seq<Shard>, users: seq<Region>, i: nat, s: Shard)
    requires ShardsOk(h, shards, users) && i < |shards| && ShardGap(s) == ShardGap(shards[i])
    ensures ShardsOk(h, shards[i := s], users)
  {
    assert Open(0);
    assert forall j :: 0 <= j < |shards| ==> ShardGap(shards[i := s][j]) == ShardGap(shards[j]);
  }

  lemma PieceClaimed(h: Ledger, r: Region, x: Region)
    requires Claimed(h, r) && r.len > 0 && Within(x, r)
    ensures InSome(h.given, x)
  {
    var k :| 0 <= k < |h.given| && Within(r, h.given[k]);
    assert Within(x, h.given[k]);
  }

  /** A piece of what a shard holds is apart from the users and from the other shards. */
  lemma PieceFree(h: Ledger, shards: seq<Shard>, users: seq<Region>, i: nat, s: Shard, x: Region)
    requires ShardsOk(h, shards, users) && i < |shards| && s == shards[i] && ShardGap(s).len > 0 && Within(x, ShardGap(s))
    ensures Free(h, shards, users, i, x)
  {
    assert Open(0);
    PieceClaimed(h, ShardGap(s), x);
    forall j | 0 <= j < |shards| && j != i ensures Apart(ShardGap(shards[j]), x) {
      assert Apart(ShardGap(shards[j]), ShardGap(s)) by {
        if i < j {
          assert Apart(ShardGap(shards[i]), ShardGap(shards[j]));
        }
      }
    }
  }

  lemma PieceForUser(h: Ledger, shards: seq<Shard>, users: seq<Region>, i: nat, s': Shard, x: Region)
    requires Free(h, shards, users, i, x) && i < |shards| && Apart(x, ShardGap(s'))
    ensures Free(h, shards[i := s'], users, -1, x)
  {
    assert Open(0);
  }

  lemma CutKeeps(h: Ledger, shards: seq<Shard>, users: seq<Region>, i: nat, s: Shard, s': Shard, r: Region)
    requires ShardsOk(h, shards, users) && UsersOk(h, users) && i < |shards| && s == shards[i]
    requires r.len > 0 && Within(r, ShardGap(s)) && Within(ShardGap(s'), ShardGap(s)) && Apart(r, ShardGap(s'))
    ensures ShardsOk(h, shards[i := s'], users + [r]) && UsersOk(h, users + [r])
  {
    PieceFree(h, shards, users, i, s, r);
    PieceFree(h, shards, users, i, s, ShardGap(s'));
    ShardReplaced(h, shards, users, i, s');
    PieceForUser(h, shards, users, i, s', r);
    UserAdded(h, shards[i := s'], users, r);
  }

  lemma Granted(users: seq<Region>, grants: seq<Grant>, r: Region, g: Grant)
    requires GrantsOk(users, grants) && Suits(r, g)
    ensures GrantsOk(users + [r], grants + [g])
  {
    assert Open(0);
  }

  lemma UnitIsWords(addr: nat)
    requires addr % 16 == 0
    ensures addr % 8 == 0
  {
    var k := addr / 16;
    assert addr == 8 * (2 * k);
  }

  lemma SuitsDirectly(r: Region, want: Want)
    requires r.len == Amount(want) && (want.aligned ==> r.addr % ALIGN == 0)
    ensures Suits(r, Grant(want, false))
  {
    if want.aligned {
      UnitIsWords(r.addr);
    }
  }

  lemma FillAt(shards: seq<Shard>, fills: seq<Fill>, block: nat, i: nat)
    requires FillsOk(shards, fills, block) && i < |shards|
    ensures FillOk(shards[i], fills[i], block)
  {
    assert Open(0);
  }

  lemma FillSet(shards: seq<Shard>, fills: seq<Fill>, block: nat, i: nat, s: Shard, f: Fill)
    requires FillsOk(shards, fills, block) && i < |shards| && FillOk(s, f, block)
    ensures FillsOk(shards[i := s], fills[i := f], block)
  {
    assert Open(0);
  }

  /* ---------- events ---------- */

  /** A thread is served by the arena; takes a shard; with a shard in hand is served by the arena all the same, because that
      is still in its inline block; refills the shard; cuts its request from the shard and gives that back. */
  datatype Event =
    | Direct(want: Want, force: bool, base: nat)
    | Acquire(i: nat, want: Want)
    | Inline(i: nat, base: nat)
    | Refill(i: nat, base: nat)
    | Carve(i: nat)

  /** The size of a refill: what is left in the arena when that is about right, otherwise the usual size. */
  function RefillSize(c: State): (n: nat)
    ensures c.shardBlock / 2 <= n && (c.shardBlock > 0 ==> n < 2 * c.shardBlock)
    ensures n == c.cached || n == c.shardBlock
    ensures c.cached < c.shardBlock * 2 && c.cached >= c.shardBlock / 2 ==> n == c.cached
  {
    if c.shardBlock / 2 <= c.cached < c.shardBlock * 2 then c.cached else c.shardBlock
  }

  /** A request goes to the arena when it is large, when that is asked for, or when the first shard has never been needed. */
  predicate GoesDirect(c: State, want: Want, force: bool) {
    Amount(want) > c.shardBlock / 4 || force || (c.shards != [] && c.shards[0].unused == 0)
  }

  /** The arena is still in its inline block, and has enough for the request. */
  predicate StillInline(c: State, want: Want) {
    c.cached >= Amount(want) && c.arena.blocks == 0
  }

  predicate Working(c: State, i: nat) {
    i < |c.shards| && c.shards[i].job.Some?
  }

  ghost predicate Enabled(w: World, ev: Event) {
    match ev
    case Direct(want, force, base) =>
      want.bytes > 0 && GoesDirect(w.c, want, force) && CanServe(w.c.arena, w.h, Request(Amount(want), want.aligned, base))
    case Acquire(i, want) =>
      i < |w.c.shards| && w.c.shards[i].job.None? && want.bytes > 0 && Amount(want) <= w.c.shardBlock / 4
    case Inline(i, base) =>
      Working(w.c, i) &&
      (var s := w.c.shards[i]; var want := s.job.value;
       s.avail < Amount(want) && StillInline(w.c, want) && CanServe(w.c.arena, w.h, Request(Amount(want), want.aligned, base)))
    case Refill(i, base) =>
      Working(w.c, i) &&
      (var s := w.c.shards[i]; var want := s.job.value;
       s.avail < Amount(want) && !StillInline(w.c, want) && CanServe(w.c.arena, w.h, Request(RefillSize(w.c), true, base)))
    case Carve(i) =>
      Working(w.c, i) && Amount(w.c.shards[i].job.value) <= w.c.shards[i].avail
  }

  /** The arena serves a request, and its counter is brought up to date. */
  function ServedDirectly(w: World, want: Want, base: nat): World
    requires w.c.arena.remaining <= w.c.arena.unaligned
  {
    var q := Request(Amount(want), want.aligned, base);
    var (a, r) := Served(w.c.arena, q);
    w.(c := w.c.(arena := a, cached := a.remaining), h := Recorded(w.c.arena, w.h, q), users := w.users + [r], grants := w.grants + [Grant(want, false)])
  }

  /** The region cut from a shard, and the shard afterwards: whole words from the front, others from the back. */
  function Cut(s: Shard, n: nat): (Region, Shard)
    requires n <= s.avail
  {
    var s' := s.(unused := s.avail - n, job := None);
    if n % WORD == 0 then (Region(s.freeBegin, n), s'.(freeBegin := s.freeBegin + n)) else (Region(s.freeBegin + s.avail - n, n), s')
  }

  function SetShard(w: World, i: nat, s: Shard): World
    requires i < |w.c.shards|
  {
    w.(c := w.c.(shards := w.c.shards[i := s]))
  }

  function Next(w: World, ev: Event): World
    requires w.c.arena.remaining <= w.c.arena.unaligned && |w.fills| == |w.c.shards| && Enabled(w, ev)
  {
    match ev
    case Direct(want, force, base) => ServedDirectly(w, want, base)
    case Acquire(i, want) =>
      var s := w.c.shards[i];
      SetShard(w, i, s.(job := Some(want), avail := s.unused))
    case Inline(i, base) =>
      var s := w.c.shards[i];
      SetShard(ServedDirectly(w, s.job.value, base), i, s.(job := None))
    case Refill(i, base) =>
      var n := RefillSize(w.c);
      var q := Request(n, true, base);
      var (a, r) := Served(w.c.arena, q);
      var s := w.c.shards[i].(freeBegin := r.addr, avail := n);
      World(w.c.(arena := a, cached := a.remaining, shards := w.c.shards[i := s]), Recorded(w.c.arena, w.h, q), w.users, w.grants,
            w.fills[i := Fill(r.addr, 0)])
    case Carve(i) =>
      var s, f := w.c.shards[i], w.fills[i];
      var n := Amount(s.job.value);
      var (r, s') := Cut(s, n);
      SetShard(w, i, s').(users := w.users + [r], grants := w.grants + [Grant(s.job.value, true)],
                          fills := w.fills[i := if n % WORD == 0 then f.(front := f.front + n) else f])
  }

  /* ---------- every event keeps the regions apart ---------- */

  /** A region the arena just gave out goes to a caller. */
  lemma GivenToUser(h: Ledger, h': Ledger, shards: seq<Shard>, users: seq<Region>, r: Region)
    requires IsNew(h, h', r) && ShardsOk(h, shards, users) && UsersOk(h, users) && r.len > 0
    ensures ShardsOk(h', shards, users + [r]) && UsersOk(h', users + [r])
  {
    ArenaGave(h, h', shards, users, r);
    UserAdded(h', shards, users, r);
  }

  lemma DirectKeeps(w: World, want: Want, base: nat, w': World)
    requires Shared(w) && want.bytes > 0 && CanServe(w.c.arena, w.h, Request(Amount(want), want.aligned, base))
    requires w' == ServedDirectly(w, want, base)
    ensures Shared(w')
  {
    var q := Request(Amount(want), want.aligned, base);
    var r := w'.users[|w.users|];
    ArenaServes(w.c.arena, w.h, q, w'.c.arena, r, w'.h);
    GivenToUser(w.h, w'.h, w.c.shards, w.users, r);
    SuitsDirectly(r, want);
    Granted(w.users, w.grants, r, Grant(want, false));
  }

  /** A shard whose hold does not change, whoever has it. */
  lemma LockedKeeps(w: World, i: nat, s: Shard, w': World)
    requires Shared(w) && i < |w.c.shards| && ShardGap(s) == ShardGap(w.c.shards[i]) && FillOk(s, w.fills[i], w.c.shardBlock)
    requires w' == SetShard(w, i, s)
    ensures Shared(w')
  {
    LockKeeps(w.h, w.c.shards, w.users, i, s);
    FillSet(w.c.shards, w.fills, w.c.shardBlock, i, s, w.fills[i]);
    assert w.fills[i := w.fills[i]] == w.fills;
  }

  lemma InlineKeeps(w: World, i: nat, base: nat, w': World)
    requires Shared(w) && Enabled(w, Inline(i, base)) && w' == Next(w, Inline(i, base))
    ensures Shared(w')
  {
    var s := w.c.shards[i];
    var w1 := ServedDirectly(w, s.job.value, base);
    FillAt(w.c.shards, w.fills, w.c.shardBlock, i);
    DirectKeeps(w, s.job.value, base, w1);
    LockedKeeps(w1, i, s.(job := None), w');
  }

  lemma RefillKeeps(w: World, i: nat, base: nat, w': World)
    requires Shared(w) && Enabled(w, Refill(i, base)) && w' == Next(w, Refill(i, base))
    ensures Shared(w')
  {
    var q := Request(RefillSize(w.c), true, base);
    var (a, r) := Served(w.c.arena, q);
    var s := w.c.shards[i].(freeBegin := r.addr, avail := q.bytes);
    FillAt(w.c.shards, w.fills, w.c.shardBlock, i);
    ArenaServes(w.c.arena, w.h, q, a, r, w'.h);
    ArenaGave(w.h, w'.h, w.c.shards, w.users, r);
    FreeForShard(w'.h, w.c.shards, w.users, i, r);
    ShardReplaced(w'.h, w.c.shards, w.users, i, s);
    FillSet(w.c.shards, w.fills, w.c.shardBlock, i, s, Fill(r.addr, 0));
  }

  lemma PieceOk(s: Shard, n: nat, r: Region, s': Shard)
    requires s.job.Some? && 0 < n <= s.avail && s.freeBegin % WORD == 0 && (r, s') == Cut(s, n)
    ensures r.len == n && s'.freeBegin % WORD == 0 && s'.job.None? && (n % WORD == 0 ==> r.addr % WORD == 0)
    ensures Within(r, ShardGap(s)) && Within(ShardGap(s'), ShardGap(s)) && Apart(r, ShardGap(s'))
  {
  }

  lemma CarveKeeps(w: World, i: nat, w': World)
    requires Shared(w) && Enabled(w, Carve(i)) && w' == Next(w, Carve(i))
    ensures Shared(w')
  {
    var s, f := w.c.shards[i], w.fills[i];
    FillAt(w.c.shards, w.fills, w.c.shardBlock, i);
    var want := s.job.value;
    var n := Amount(want);
    var (r, s') := Cut(s, n);
    PieceOk(s, n, r, s');
    CutKeeps(w.h, w.c.shards, w.users, i, s, s', r);
    Granted(w.users, w.grants, r, Grant(want, true));
    FillSet(w.c.shards, w.fills, w.c.shardBlock, i, s', if n % WORD == 0 then f.(front := f.front + n) else f);
  }

  /** Every event of every thread keeps the regions apart. */
  lemma NextShared(w: World, ev: Event)
    requires Shared(w) && Enabled(w, ev)
    ensures Shared(Next(w, ev))
  {
    var w' := Next(w, ev);
    match ev
    case Direct(want, force, base) => DirectKeeps(w, want, base, w');
    case Acquire(i, want) =>
      FillAt(w.c.shards, w.fills, w.c.shardBlock, i);
      LockedKeeps(w, i, w'.c.shards[i], w');
    case Inline(i, base) => InlineKeeps(w, i, base, w');
    case Refill(i, base) => RefillKeeps(w, i, base, w');
    case Carve(i) => CarveKeeps(w, i, w');
  }

  /* ---------- runs ---------- */

  /** A new arena with `n` shards that hold nothing. */
  function Start(blockSize: nat, inline_: nat, shardBlock: nat, n: nat): World {
    World(State(Fresh(blockSize, inline_), seq(n, _ => Shard(0, 0, None, 0)), INLINE_SIZE, shardBlock), FreshLedger(inline_), [], [],
          seq(n, _ => Fill(0, 0)))
  }

  lemma StartShared(blockSize: nat, inline_: nat, shardBlock: nat, n: nat)
    requires inline_ % ALIGN == 0 && shardBlock > 0
    ensures Shared(Start(blockSize, inline_, shardBlock, n))
  {
    assert Open(0);
    FreshInv(blockSize, inline_);
  }

  ghost predicate CanRun(w: World, evs: seq<Event>)
    requires Shared(w)
    decreases |evs|
  {
    evs == [] || (Enabled(w, evs[0]) && (NextShared(w, evs[0]); CanRun(Next(w, evs[0]), evs[1..])))
  }

  ghost function After(w: World, evs: seq<Event>): World
    requires Shared(w) && CanRun(w, evs)
    decreases |evs|
  {
    if evs == [] then w else NextShared(w, evs[0]); After(Next(w, evs[0]), evs[1..])
  }

  lemma {:induction false} RunShared(w: World, evs: seq<Event>)
    requires Shared(w) && CanRun(w, evs)
    ensures Shared(After(w, evs))
    decreases |evs|
  {
    if evs != [] {
      NextShared(w, evs[0]);
      RunShared(Next(w, evs[0]), evs[1..]);
    }
  }

  /** The events are a run from a new arena, and lead to `w`. */
  ghost predicate FromStart(blockSize: nat, inline_: nat, shardBlock: nat, n: nat, evs: seq<Event>, w: World)
    requires inline_ % ALIGN == 0 && shardBlock > 0
  {
    StartShared(blockSize, inline_, shardBlock, n);
    var w0 := Start(blockSize, inline_, shardBlock, n);
    CanRun(w0, evs) && w == After(w0, evs)
  }

  /** In every interleaving of any number of threads from a new arena: all regions ever returned are inside the arena's blocks and
      pairwise apart, as long as asked for, and word-aligned where alignment was asked for; the counter agrees with the arena
      whenever its lock is free. */
  lemma EveryRegionApart(blockSize: nat, inline_: nat, shardBlock: nat, n: nat, evs: seq<Event>, w: World)
    requires inline_ % ALIGN == 0 && shardBlock > 0 && FromStart(blockSize, inline_, shardBlock, n, evs, w)
    ensures AllApart(w.users) && AllApart(w.h.blocks) && |w.users| == |w.grants|
    ensures forall k :: 0 <= k < |w.users| ==> InSome(w.h.blocks, w.users[k]) && Suits(w.users[k], w.grants[k])
    ensures w.c.cached == w.c.arena.remaining
  {
    StartShared(blockSize, inline_, shardBlock, n);
    RunShared(Start(blockSize, inline_, shardBlock, n), evs);
    assert Open(0);
    forall k | 0 <= k < |w.users| ensures InSome(w.h.blocks, w.users[k]) {
      InSomeBlock(w.c.arena, w.h, w.users[k]);
    }
  }

  lemma InSomeBlock(a: Arena, h: Ledger, r: Region)
    requires Inv(a, h) && InSome(h.given, r)
    ensures InSome(h.blocks, r)
  {
    var i :| 0 <= i < |h.given| && Within(r, h.given[i]);
    var j :| 0 <= j < |h.blocks| && Within(h.given[i], h.blocks[j]);
    assert Within(r, h.blocks[j]);
  }

  /* ---------- the operation, step by step ---------- */

  /** The arena serves a request under its lock. */
  method FromArena(c: State, want: Want, base: nat, ghost w: World) returns (c': State, r: Region)
    requires Shared(w) && w.c == c && want.bytes > 0 && CanServe(c.arena, w.h, Request(Amount(want), want.aligned, base))
    ensures c' == ServedDirectly(w, want, base).c && ServedDirectly(w, want, base).users == w.users + [r] && r.len == Amount(want)
    ensures ServedDirectly(w, want, base).grants == w.grants + [Grant(want, false)]
  {
    assert Inv(c.arena, w.h) by { assert Open(0); }
    var a;
    ghost var h;
    if want.aligned {
      a, r, h := AllocateAligned(c.arena, Amount(want), base, w.h);
    } else {
      a, r, h := Allocate(c.arena, Amount(want), base, w.h);
    }
    c' := c.(arena := a, cached := a.remaining);
  }

  /** The holder of a shard that has too little gets a new piece from the arena, sized so that the active block of the arena
      is not wasted. */
  method RefillShard(c: State, i: nat, base: nat, ghost w: World) returns (c': State)
    requires Shared(w) && w.c == c && Enabled(w, Refill(i, base))
    ensures c' == Next(w, Refill(i, base)).c
  {
    assert Inv(c.arena, w.h) by { assert Open(0); }
    var exact := c.cached;
    assert exact == c.arena.remaining;
    var avail := if exact >= c.shardBlock / 2 && exact < c.shardBlock * 2 then exact else c.shardBlock;
    var a, r;
    ghost var h;
    a, r, h := AllocateAligned(c.arena, avail, base, w.h);
    c' := c.(arena := a, cached := a.remaining, shards := c.shards[i := c.shards[i].(freeBegin := r.addr, avail := avail)]);
  }

  /** The holder of a shard cuts its request from it and gives it back. */
  method CarveShard(c: State, i: nat, ghost w: World) returns (c': State, r: Region)
    requires Shared(w) && w.c == c && Enabled(w, Carve(i))
    ensures c' == Next(w, Carve(i)).c && Next(w, Carve(i)).users == w.users + [r] && r.len == Amount(c.shards[i].job.value)
    ensures Next(w, Carve(i)).grants == w.grants + [Grant(c.shards[i].job.value, true)]
  {
    var s := c.shards[i];
    var bytes := Amount(s.job.value);
    var s' := s.(unused := s.avail - bytes, job := None);
    if bytes % WORD == 0 {
      r := Region(s.freeBegin, bytes);
      s' := s'.(freeBegin := s.freeBegin + bytes);
    } else {
      r := Region(s.freeBegin + s.avail - bytes, bytes);
    }
    c' := c.(shards := c.shards[i := s']);
  }

  lemma RunOne(w: World, ev: Event)
    requires Shared(w) && Enabled(w, ev)
    ensures CanRun(w, [ev]) && After(w, [ev]) == Next(w, ev)
  {
    NextShared(w, ev);
    assert [ev][1..] == [];
    assert CanRun(Next(w, ev), []);
  }

  lemma RunThen(w: World, ev: Event, w1: World, evs: seq<Event>)
    requires Shared(w) && Enabled(w, ev) && w1 == Next(w, ev) && Shared(w1) && CanRun(w1, evs)
    ensures CanRun(w, [ev] + evs) && After(w, [ev] + evs) == After(w1, evs)
  {
    assert ([ev] + evs)[1..] == evs;
  }

  /** One request of a thread that nobody interrupts: `free` is whether the arena lock can be had at once, `i` the shard it
      picks otherwise. It is a run of events, and its one region is what the caller gets. A shard serves it if and only if the
      request is small, and the shard has enough or the arena has left its inline block. */
  method AllocateImpl(c: State, want: Want, force: bool, free: bool, i: nat, base: nat, ghost w: World)
    returns (c': State, r: Region, ghost evs: seq<Event>)
    requires Shared(w) && w.c == c && want.bytes > 0 && i < |c.shards| && c.shards[i].job.None?
    requires CanServe(c.arena, w.h, Request(Amount(want), want.aligned, base)) && CanServe(c.arena, w.h, Request(RefillSize(c), true, base))
    ensures CanRun(w, evs) && c' == After(w, evs).c && After(w, evs).users == w.users + [r] && r.len == Amount(want)
    ensures |c'.shards| == |c.shards| && c'.shards == c.shards[i := c'.shards[i]] && c'.shards[i].job.None?
    ensures var small := Amount(want) <= c.shardBlock / 4 && !force && !(free && c.shards[0].unused == 0);
            var inline_ := c.arena.blocks == 0 && c.cached >= Amount(want);
            After(w, evs).grants == w.grants + [Grant(want, small && (c.shards[i].unused >= Amount(want) || !inline_))]
  {
    if Amount(want) > c.shardBlock / 4 || force || (free && c.shards[0].unused == 0) {
      evs := [Direct(want, force, base)];
      RunOne(w, evs[0]);
      c', r := FromArena(c, want, base, w);
    } else {
      ghost var w1 := Next(w, Acquire(i, want));
      NextShared(w, Acquire(i, want));
      var c1 := c.(shards := c.shards[i := c.shards[i].(job := Some(want), avail := c.shards[i].unused)]);
      c', r, evs := FromShard(c1, want, i, base, w1);
      RunThen(w, Acquire(i, want), w1, evs);
      evs := [Acquire(i, want)] + evs;
    }
  }

  /** The rest of a request, once the thread has a shard. */
  method FromShard(c: State, want: Want, i: nat, base: nat, ghost w: World) returns (c': State, r: Region, ghost evs: seq<Event>)
    requires Shared(w) && w.c == c && Working(c, i) && c.shards[i].job.value == want && want.bytes > 0
    requires c.shards[i].avail == c.shards[i].unused && Amount(want) <= c.shardBlock / 4
    requires CanServe(c.arena, w.h, Request(Amount(want), want.aligned, base)) && CanServe(c.arena, w.h, Request(RefillSize(c), true, base))
    ensures CanRun(w, evs) && c' == After(w, evs).c && After(w, evs).users == w.users + [r] && r.len == Amount(want)
    ensures |c'.shards| == |c.shards| && c'.shards == c.shards[i := c'.shards[i]] && c'.shards[i].job.None?
    ensures var inline_ := c.arena.blocks == 0 && c.cached >= Amount(want);
            After(w, evs).grants == w.grants + [Grant(want, c.shards[i].avail >= Amount(want) || !inline_)]
  {
    if c.shards[i].avail >= Amount(want) {
      evs := [Carve(i)];
      RunOne(w, evs[0]);
      c', r := CarveShard(c, i, w);
    } else if c.cached >= Amount(want) && c.arena.blocks == 0 {
      evs := [Inline(i, base)];
      RunOne(w, evs[0]);
      c', r := FromArena(c, want, base, w);
      c' := c'.(shards := c'.shards[i := c'.shards[i].(job := None)]);
    } else {
      ghost var w1 := Next(w, Refill(i, base));
      NextShared(w, Refill(i, base));
      var c1 := RefillShard(c, i, base, w);
      evs := [Carve(i)];
      RunOne(w1, evs[0]);
      c', r := CarveShard(c1, i, w1);
      RunThen(w, Refill(i, base), w1, evs);
      evs := [Refill(i, base)] + evs;
    }
  }

  /* ---------- alignment ---------- */

  /** An aligned request that a shard serves is at a multiple of the arena's unit exactly when what has been cut from the
      front of the shard since its last refill is such a multiple. */
  lemma CarvedAlignedIff(w: World, i: nat, w': World)
    requires Shared(w) && Enabled(w, Carve(i)) && w.c.shards[i].job.value.aligned && w' == Next(w, Carve(i))
    ensures |w'.users| == |w.users| + 1 && w'.users[|w.users|].addr == w.fills[i].base + w.fills[i].front
    ensures w'.users[|w.users|].addr % ALIGN == 0 <==> w.fills[i].front % ALIGN == 0
  {
    FillAt(w.c.shards, w.fills, w.c.shardBlock, i);
    SumOfUnits(w.fills[i].base, w.fills[i].front);
  }

  lemma SumOfUnits(a: nat, b: nat)
    requires a % 16 == 0
    ensures (a + b) % 16 == 0 <==> b % 16 == 0
  {
  }

  /** With its inline block no longer all there is, an arena whose shard has too little for a word. */
  ghost predicate Worn(w: World) {
    Shared(w) && |w.c.shards| == 1 && w.c.shards[0] == Shard(0, 0, None, 0) && w.c.arena.blocks == 1 && w.c.shardBlock == 512
  }

  lemma WornOut(inline_: nat, base: nat) returns (ev: Event, w: World)
    requires inline_ % ALIGN == 0 && base % ALIGN == 0 && inline_ + INLINE_SIZE <= base
    ensures Shared(Start(MIN_BLOCK, inline_, 512, 1)) && Enabled(Start(MIN_BLOCK, inline_, 512, 1), ev)
    ensures w == Next(Start(MIN_BLOCK, inline_, 512, 1), ev) && Worn(w) && |w.users| == |w.grants| == 1
    ensures w.c.arena.remaining == INLINE_SIZE && w.h.blocks == [Region(inline_, INLINE_SIZE), Region(base, 3000)]
  {
    StartShared(MIN_BLOCK, inline_, 512, 1);
    ev := Direct(Want(3000, false), false, base);
    w := Next(Start(MIN_BLOCK, inline_, 512, 1), ev);
    NextShared(Start(MIN_BLOCK, inline_, 512, 1), ev);
  }

  /** A thread refills the shard and cuts one word from it. */
  lemma FirstWord(w: World, base: nat) returns (evs: seq<Event>, w': World)
    requires Worn(w) && CanServe(w.c.arena, w.h, Request(RefillSize(w.c), true, base))
    ensures CanRun(w, evs) && w' == After(w, evs) && Shared(w') && |w'.users| == |w.users| + 1
    ensures |w'.c.shards| == 1 && w'.c.shards[0].job.None? && w'.c.shards[0].unused >= WORD && w'.c.shardBlock == 512 && w'.fills[0].front == WORD
  {
    var e1, e2, e3 := Acquire(0, Want(1, true)), Refill(0, base), Carve(0);
    var w1 := Next(w, e1);
    NextShared(w, e1);
    var w2 := Next(w1, e2);
    NextShared(w1, e2);
    w' := Next(w2, e3);
    NextShared(w2, e3);
    RunOne(w2, e3);
    RunThen(w1, e2, w2, [e3]);
    RunThen(w, e1, w1, [e2] + [e3]);
    evs := [e1] + ([e2] + [e3]);
  }

  /** The next word of the same shard is off the unit. */
  lemma SecondWord(w: World) returns (evs: seq<Event>, w': World)
    requires Shared(w) && |w.c.shards| == 1 && w.c.shards[0].job.None? && w.c.shards[0].unused >= WORD && w.c.shardBlock == 512 && w.fills[0].front == WORD
    ensures CanRun(w, evs) && w' == After(w, evs) && |w'.users| == |w'.grants| == |w.users| + 1
    ensures w'.grants[|w.users|] == Grant(Want(1, true), true) && w'.users[|w.users|].addr % WORD == 0 && w'.users[|w.users|].addr % ALIGN != 0
  {
    var e1, e2 := Acquire(0, Want(1, true)), Carve(0);
    var w1 := Next(w, e1);
    NextShared(w, e1);
    w' := Next(w1, e2);
    NextShared(w1, e2);
    CarvedAlignedIff(w1, 0, w');
    assert Suits(w'.users[|w.users|], w'.grants[|w.users|]) by { assert Open(0); }
    RunOne(w1, e2);
    RunThen(w, e1, w1, [e2]);
    evs := [e1] + [e2];
  }

  lemma {:induction false} RunMore(w: World, evs: seq<Event>, w1: World, more: seq<Event>)
    requires Shared(w) && CanRun(w, evs) && w1 == After(w, evs) && Shared(w1) && CanRun(w1, more)
    ensures CanRun(w, evs + more) && After(w, evs + more) == After(w1, more)
    decreases |evs|
  {
    if evs == [] {
      assert evs + more == more;
    } else {
      var ev, rest, next := evs[0], evs[1..], Next(w, evs[0]);
      NextShared(w, ev);
      assert (evs + more)[1..] == rest + more;
      RunMore(next, rest, w1, more);
    }
  }

  /** An aligned request that a shard serves need not be at a multiple of the unit: a run in which a thread takes a block of its
      own from a new arena, so that the inline block is no longer all there is, and another cuts two words from a shard. */
  lemma ShardAlignmentIsWeaker(inline_: nat, base: nat) returns (evs: seq<Event>, w: World)
    requires inline_ % ALIGN == 0 && base % ALIGN == 0 && inline_ + INLINE_SIZE <= base
    ensures FromStart(MIN_BLOCK, inline_, 512, 1, evs, w) && |w.users| == |w.grants| == 3
    ensures w.grants[2] == Grant(Want(1, true), true) && w.users[2].addr % WORD == 0 && w.users[2].addr % ALIGN != 0
  {
    var w0 := Start(MIN_BLOCK, inline_, 512, 1);
    var ev, w1 := WornOut(inline_, base);
    var first, w2 := FirstWord(w1, 0);
    var second;
    second, w := SecondWord(w2);
    RunMore(w1, first, w2, second);
    RunThen(w0, ev, w1, first + second);
    evs := [ev] + (first + second);
  }
}
