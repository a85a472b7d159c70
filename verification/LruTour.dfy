/**
 A walk over a table that changes between the calls. Any sequence of operations may run on the table before each call;
 they never shrink it, so the cursor keeps its meaning. Keys, not handles, are what is visited once: an entry may be
 replaced under its key while the walk is on.
 */
module LruTour {
  import opened Seal
  import opened Coding
  import opened LruList
  import opened LruTable
  import opened LruWalk

  /* ---------- how a table changes ---------- */

  /** The operations of a shard on its table: a handle comes into being, enters the table, leaves it, ceases to be. */
  datatype Change = Make(e: Ptr, tag: Tag) | List(e: Ptr) | Unlist(tag: Tag) | Free(e: Ptr)

  /** The handles there are, and those the table has. */
  datatype Contents = Contents(tags: map<Ptr, Tag>, dir: map<Tag, Ptr>)

  /** An operation that is not possible changes nothing. */
  function Next(k: Contents, c: Change): Contents {
    match c
    case Make(e, tag) => if e == NULL || e in k.tags then k else k.(tags := k.tags[e := tag])
    case List(e) => if e in k.tags then k.(dir := k.dir[k.tags[e] := e]) else k
    case Unlist(tag) => k.(dir := k.dir - {tag})
    case Free(e) => if e in k.tags && k.tags[e] in k.dir && k.dir[k.tags[e]] == e then k else k.(tags := k.tags - {e})
  }

  function After(k: Contents, cs: seq<Change>): Contents
    decreases |cs|
  {
    if cs == [] then k else Next(After(k, cs[..|cs| - 1]), cs[|cs| - 1])
  }

  ghost predicate Stores(t: Table, k: Contents) {
    IsTable(t, k.dir) && TagsOf(t.cells) == k.tags
  }

  lemma SameTagsOf(cells: map<Ptr, Cell>, cells': map<Ptr, Cell>)
    requires SameTags(cells, cells')
    ensures TagsOf(cells') == TagsOf(cells)
  {
  }

  lemma TagOf(t: Table, k: Contents, e: Ptr)
    requires Stores(t, k)
    ensures e in t.cells <==> e in k.tags
    ensures e in t.cells ==> t.cells[e].tag == k.tags[e]
    ensures Listed(t.cells, k.dir, e) <==> e in k.tags && k.tags[e] in k.dir && k.dir[k.tags[e]] == e
  {
    assert e in TagsOf(t.cells) <==> e in t.cells;
  }

  lemma NotNull(t: Table, k: Contents)
    requires Stores(t, k)
    ensures NULL !in t.cells && t.lengthBits <= 31
  {
    var chains :| Holds(t, chains, k.dir);
  }

  method Apply(t: Table, c: Change, ghost k: Contents) returns (t': Table)
    requires Stores(t, k)
    ensures Stores(t', Next(k, c)) && t'.lengthBits >= t.lengthBits
  {
    t' := t;
    NotNull(t, k);
    match c
    case Make(e, tag) =>
      TagOf(t, k, e);
      if e != NULL && e !in t.cells {
        t' := t.(cells := t.cells[e := Cell(tag, NULL)]);
        AddCell(t, k.dir, e, tag, t');
      }
    case List(e) =>
      TagOf(t, k, e);
      if e in t.cells {
        t' := Enlist(t, e, t.cells[e].tag, k);
      }
    case Unlist(tag) =>
      var was;
      t', was := Remove(t, tag, k.dir);
      SameTagsOf(t.cells, t'.cells);
    case Free(e) =>
      TagOf(t, k, e);
      t' := Discard(t, e, k);
  }

  method Enlist(t: Table, e: Ptr, tag: Tag, ghost k: Contents) returns (t': Table)
    requires Stores(t, k) && e in t.cells && e in k.tags && tag == t.cells[e].tag == k.tags[e] && e != NULL
    ensures Stores(t', k.(dir := k.dir[tag := e])) && t'.lengthBits >= t.lengthBits
  {
    t' := t;
    var there := Lookup(t, tag, k.dir);
    if there == e {
      assert k.dir[tag := e] == k.dir;
    } else {
      var was;
      t', was := Insert(t, e, k.dir);
      SameTagsOf(t.cells, t'.cells);
    }
  }

  method Discard(t: Table, e: Ptr, ghost k: Contents) returns (t': Table)
    requires Stores(t, k)
    ensures Stores(t', Next(k, Free(e))) && t'.lengthBits >= t.lengthBits
  {
    t' := t;
    TagOf(t, k, e);
    if e in t.cells {
      var there := Lookup(t, t.cells[e].tag, k.dir);
      if there != e {
        t' := t.(cells := t.cells - {e});
        FreeCell(t, k.dir, e, t');
      }
    } else {
      assert k.tags - {e} == k.tags;
    }
  }

  method ApplyAll(t: Table, cs: seq<Change>, ghost k: Contents) returns (t': Table)
    requires Stores(t, k)
    ensures Stores(t', After(k, cs)) && t'.lengthBits >= t.lengthBits
  {
    t' := t;
    assert cs[..0] == [];
    for i := 0 to |cs|
      invariant Stores(t', After(k, cs[..i])) && t'.lengthBits >= t.lengthBits
    {
      assert cs[..i + 1][..i] == cs[..i];
      t' := Apply(t', cs[i], After(k, cs[..i]));
    }
    assert cs[..|cs|] == cs;
  }

  /* ---------- walks over changing tables ---------- */

  /** Call `i` works on table `ts[i]`, which holds `dirs[i]`. */
  datatype Tour = Tour(ts: seq<Table>, dirs: seq<map<Tag, Ptr>>, bits: seq<nat>, states: seq<nat>, visits: seq<seq<Ptr>>)

  ghost predicate IsCall(tour: Tour, i: nat)
    requires i < |tour.ts| == |tour.dirs| == |tour.visits| && i + 1 < |tour.states|
  {
    && IsTable(tour.ts[i], tour.dirs[i])
    && VisitsBetween(tour.ts[i], tour.dirs[i], tour.states[i], Limit(tour.states[i + 1]), tour.visits[i])
  }

  ghost predicate IsTour(tour: Tour, perLock: nat) {
    && IsWalk(tour.bits, tour.states, perLock) && |tour.ts| == |tour.dirs| == |tour.visits| == |tour.bits|
    && (forall i {:trigger IsCall(tour, i)} :: 0 <= i < |tour.ts| ==> IsCall(tour, i))
  }

  ghost predicate Finished(tour: Tour) {
    |tour.states| > 0 && tour.states[|tour.states| - 1] == UINT64_MAX
  }

  /** The key `g` is visited in call `i`, through whatever handle it has then. */
  ghost predicate VisitsKey(tour: Tour, i: nat, g: Tag) {
    i < |tour.ts| == |tour.visits| && exists p :: p in tour.visits[i] && p in tour.ts[i].cells && tour.ts[i].cells[p].tag == g
  }

  lemma VisitedIsCovered(tour: Tour, perLock: nat, i: nat, g: Tag)
    requires IsTour(tour, perLock) && VisitsKey(tour, i, g)
    ensures Covers(tour.states, i, Position(g.hash)) && g in tour.dirs[i] && tour.dirs[i][g] in tour.visits[i]
  {
    assert IsCall(tour, i);
  }

  lemma CoveredIsVisited(tour: Tour, perLock: nat, i: nat, g: Tag)
    requires IsTour(tour, perLock) && i < |tour.ts| && g in tour.dirs[i] && Covers(tour.states, i, Position(g.hash))
    ensures VisitsKey(tour, i, g)
  {
    assert IsCall(tour, i);
    var chains :| Holds(tour.ts[i], chains, tour.dirs[i]);
    var p := tour.dirs[i][g];
    assert Listed(tour.ts[i].cells, tour.dirs[i], p) && tour.ts[i].cells[p].tag == g by { assert Open(0); }
  }

  /** No key is visited twice, although entries are replaced, come and go, and the table grows between the calls: two visits to
      handles with the same key are one and the same visit. */
  lemma NeverTwice(tour: Tour, perLock: nat, i: nat, a: nat, j: nat, b: nat)
    requires IsTour(tour, perLock) && perLock > 0
    requires i < |tour.visits| && j < |tour.visits| && a < |tour.visits[i]| && b < |tour.visits[j]|
    requires tour.visits[i][a] in tour.ts[i].cells && tour.visits[j][b] in tour.ts[j].cells
    requires tour.ts[i].cells[tour.visits[i][a]].tag == tour.ts[j].cells[tour.visits[j][b]].tag
    ensures i == j && a == b
  {
    var g := tour.ts[i].cells[tour.visits[i][a]].tag;
    assert VisitsKey(tour, i, g) && VisitsKey(tour, j, g);
    VisitedIsCovered(tour, perLock, i, g);
    VisitedIsCovered(tour, perLock, j, g);
    if i < j {
      AtMostOneCall(tour.bits, tour.states, perLock, Position(g.hash), i, j);
    } else if j < i {
      AtMostOneCall(tour.bits, tour.states, perLock, Position(g.hash), j, i);
    }
    SameHandle(tour, i, a, b, g);
  }

  lemma SameHandle(tour: Tour, i: nat, a: nat, b: nat, g: Tag)
    requires i < |tour.ts| == |tour.dirs| == |tour.visits| && i + 1 < |tour.states| && IsCall(tour, i)
    requires a < |tour.visits[i]| && b < |tour.visits[i]|
    requires tour.visits[i][a] in tour.ts[i].cells && tour.ts[i].cells[tour.visits[i][a]].tag == g
    requires tour.visits[i][b] in tour.ts[i].cells && tour.ts[i].cells[tour.visits[i][b]].tag == g
    ensures a == b
  {
    var v := tour.visits[i];
    assert v[a] in v && v[b] in v;
    DistinctIff(v);
  }

  /** A key that is in the table at every call of a finished walk is visited in exactly one call, through whatever handle it
      has then. */
  lemma StayingVisitedOnce(tour: Tour, perLock: nat, g: Tag) returns (i: nat)
    requires IsTour(tour, perLock) && perLock > 0 && Finished(tour) && forall n :: 0 <= n < |tour.dirs| ==> g in tour.dirs[n]
    ensures VisitsKey(tour, i, g) && g in tour.dirs[i] && tour.dirs[i][g] in tour.visits[i]
    ensures forall j: nat :: j != i ==> !VisitsKey(tour, j, g)
  {
    i := ExactlyOneCall(tour.bits, tour.states, perLock, Position(g.hash));
    CoveredIsVisited(tour, perLock, i, g);
    VisitedIsCovered(tour, perLock, i, g);
    forall j: nat | j != i ensures !VisitsKey(tour, j, g) {
      if VisitsKey(tour, j, g) {
        VisitedIsCovered(tour, perLock, j, g);
      }
    }
  }

  /* ---------- all shards ---------- */

  /** What is in shard `i` after the changes before its first `n` calls. */
  function ContentsAt(k: Contents, changes: (nat, nat) -> seq<Change>, i: nat, n: nat): Contents
    decreases n
  {
    if n == 0 then k else After(ContentsAt(k, changes, i, n - 1), changes(i, n - 1))
  }

  /** A tour of shard `i`: call `n` sees what the changes before it made of the contents. */
  ghost predicate Follows(tour: Tour, k: Contents, changes: (nat, nat) -> seq<Change>, i: nat) {
    forall n: nat {:trigger ContentsAt(k, changes, i, n + 1)} :: n < |tour.ts| == |tour.dirs| ==> tour.dirs[n] == ContentsAt(k, changes, i, n + 1).dir
  }

  /** The tour of a shard so far, its cursor, and its table as the last call saw it. */
  ghost predicate Stands(tour: Tour, k: Contents, changes: (nat, nat) -> seq<Change>, i: nat, t: Table, state: nat, perLock: nat) {
    && IsTour(tour, perLock) && tour.states[|tour.bits|] == state && Follows(tour, k, changes, i)
    && Stores(t, ContentsAt(k, changes, i, |tour.ts|))
    && (forall n :: 0 <= n < |tour.bits| ==> tour.bits[n] <= t.lengthBits) && t.lengthBits <= 31
    && (state != UINT64_MAX ==> exists b :: AtBucket(state, t.lengthBits, b))
  }

  ghost predicate OnTour(tour: Tour, k: Contents, changes: (nat, nat) -> seq<Change>, i: nat, t: Table, state: nat, perLock: nat) {
    forall n: nat {:trigger Open(n)} :: Open(n) ==> Stands(tour, k, changes, i, t, state, perLock)
  }

  const START: Tour := Tour([], [], [], [0], [])

  lemma AtStart(t: Table, k: Contents, changes: (nat, nat) -> seq<Change>, i: nat, perLock: nat)
    requires Stores(t, k)
    ensures OnTour(START, k, changes, i, t, 0, perLock)
  {
    NotNull(t, k);
    assert AtBucket(0, t.lengthBits, 0);
  }

  ghost function More(tour: Tour, t: Table, dir: map<Tag, Ptr>, state: nat, visited: seq<Ptr>): Tour {
    Tour(tour.ts + [t], tour.dirs + [dir], tour.bits + [t.lengthBits], tour.states + [state], tour.visits + [visited])
  }

  lemma CallsKept(tour: Tour, perLock: nat, t: Table, dir: map<Tag, Ptr>, state: nat, visited: seq<Ptr>, tour': Tour)
    requires IsTour(tour, perLock) && tour' == More(tour, t, dir, state, visited) && IsTable(t, dir)
    requires VisitsBetween(t, dir, tour.states[|tour.bits|], Limit(state), visited)
    ensures forall i {:trigger IsCall(tour', i)} :: 0 <= i < |tour'.ts| ==> IsCall(tour', i)
  {
    forall i {:trigger IsCall(tour', i)} | 0 <= i < |tour'.ts| ensures IsCall(tour', i) {
      if i < |tour.ts| {
        assert IsCall(tour, i);
      }
    }
  }

  /** One more call. */
  lemma TourMore(tour: Tour, perLock: nat, t: Table, dir: map<Tag, Ptr>, state: nat, state': nat, visited: seq<Ptr>, tour': Tour)
    requires IsTour(tour, perLock) && tour' == More(tour, t, dir, state', visited) && IsTable(t, dir) && t.lengthBits <= 31
    requires state == tour.states[|tour.bits|] != UINT64_MAX && forall n :: 0 <= n < |tour.bits| ==> tour.bits[n] <= t.lengthBits
    requires state' == NextState(state, t.lengthBits, perLock) && VisitsBetween(t, dir, state, Limit(state'), visited)
    ensures IsTour(tour', perLock)
  {
    CallsKept(tour, perLock, t, dir, state', visited, tour');
    WalkMore(tour.bits, tour.states, perLock, t.lengthBits, state', tour'.bits, tour'.states, |tour.bits|);
  }

  lemma FollowsMore(tour: Tour, k: Contents, changes: (nat, nat) -> seq<Change>, i: nat, tour': Tour, n: nat)
    requires Follows(tour, k, changes, i) && n == |tour.ts| == |tour.dirs| && |tour'.ts| == n + 1
    requires tour'.dirs == tour.dirs + [ContentsAt(k, changes, i, n + 1).dir]
    ensures Follows(tour', k, changes, i)
  {
  }

  lemma StandsMore(tour: Tour, k: Contents, changes: (nat, nat) -> seq<Change>, i: nat, t: Table, state: nat, perLock: nat,
                   n: nat, at: Contents, t': Table, b: nat, state': nat, visited: seq<Ptr>, tour': Tour)
    requires Stands(tour, k, changes, i, t, state, perLock) && n == |tour.ts| && at == ContentsAt(k, changes, i, n + 1) && perLock > 0
    requires Stores(t', at) && t.lengthBits <= t'.lengthBits <= 31 && state != UINT64_MAX && AtBucket(state, t'.lengthBits, b)
    requires state' == NextState(state, t'.lengthBits, perLock) && VisitsBetween(t', at.dir, state, Limit(state'), visited)
    requires tour' == More(tour, t', at.dir, state', visited)
    ensures Stands(tour', k, changes, i, t', state', perLock) && Limit(state) < Limit(state') <= TWO64
  {
    TourMore(tour, perLock, t', at.dir, state, state', visited, tour');
    FollowsMore(tour, k, changes, i, tour', n);
    CursorMoves(state, t'.lengthBits, perLock, b);
  }

  /** The changes before the next call of a shard, and that call. */
  method Advance(t: Table, ghost k: Contents, changes: (nat, nat) -> seq<Change>, i: nat, n: nat, perLock: nat, state: nat, ghost tour: Tour)
    returns (t': Table, state': nat, visited: seq<Ptr>, ghost tour': Tour)
    requires OnTour(tour, k, changes, i, t, state, perLock) && n == |tour.ts| && state != UINT64_MAX && perLock > 0
    ensures OnTour(tour', k, changes, i, t', state', perLock) && Limit(state) < Limit(state') <= TWO64
    ensures |tour'.ts| == n + 1 && tour'.visits == tour.visits + [visited]
  {
    assert Stands(tour, k, changes, i, t, state, perLock) by { assert Open(0); }
    ghost var b :| AtBucket(state, t.lengthBits, b);
    ghost var at := ContentsAt(k, changes, i, n + 1);
    t' := ApplyAll(t, changes(i, n), ContentsAt(k, changes, i, n));
    NotNull(t', at);
    ghost var b' := StillAtBucket(state, t.lengthBits, t'.lengthBits, b);
    visited, state' := ApplyToSomeEntries(t', at.dir, perLock, state, b');
    tour' := More(tour, t', at.dir, state', visited);
    StandsMore(tour, k, changes, i, t, state, perLock, n, at, t', b', state', visited, tour');
  }

  /** A shard that is being walked: its table, its cursor, and what the calls so far visited. */
  datatype Walker = Walker(table: Table, state: nat, visits: seq<seq<Ptr>>)

  /** What a cursor still has before it. */
  function Ahead(state: nat): nat {
    if Limit(state) < TWO64 then TWO64 - Limit(state) else 0
  }

  function Left(ws: seq<Walker>): nat {
    if ws == [] then 0 else Ahead(ws[0].state) + Left(ws[1..])
  }

  lemma {:induction false} LeftShrinks(ws: seq<Walker>, i: nat, w: Walker)
    requires i < |ws| && Ahead(w.state) < Ahead(ws[i].state)
    ensures Left(ws[i := w]) < Left(ws)
    decreases |ws|
  {
    if i > 0 {
      assert ws[i := w][1..] == ws[1..][i - 1 := w];
      LeftShrinks(ws[1..], i - 1, w);
    } else {
      assert ws[i := w][1..] == ws[1..];
    }
  }

  ghost predicate Here(tour: Tour, k: Contents, changes: (nat, nat) -> seq<Change>, i: nat, w: Walker) {
    forall n: nat {:trigger Open(n)} :: Open(n) ==>
      OnTour(tour, k, changes, i, w.table, w.state, 1) && |tour.ts| == |w.visits| && tour.visits == w.visits
  }

  /** The tour of shard `i` is finished; `visits` is what its calls visited. */
  ghost predicate Toured(tour: Tour, k: Contents, changes: (nat, nat) -> seq<Change>, i: nat, visits: seq<seq<Ptr>>) {
    IsTour(tour, 1) && Finished(tour) && Follows(tour, k, changes, i) && tour.visits == visits
  }

  lemma HereAtStart(t: Table, k: Contents, changes: (nat, nat) -> seq<Change>, i: nat)
    requires Stores(t, k)
    ensures Here(START, k, changes, i, Walker(t, 0, []))
  {
    AtStart(t, k, changes, i, 1);
  }

  lemma HereAtEnd(tour: Tour, k: Contents, changes: (nat, nat) -> seq<Change>, i: nat, w: Walker)
    requires Here(tour, k, changes, i, w) && w.state == UINT64_MAX
    ensures Toured(tour, k, changes, i, w.visits)
  {
    assert Open(0);
  }

  /** One shard's turn. */
  method Turn(w: Walker, ghost k: Contents, changes: (nat, nat) -> seq<Change>, i: nat, ghost tour: Tour) returns (w': Walker, ghost tour': Tour)
    requires Here(tour, k, changes, i, w) && w.state != UINT64_MAX
    ensures Here(tour', k, changes, i, w') && Ahead(w'.state) < Ahead(w.state)
  {
    assert OnTour(tour, k, changes, i, w.table, w.state, 1) && |tour.ts| == |w.visits| && tour.visits == w.visits by { assert Open(0); }
    var t, state, visited;
    t, state, visited, tour' := Advance(w.table, k, changes, i, |w.visits|, 1, w.state, tour);
    w' := Walker(t, state, w.visits + [visited]);
  }

  /** Rotates between the shards until all are done, whatever changes come between the calls. Each shard has had a finished
      tour, so `NeverTwice` and `StayingVisitedOnce` hold of its keys. */
  method ApplyToAllEntries(tables: seq<Table>, ghost ks: seq<Contents>, averagePerLock: nat, changes: (nat, nat) -> seq<Change>)
    returns (ws: seq<Walker>, ghost tours: seq<Tour>)
    requires |ks| == |tables| && averagePerLock > 0 && forall i :: 0 <= i < |tables| ==> Stores(tables[i], ks[i])
    ensures |ws| == |tours| == |tables|
    ensures forall i :: 0 <= i < |tables| ==> Toured(tours[i], ks[i], changes, i, ws[i].visits)
  {
    var perLock := if averagePerLock < 1 then averagePerLock else 1;
    assert perLock == 1;
    ws := seq(|tables|, i requires 0 <= i < |tables| => Walker(tables[i], 0, []));
    tours := seq(|tables|, _ => START);
    forall i | 0 <= i < |tables| ensures Here(tours[i], ks[i], changes, i, ws[i]) {
      HereAtStart(tables[i], ks[i], changes, i);
    }
    var remaining := true;
    while remaining
      invariant |ws| == |tours| == |tables|
      invariant forall i :: 0 <= i < |ws| ==> Here(tours[i], ks[i], changes, i, ws[i])
      invariant !remaining ==> forall i :: 0 <= i < |ws| ==> ws[i].state == UINT64_MAX
      decreases Left(ws), remaining
    {
      remaining := false;
      ghost var before := Left(ws);
      for i := 0 to |ws|
        invariant |ws| == |tours| == |tables|
        invariant forall j :: 0 <= j < |ws| ==> Here(tours[j], ks[j], changes, j, ws[j])
        invariant !remaining ==> forall j :: 0 <= j < i ==> ws[j].state == UINT64_MAX
        invariant Left(ws) <= before && (remaining ==> Left(ws) < before)
      {
        if ws[i].state != UINT64_MAX {
          var w, tour := Turn(ws[i], ks[i], changes, i, tours[i]);
          LeftShrinks(ws, i, w);
          ws, tours := ws[i := w], tours[i := tour];
          remaining := remaining || w.state != UINT64_MAX;
        }
      }
    }
    forall i | 0 <= i < |tables| ensures Toured(tours[i], ks[i], changes, i, ws[i].visits) {
      HereAtEnd(tours[i], ks[i], changes, i, ws[i]);
    }
  }
}
