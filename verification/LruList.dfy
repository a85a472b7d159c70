/**
 The eviction list of a cache shard: a circular doubly linked list through a dummy
 head, oldest entry first, cut into a bottom-, a low- and a high-priority segment by
 two pointers, with the running charge totals of the whole list and of two segments.
 */
module LruList {
  import opened Seal

  /** The address of a handle. `HEAD` is the dummy head embedded in the shard. */
  type Ptr = nat
  const NULL: Ptr := 0
  const HEAD: Ptr := 1

  /** The fields of a handle that the list uses. */
  datatype Node = Node(next: Ptr, prev: Ptr, inHigh: bool, inLow: bool, charge: nat)

  /* ---------- the list as a value ---------- */

  /** The entries, oldest first: the first `nb` are the bottom segment, the next `nl` the low one. */
  datatype Lists = Lists(order: seq<Ptr>, nb: nat, nl: nat) {
    ghost predicate Ok() {
      nb + nl <= |order|
    }

    function Low(): seq<Ptr>
      requires Ok()
    {
      order[nb..nb + nl]
    }

    function High(): seq<Ptr>
      requires Ok()
    {
      order[nb + nl..]
    }
  }

  function Of(charge: map<Ptr, nat>, p: Ptr): nat {
    if p in charge then charge[p] else 0
  }

  function Sum(charge: map<Ptr, nat>, s: seq<Ptr>): nat {
    if s == [] then 0 else Of(charge, s[0]) + Sum(charge, s[1..])
  }

  lemma {:induction false} SumConcat(charge: map<Ptr, nat>, a: seq<Ptr>, b: seq<Ptr>)
    ensures Sum(charge, a + b) == Sum(charge, a) + Sum(charge, b)
  {
    if a == [] {
      assert a + b == b;
    } else {
      assert (a + b)[1..] == a[1..] + b;
      SumConcat(charge, a[1..], b);
    }
  }

  /** The sum without entry `k`. */
  lemma SumWithout(charge: map<Ptr, nat>, s: seq<Ptr>, k: nat)
    requires k < |s|
    ensures Sum(charge, s) == Sum(charge, Without(s, k)) + Of(charge, s[k])
  {
    assert s == s[..k] + ([s[k]] + s[k + 1..]);
    SumConcat(charge, s[..k], [s[k]] + s[k + 1..]);
    SumConcat(charge, [s[k]], s[k + 1..]);
    SumConcat(charge, s[..k], s[k + 1..]);
  }

  lemma {:induction false} SumAgree(c: map<Ptr, nat>, c': map<Ptr, nat>, s: seq<Ptr>)
    requires forall p :: p in s ==> Of(c, p) == Of(c', p)
    ensures Sum(c, s) == Sum(c', s)
  {
    if s != [] {
      SumAgree(c, c', s[1..]);
    }
  }

  /** How many of the oldest entries of a segment must leave it to fit into `cap`. */
  function Spill(charge: map<Ptr, nat>, s: seq<Ptr>, cap: real): (k: nat)
    requires cap >= 0.0
    ensures k <= |s|
    decreases |s|
  {
    if Sum(charge, s) as real <= cap then 0 else 1 + Spill(charge, s[1..], cap)
  }

  /** `Spill` is the least number that will do. */
  lemma {:induction false} SpillIsLeast(charge: map<Ptr, nat>, s: seq<Ptr>, cap: real, j: nat)
    requires cap >= 0.0
    requires j <= |s|
    ensures Sum(charge, s[j..]) as real <= cap <==> Spill(charge, s, cap) <= j
    decreases j
  {
    if j > 0 {
      assert s[j..] == s[1..][j - 1..];
      if Sum(charge, s) as real > cap {
        SpillIsLeast(charge, s[1..], cap, j - 1);
      } else {
        assert s == s[..j] + s[j..];
        SumConcat(charge, s[..j], s[j..]);
      }
    } else {
      assert s[0..] == s;
    }
  }

  /** Entries that overflow the high segment move to low, those that overflow low to bottom. */
  function Maintained(ls: Lists, charge: map<Ptr, nat>, highCap: real, lowCap: real): (r: Lists)
    requires ls.Ok() && highCap >= 0.0 && lowCap >= 0.0
    ensures r.Ok() && r.order == ls.order
  {
    var k := Spill(charge, ls.High(), highCap);
    var wide := Lists(ls.order, ls.nb, ls.nl + k);
    var j := Spill(charge, wide.Low(), lowCap);
    Lists(ls.order, ls.nb + j, ls.nl + k - j)
  }

  function IndexOf(s: seq<Ptr>, e: Ptr): (k: nat)
    requires e in s
    ensures k < |s| && s[k] == e
  {
    if s[0] == e then 0 else 1 + IndexOf(s[1..], e)
  }

  function Without(s: seq<Ptr>, k: nat): seq<Ptr>
    requires k < |s|
  {
    s[..k] + s[k + 1..]
  }

  function DroppedAt(ls: Lists, k: nat): (r: Lists)
    requires ls.Ok() && k < |ls.order|
    ensures r.Ok()
  {
    Lists(Without(ls.order, k),
          if k < ls.nb then ls.nb - 1 else ls.nb,
          if ls.nb <= k < ls.nb + ls.nl then ls.nl - 1 else ls.nl)
  }

  function Dropped(ls: Lists, e: Ptr): (r: Lists)
    requires ls.Ok() && e in ls.order
    ensures r.Ok()
  {
    DroppedAt(ls, IndexOf(ls.order, e))
  }

  /** How much an entry asks for: the high segment, at least the low one, or neither. */
  datatype Want = WantHigh | WantLow | WantBottom

  datatype Pool = HighPool | LowPool | BottomPool

  /** A segment whose ratio is zero is never entered. */
  function Target(want: Want, highRatio: real, lowRatio: real): Pool {
    if highRatio > 0.0 && want.WantHigh? then HighPool
    else if lowRatio > 0.0 && !want.WantBottom? then LowPool
    else BottomPool
  }

  /** Where the newest entry of a segment goes. */
  function Spot(ls: Lists, pool: Pool): (k: nat)
    requires ls.Ok()
    ensures k <= |ls.order|
  {
    match pool
    case HighPool => |ls.order|
    case LowPool => ls.nb + ls.nl
    case BottomPool => ls.nb
  }

  /** The list with `e` as the newest entry of a segment. */
  function Grown(ls: Lists, e: Ptr, pool: Pool): (r: Lists)
    requires ls.Ok()
    ensures r.Ok()
  {
    var k := Spot(ls, pool);
    Lists(ls.order[..k] + [e] + ls.order[k..],
          if pool.BottomPool? then ls.nb + 1 else ls.nb,
          if pool.LowPool? then ls.nl + 1 else ls.nl)
  }

  function Inserted(ls: Lists, charge: map<Ptr, nat>, e: Ptr, pool: Pool, highCap: real, lowCap: real): (r: Lists)
    requires ls.Ok() && highCap >= 0.0 && lowCap >= 0.0
    ensures r.Ok()
  {
    if pool.BottomPool? then Grown(ls, e, pool) else Maintained(Grown(ls, e, pool), charge, highCap, lowCap)
  }

  /* ---------- the links ---------- */

  ghost predicate Distinct(s: seq<Ptr>) {
    s == [] || (s[0] !in s[1..] && Distinct(s[1..]))
  }

  ghost predicate Injective(s: seq<Ptr>) {
    forall i, j :: 0 <= i < j < |s| ==> s[i] != s[j]
  }

  lemma {:induction false} DistinctIff(s: seq<Ptr>)
    ensures Distinct(s) <==> Injective(s)
  {
    if s != [] {
      var tail := s[1..];
      DistinctIff(tail);
      if Injective(s) {
        assert forall i :: 0 <= i < |tail| ==> tail[i] == s[i + 1];
      } else {
        var i, j :| 0 <= i < j < |s| && s[i] == s[j];
        assert tail[j - 1] == s[j];
        assert i > 0 ==> tail[i - 1] == s[i];
      }
    }
  }

  ghost function Ring(order: seq<Ptr>): seq<Ptr> {
    [HEAD] + order + [HEAD]
  }

  /** The entry before position `i`: the head, or the entry at `i - 1`. */
  function At(order: seq<Ptr>, i: nat): Ptr
    requires i <= |order|
  {
    if i == 0 then HEAD else order[i - 1]
  }

  /** `next` leads through `r`; `prev` leads back. */
  ghost predicate Forward(links: map<Ptr, Node>, r: seq<Ptr>) {
    && (forall p :: p in r ==> p in links)
    && (forall i {:trigger links[r[i]]} :: 0 <= i < |r| - 1 ==> links[r[i]].next == r[i + 1])
  }

  ghost predicate Backward(links: map<Ptr, Node>, r: seq<Ptr>) {
    && (forall p :: p in r ==> p in links)
    && (forall i {:trigger links[r[i]]} :: 0 < i < |r| ==> links[r[i]].prev == r[i - 1])
  }

  ghost predicate Loose(links: map<Ptr, Node>, order: seq<Ptr>) {
    forall p {:trigger links[p]} :: p in links && p != HEAD && p !in order ==> links[p].next == NULL && links[p].prev == NULL
  }

  /** The head and `order` form a circle; every other node is unlinked. */
  ghost predicate Circle(links: map<Ptr, Node>, order: seq<Ptr>) {
    && NULL !in links && HEAD !in order && Distinct(order)
    && Forward(links, Ring(order)) && Backward(links, Ring(order))
    && Loose(links, order)
  }

  lemma FrontInjective(order: seq<Ptr>, e: Ptr)
    requires e !in order && Injective(order)
    ensures Injective([e] + order) && Injective(order + [e])
  {
  }

  lemma RingInjective(order: seq<Ptr>)
    requires HEAD !in order && Distinct(order)
    ensures Injective(Ring(order)[..|order| + 1]) && Injective(Ring(order)[1..])
  {
    DistinctIff(order);
    FrontInjective(order, HEAD);
    var r := Ring(order);
    assert r[..|order| + 1] == [HEAD] + order;
    assert r[1..] == order + [HEAD];
  }

  /** Takes `e` out of the circle. */
  function Unlink(links: map<Ptr, Node>, e: Ptr): (l: map<Ptr, Node>)
    requires e in links && links[e].next in links && links[e].prev in links
  {
    var n, p := links[e].next, links[e].prev;
    var l := links[n := links[n].(prev := p)];
    var l := l[p := l[p].(next := n)];
    l[e := l[e].(prev := NULL, next := NULL)]
  }

  lemma UnlinkForward(links: map<Ptr, Node>, r: seq<Ptr>, k: nat, r': seq<Ptr>)
    requires k + 2 < |r| && Forward(links, r) && Backward(links, r)
    requires Injective(r[..|r| - 1]) && Injective(r[1..])
    requires r' == r[..k + 1] + r[k + 2..]
    ensures Forward(Unlink(links, r[k + 1]), r')
  {
    var e, n, p := r[k + 1], r[k + 2], r[k];
    assert links[e].next == n && links[e].prev == p;
    var l := Unlink(links, e);
    forall i | 0 <= i < |r'| - 1 ensures l[r'[i]].next == r'[i + 1] {
      var j := if i <= k then i else i + 1;
      assert r'[i] == r[j] && r[j] == r[..|r| - 1][j];
      assert e == r[..|r| - 1][k + 1] && p == r[..|r| - 1][k];
      assert links[r[j]].next == r[j + 1];
    }
  }

  lemma UnlinkBackward(links: map<Ptr, Node>, r: seq<Ptr>, k: nat, r': seq<Ptr>)
    requires k + 2 < |r| && Forward(links, r) && Backward(links, r)
    requires Injective(r[..|r| - 1]) && Injective(r[1..])
    requires r' == r[..k + 1] + r[k + 2..]
    ensures Backward(Unlink(links, r[k + 1]), r')
  {
    var e, n, p := r[k + 1], r[k + 2], r[k];
    assert links[e].next == n && links[e].prev == p;
    var l := Unlink(links, e);
    forall i | 0 < i < |r'| ensures l[r'[i]].prev == r'[i - 1] {
      var j := if i <= k then i else i + 1;
      assert r'[i] == r[j] && r[j] == r[1..][j - 1];
      assert e == r[1..][k] && n == r[1..][k + 1];
      assert links[r[j]].prev == r[j - 1];
    }
  }

  /** Where removing and inserting at `k` put an entry. */
  lemma RemoveAtMembers(order: seq<Ptr>, k: nat)
    requires k < |order| && Distinct(order)
    ensures var order' := order[..k] + order[k + 1..];
            Distinct(order') && order[k] !in order' && forall p :: p in order <==> p == order[k] || p in order'
  {
    var order' := order[..k] + order[k + 1..];
    DistinctIff(order);
    DistinctIff(order');
    forall p | p in order && p != order[k] ensures p in order' {
      var i :| 0 <= i < |order| && order[i] == p;
      assert p == order'[if i < k then i else i - 1];
    }
    forall i, j | 0 <= i < j < |order'| ensures order'[i] != order'[j] {
      assert order'[i] == order[if i < k then i else i + 1] && order'[j] == order[if j < k then j else j + 1];
    }
  }

  lemma UnlinkLoose(links: map<Ptr, Node>, order: seq<Ptr>, e: Ptr, order': seq<Ptr>)
    requires Loose(links, order) && e in links && links[e].next in links && links[e].prev in links
    requires links[e].next == HEAD || links[e].next in order'
    requires links[e].prev == HEAD || links[e].prev in order'
    requires forall p :: p in order <==> p == e || p in order'
    ensures Loose(Unlink(links, e), order')
  {
  }

  lemma UnlinkKeepsRing(links: map<Ptr, Node>, order: seq<Ptr>, k: nat)
    requires Circle(links, order) && k < |order|
    ensures order[k] in links && links[order[k]].next in links && links[order[k]].prev in links
    ensures Circle(Unlink(links, order[k]), Without(order, k))
  {
    var r := Ring(order);
    var order' := order[..k] + order[k + 1..];
    RemoveAtMembers(order, k);
    assert Ring(order') == r[..k + 1] + r[k + 2..];
    RingInjective(order);
    assert r[..|r| - 1] == r[..|order| + 1];
    assert r[k + 1] == order[k];
    assert links[r[k + 1]].next == r[k + 2] && links[r[k + 1]].prev == r[k];
    UnlinkForward(links, r, k, Ring(order'));
    UnlinkBackward(links, r, k, Ring(order'));
    assert k > 0 ==> r[k] == order'[k - 1];
    assert k < |order'| ==> r[k + 2] == order'[k];
    UnlinkLoose(links, order, order[k], order');
  }

  /** Puts `e` into the circle right after `at`. */
  function LinkAfter(links: map<Ptr, Node>, e: Ptr, at: Ptr): (l: map<Ptr, Node>)
    requires e in links && at in links && links[at].next in links
  {
    var n := links[at].next;
    var l := links[e := links[e].(next := n, prev := at)];
    var l := l[at := l[at].(next := e)];
    l[n := l[n].(prev := e)]
  }

  lemma LinkForward(links: map<Ptr, Node>, r: seq<Ptr>, k: nat, e: Ptr, r': seq<Ptr>)
    requires k + 1 < |r| && Forward(links, r) && e in links && e !in r
    requires Injective(r[..|r| - 1]) && Injective(r[1..])
    requires r' == r[..k + 1] + [e] + r[k + 1..]
    ensures Forward(LinkAfter(links, e, r[k]), r')
  {
    var n, p := r[k + 1], r[k];
    assert links[p].next == n;
    var l := LinkAfter(links, e, p);
    forall i | 0 <= i < |r'| - 1 ensures l[r'[i]].next == r'[i + 1] {
      if i != k + 1 {
        var j := if i <= k then i else i - 1;
        assert r'[i] == r[j] && r[j] == r[..|r| - 1][j];
        assert p == r[..|r| - 1][k];
        assert links[r[j]].next == r[j + 1];
      }
    }
  }

  lemma LinkBackward(links: map<Ptr, Node>, r: seq<Ptr>, k: nat, e: Ptr, r': seq<Ptr>)
    requires k + 1 < |r| && Forward(links, r) && Backward(links, r) && e in links && e !in r
    requires Injective(r[..|r| - 1]) && Injective(r[1..])
    requires r' == r[..k + 1] + [e] + r[k + 1..]
    ensures Backward(LinkAfter(links, e, r[k]), r')
  {
    var n, p := r[k + 1], r[k];
    assert links[p].next == n;
    var l := LinkAfter(links, e, p);
    forall i | 0 < i < |r'| ensures l[r'[i]].prev == r'[i - 1] {
      if i != k + 1 {
        var j := if i <= k then i else i - 1;
        assert r'[i] == r[j] && r[j] == r[1..][j - 1];
        assert n == r[1..][k];
        assert links[r[j]].prev == r[j - 1];
      }
    }
  }

  lemma InsertAtDistinct(order: seq<Ptr>, k: nat, e: Ptr, order': seq<Ptr>)
    requires k <= |order| && Distinct(order) && e !in order && order' == order[..k] + [e] + order[k..]
    ensures Distinct(order')
  {
    DistinctIff(order);
    DistinctIff(order');
    forall i, j | 0 <= i < j < |order'| ensures order'[i] != order'[j] {
      assert i != k ==> order'[i] == order[if i < k then i else i - 1];
      assert j != k ==> order'[j] == order[if j < k then j else j - 1];
    }
  }

  lemma InsertAtMembers(order: seq<Ptr>, k: nat, e: Ptr, order': seq<Ptr>)
    requires k <= |order| && order' == order[..k] + [e] + order[k..]
    ensures forall p :: p in order' <==> p == e || p in order
  {
    assert order == order[..k] + order[k..];
    assert order'[k] == e;
  }

  lemma LinkLoose(links: map<Ptr, Node>, order: seq<Ptr>, e: Ptr, at: Ptr, order': seq<Ptr>)
    requires Loose(links, order) && e in links && at in links && links[at].next in links
    requires at == HEAD || at in order'
    requires links[at].next == HEAD || links[at].next in order'
    requires forall p :: p in order' <==> p == e || p in order
    ensures Loose(LinkAfter(links, e, at), order')
  {
  }

  lemma LinkKeepsRing(links: map<Ptr, Node>, order: seq<Ptr>, k: nat, e: Ptr, at: Ptr, order': seq<Ptr>)
    requires Circle(links, order) && k <= |order| && e in links && e != HEAD && e !in order
    requires at == At(order, k) && order' == order[..k] + [e] + order[k..]
    ensures at in links && links[at].next in links && Circle(LinkAfter(links, e, at), order')
  {
    var r, r' := Ring(order), Ring(order');
    InsertAtDistinct(order, k, e, order');
    InsertAtMembers(order, k, e, order');
    assert r' == r[..k + 1] + [e] + r[k + 1..];
    RingInjective(order);
    assert r[..|r| - 1] == r[..|order| + 1];
    assert r[k] == at;
    assert links[r[k]].next == r[k + 1];
    LinkForward(links, r, k, e, r');
    LinkBackward(links, r, k, e, r');
    assert k > 0 ==> at == order[k - 1];
    assert k < |order| ==> r[k + 1] == order[k];
    LinkLoose(links, order, e, at, order');
  }

  lemma LinkAfterFields(links: map<Ptr, Node>, e: Ptr, at: Ptr, l: map<Ptr, Node>)
    requires e in links && at in links && links[at].next in links && l == LinkAfter(links, e, at)
    ensures l.Keys == links.Keys
    ensures forall p :: p in links ==> l[p].inLow == links[p].inLow && l[p].inHigh == links[p].inHigh && l[p].charge == links[p].charge
  {
  }

  /* ---------- moving the segment boundaries ---------- */

  lemma MaintainHighStep(ls: Lists, charge: map<Ptr, nat>, highCap: real, lowCap: real, next: Lists)
    requires ls.Ok() && highCap >= 0.0 && lowCap >= 0.0
    requires Sum(charge, ls.High()) as real > highCap && next == ls.(nl := ls.nl + 1)
    ensures next.Ok() && Maintained(next, charge, highCap, lowCap) == Maintained(ls, charge, highCap, lowCap)
  {
    assert ls.High() != [];
    assert ls.High()[1..] == next.High();
  }

  lemma MaintainLowStep(ls: Lists, charge: map<Ptr, nat>, highCap: real, lowCap: real, next: Lists)
    requires ls.Ok() && highCap >= 0.0 && lowCap >= 0.0
    requires Sum(charge, ls.High()) as real <= highCap && Sum(charge, ls.Low()) as real > lowCap
    requires ls.nl > 0 && next == ls.(nb := ls.nb + 1, nl := ls.nl - 1)
    ensures next.Ok() && Maintained(next, charge, highCap, lowCap) == Maintained(ls, charge, highCap, lowCap)
  {
    assert next.High() == ls.High();
    assert ls.Low()[1..] == next.Low();
    assert Lists(ls.order, ls.nb, ls.nl + 0) == ls && Lists(next.order, next.nb, next.nl + 0) == next;
  }

  lemma SpillFits(charge: map<Ptr, nat>, s: seq<Ptr>, cap: real, k: nat)
    requires cap >= 0.0 && k == Spill(charge, s, cap)
    ensures Sum(charge, s[k..]) as real <= cap
  {
    SpillIsLeast(charge, s, cap, k);
  }

  lemma HighFits(charge: map<Ptr, nat>, order: seq<Ptr>, high: nat, cap: real, k: nat, cut: nat)
    requires cap >= 0.0 && high <= |order| && k == Spill(charge, order[high..], cap) && cut == high + k
    ensures Sum(charge, order[cut..]) as real <= cap
  {
    SpillFits(charge, order[high..], cap, k);
    assert order[high..][k..] == order[cut..];
  }

  lemma LowFits(charge: map<Ptr, nat>, order: seq<Ptr>, nb: nat, cut: nat, cap: real, j: nat)
    requires cap >= 0.0 && nb <= cut <= |order| && j == Spill(charge, order[nb..cut], cap)
    ensures nb + j <= cut && Sum(charge, order[nb + j..cut]) as real <= cap
  {
    SpillFits(charge, order[nb..cut], cap, j);
    assert order[nb..cut][j..] == order[nb + j..cut];
  }

  /** Both pools fit afterwards. */
  lemma MaintainedHighFits(ls: Lists, charge: map<Ptr, nat>, highCap: real, lowCap: real, r: Lists)
    requires ls.Ok() && highCap >= 0.0 && lowCap >= 0.0
    requires r == Maintained(ls, charge, highCap, lowCap)
    ensures Sum(charge, r.High()) as real <= highCap
  {
    var cut, k, j := MaintainedParts(ls, charge, highCap, lowCap, r);
    HighFits(charge, ls.order, ls.nb + ls.nl, highCap, k, cut);
  }

  lemma MaintainedLowFits(ls: Lists, charge: map<Ptr, nat>, highCap: real, lowCap: real, r: Lists)
    requires ls.Ok() && highCap >= 0.0 && lowCap >= 0.0
    requires r == Maintained(ls, charge, highCap, lowCap)
    ensures Sum(charge, r.Low()) as real <= lowCap
  {
    var cut, k, j := MaintainedParts(ls, charge, highCap, lowCap, r);
    LowFits(charge, ls.order, ls.nb, cut, lowCap, j);
  }

  lemma MaintainedParts(ls: Lists, charge: map<Ptr, nat>, highCap: real, lowCap: real, r: Lists)
    returns (cut: nat, k: nat, j: nat)
    requires ls.Ok() && highCap >= 0.0 && lowCap >= 0.0
    requires r == Maintained(ls, charge, highCap, lowCap)
    ensures k == Spill(charge, ls.High(), highCap) && cut == ls.nb + ls.nl + k <= |ls.order|
    ensures j == Spill(charge, ls.order[ls.nb..cut], lowCap)
    ensures r.High() == ls.order[cut..] && r.Low() == ls.order[ls.nb + j..cut]
  {
    k := Spill(charge, ls.High(), highCap);
    cut := ls.nb + ls.nl + k;
    assert ls.nb + (ls.nl + k) == cut;
    j := Spill(charge, ls.order[ls.nb..cut], lowCap);
    assert r.nb == ls.nb + j && r.nb + r.nl == cut;
  }

  /** Nothing moves when both pools fit already. */
  lemma MaintainedDone(ls: Lists, charge: map<Ptr, nat>, highCap: real, lowCap: real)
    requires ls.Ok() && highCap >= 0.0 && lowCap >= 0.0
    requires Sum(charge, ls.High()) as real <= highCap && Sum(charge, ls.Low()) as real <= lowCap
    ensures Maintained(ls, charge, highCap, lowCap) == ls
  {
  }

  /** Changing pool flags leaves the circle alone. */
  lemma FlagsKeepRing(links: map<Ptr, Node>, l: map<Ptr, Node>, order: seq<Ptr>)
    requires Circle(links, order) && l.Keys == links.Keys
    requires forall p :: p in links ==> l[p].next == links[p].next && l[p].prev == links[p].prev
    ensures Circle(l, order)
  {
    var r := Ring(order);
    forall i | 0 <= i < |r| - 1 ensures l[r[i]].next == r[i + 1] {
      assert links[r[i]].next == r[i + 1];
    }
    forall i | 0 < i < |r| ensures l[r[i]].prev == r[i - 1] {
      assert links[r[i]].prev == r[i - 1];
    }
  }

  function ChargesOf(links: map<Ptr, Node>): map<Ptr, nat> {
    map p | p in links && p != HEAD :: links[p].charge
  }

  /** The flags of the entries say which segment each is in. */
  ghost predicate Flags(links: map<Ptr, Node>, order: seq<Ptr>, nb: nat, nl: nat) {
    && (forall p :: p in order ==> p in links)
    && (forall i {:trigger links[order[i]]} :: 0 <= i < |order| ==>
          links[order[i]].inLow == (nb <= i < nb + nl) && links[order[i]].inHigh == (nb + nl <= i))
  }

  /** The two pointers are at the ends of the bottom and the low segment. */
  ghost predicate Cut(order: seq<Ptr>, nb: nat, nl: nat, bottomPri: Ptr, lowPri: Ptr) {
    && nb + nl <= |order|
    && bottomPri == At(order, nb) && lowPri == At(order, nb + nl)
  }

  /** The running totals are the charges of the whole list and of the two upper segments. */
  ghost predicate Sums(charge: map<Ptr, nat>, order: seq<Ptr>, nb: nat, nl: nat,
                       lruUsage: nat, lowUsage: nat, highUsage: nat)
  {
    && nb + nl <= |order|
    && lruUsage == Sum(charge, order)
    && lowUsage == Sum(charge, order[nb..nb + nl])
    && highUsage == Sum(charge, order[nb + nl..])
  }

  lemma FlagsDemoteHigh(links: map<Ptr, Node>, order: seq<Ptr>, nb: nat, nl: nat, nl': nat, l: map<Ptr, Node>)
    requires Circle(links, order) && Flags(links, order, nb, nl) && nb + nl < |order| && nl' == nl + 1
    requires l == links[order[nb + nl] := links[order[nb + nl]].(inHigh := false, inLow := true)]
    ensures Circle(l, order) && Flags(l, order, nb, nl') && ChargesOf(l) == ChargesOf(links)
  {
    DistinctIff(order);
    FlagsKeepRing(links, l, order);
  }

  lemma TotalsDemoteHigh(charge: map<Ptr, nat>, order: seq<Ptr>, nb: nat, nl: nat, nl': nat,
                         lru: nat, low: nat, high: nat)
    requires Sums(charge, order, nb, nl, lru, low, high) && nb + nl < |order| && nl' == nl + 1
    ensures Of(charge, order[nb + nl]) <= high
    ensures Sums(charge, order, nb, nl', lru, low + Of(charge, order[nb + nl]), high - Of(charge, order[nb + nl]))
  {
    var cut := nb + nl;
    assert order[nb..cut + 1] == order[nb..cut] + [order[cut]];
    SumConcat(charge, order[nb..cut], [order[cut]]);
    assert order[cut..] == [order[cut]] + order[cut + 1..];
    assert order[cut..][1..] == order[cut + 1..];
  }

  lemma FlagsDemoteLow(links: map<Ptr, Node>, order: seq<Ptr>, nb: nat, nl: nat, nb': nat, nl': nat, l: map<Ptr, Node>)
    requires Circle(links, order) && Flags(links, order, nb, nl) && nl > 0 && nb + nl <= |order|
    requires nb' == nb + 1 && nl' == nl - 1
    requires l == links[order[nb] := links[order[nb]].(inHigh := false, inLow := false)]
    ensures Circle(l, order) && Flags(l, order, nb', nl') && ChargesOf(l) == ChargesOf(links)
  {
    DistinctIff(order);
    FlagsKeepRing(links, l, order);
  }

  lemma TotalsDemoteLow(charge: map<Ptr, nat>, order: seq<Ptr>, nb: nat, nl: nat, nb': nat, nl': nat,
                        lru: nat, low: nat, high: nat)
    requires Sums(charge, order, nb, nl, lru, low, high) && nl > 0 && nb' == nb + 1 && nl' == nl - 1
    ensures Of(charge, order[nb]) <= low
    ensures Sums(charge, order, nb', nl', lru, low - Of(charge, order[nb]), high)
  {
    assert order[nb..nb + nl] == [order[nb]] + order[nb'..nb' + nl'];
    assert order[nb..nb + nl][1..] == order[nb'..nb' + nl'];
  }

  /* ---------- removing an entry ---------- */

  lemma AtDrop(order: seq<Ptr>, k: nat, e: Ptr, i: nat)
    requires k < |order| && order[k] == e && i <= |order| && HEAD !in order && Distinct(order)
    ensures At(order, i) == e <==> i == k + 1
    ensures i <= k ==> At(Without(order, k), i) == At(order, i)
    ensures i > k + 1 ==> At(Without(order, k), i - 1) == At(order, i)
  {
    DistinctIff(order);
    if i > 0 && order[i - 1] == e {
      assert i - 1 == k;
    }
  }

  lemma CutDrop(ls: Lists, k: nat, e: Ptr, bottomPri: Ptr, lowPri: Ptr, prev: Ptr)
    requires Cut(ls.order, ls.nb, ls.nl, bottomPri, lowPri) && HEAD !in ls.order && Distinct(ls.order)
    requires k < |ls.order| && ls.order[k] == e && prev == At(ls.order, k)
    ensures var r := DroppedAt(ls, k);
            Cut(r.order, r.nb, r.nl, if bottomPri == e then prev else bottomPri, if lowPri == e then prev else lowPri)
  {
    AtDrop(ls.order, k, e, ls.nb);
    AtDrop(ls.order, k, e, ls.nb + ls.nl);
    AtDrop(ls.order, k, e, k);
  }

  lemma FlagsDrop(links: map<Ptr, Node>, ls: Lists, k: nat, l: map<Ptr, Node>)
    requires Flags(links, ls.order, ls.nb, ls.nl) && ls.Ok() && k < |ls.order|
    requires l.Keys == links.Keys
    requires forall p :: p in links ==> l[p].inLow == links[p].inLow && l[p].inHigh == links[p].inHigh
    ensures var r := DroppedAt(ls, k); Flags(l, r.order, r.nb, r.nl)
  {
    var r := DroppedAt(ls, k);
    forall i | 0 <= i < |r.order|
      ensures l[r.order[i]].inLow == (r.nb <= i < r.nb + r.nl) && l[r.order[i]].inHigh == (r.nb + r.nl <= i)
    {
      var j := if i < k then i else i + 1;
      assert r.order[i] == ls.order[j];
      assert links[ls.order[j]].inLow == (ls.nb <= j < ls.nb + ls.nl);
    }
  }

  /** A slice of a list with one entry taken out. */
  lemma SliceWithout(s: seq<Ptr>, k: nat, a: nat, b: nat)
    requires k < |s| && a <= b <= |s|
    ensures b <= k ==> Without(s, k)[a..b] == s[a..b]
    ensures k < a ==> Without(s, k)[a - 1..b - 1] == s[a..b]
  {
  }

  lemma SumSlice(charge: map<Ptr, nat>, s: seq<Ptr>, k: nat, a: nat, b: nat)
    requires k < |s| && a <= k < b <= |s|
    ensures Sum(charge, s[a..b]) == Sum(charge, Without(s, k)[a..b - 1]) + Of(charge, s[k])
  {
    var t, i := s[a..b], k - a;
    var w := Without(s, k)[a..b - 1];
    assert |w| == |Without(t, i)|;
    assert forall j :: 0 <= j < |w| ==> w[j] == Without(t, i)[j];
    assert w == Without(t, i) && t[i] == s[k];
    SumWithout(charge, t, i);
  }

  lemma TotalsDropBottom(charge: map<Ptr, nat>, ls: Lists, k: nat, lru: nat, low: nat, high: nat)
    requires Sums(charge, ls.order, ls.nb, ls.nl, lru, low, high) && k < ls.nb
    ensures Of(charge, ls.order[k]) <= lru
    ensures Sums(charge, Without(ls.order, k), ls.nb - 1, ls.nl, lru - Of(charge, ls.order[k]), low, high)
  {
    var s, lo, hi, n := ls.order, ls.nb, ls.nb + ls.nl, |ls.order|;
    SumWithout(charge, s, k);
    SliceWithout(s, k, lo, hi);
    SliceWithout(s, k, hi, n);
    assert s[hi..] == s[hi..n] && Without(s, k)[hi - 1..] == Without(s, k)[hi - 1..n - 1];
  }

  lemma TotalsDropLow(charge: map<Ptr, nat>, ls: Lists, k: nat, lru: nat, low: nat, high: nat)
    requires Sums(charge, ls.order, ls.nb, ls.nl, lru, low, high) && ls.nb <= k < ls.nb + ls.nl
    ensures Of(charge, ls.order[k]) <= lru && Of(charge, ls.order[k]) <= low
    ensures Sums(charge, Without(ls.order, k), ls.nb, ls.nl - 1,
                   lru - Of(charge, ls.order[k]), low - Of(charge, ls.order[k]), high)
  {
    var s, lo, hi, n := ls.order, ls.nb, ls.nb + ls.nl, |ls.order|;
    SumWithout(charge, s, k);
    SumSlice(charge, s, k, lo, hi);
    SliceWithout(s, k, hi, n);
    assert s[hi..] == s[hi..n] && Without(s, k)[hi - 1..] == Without(s, k)[hi - 1..n - 1];
  }

  lemma TotalsDropHigh(charge: map<Ptr, nat>, ls: Lists, k: nat, lru: nat, low: nat, high: nat)
    requires Sums(charge, ls.order, ls.nb, ls.nl, lru, low, high) && ls.nb + ls.nl <= k < |ls.order|
    ensures Of(charge, ls.order[k]) <= lru && Of(charge, ls.order[k]) <= high
    ensures Sums(charge, Without(ls.order, k), ls.nb, ls.nl,
                   lru - Of(charge, ls.order[k]), low, high - Of(charge, ls.order[k]))
  {
    var s, lo, hi, n := ls.order, ls.nb, ls.nb + ls.nl, |ls.order|;
    SumWithout(charge, s, k);
    SliceWithout(s, k, lo, hi);
    SumSlice(charge, s, k, hi, n);
    assert s[hi..] == s[hi..n] && Without(s, k)[hi..] == Without(s, k)[hi..n - 1];
  }

  /* ---------- the state of the list ---------- */

  ghost predicate Linked(links: map<Ptr, Node>, order: seq<Ptr>) {
    forall n: nat {:trigger Open(n)} :: Open(n) ==> Circle(links, order)
  }

  ghost predicate Flagged(links: map<Ptr, Node>, order: seq<Ptr>, nb: nat, nl: nat) {
    forall n: nat {:trigger Open(n)} :: Open(n) ==> Flags(links, order, nb, nl)
  }

  ghost predicate Totals(charge: map<Ptr, nat>, ls: Lists, lru: nat, low: nat, high: nat) {
    forall n: nat {:trigger Open(n)} :: Open(n) ==> Sums(charge, ls.order, ls.nb, ls.nl, lru, low, high)
  }

  /** The list fields of a shard. */
  datatype ListState = ListState(
    links: map<Ptr, Node>, bottomPri: Ptr, lowPri: Ptr,
    lruUsage: nat, highUsage: nat, lowUsage: nat,
    highRatio: real, lowRatio: real, highCap: real, lowCap: real)

  /** Everything that ties the links, the two pointers and the totals to the list they represent. */
  ghost predicate IsList(st: ListState, ls: Lists) {
    && Linked(st.links, ls.order)
    && Cut(ls.order, ls.nb, ls.nl, st.bottomPri, st.lowPri)
    && Flagged(st.links, ls.order, ls.nb, ls.nl)
    && Totals(ChargesOf(st.links), ls, st.lruUsage, st.lowUsage, st.highUsage)
    && st.highCap >= 0.0 && st.lowCap >= 0.0
  }

  predicate SameLimits(st: ListState, st': ListState) {
    st'.highRatio == st.highRatio && st'.lowRatio == st.lowRatio && st'.highCap == st.highCap && st'.lowCap == st.lowCap
  }

  lemma NextOf(links: map<Ptr, Node>, order: seq<Ptr>, i: nat)
    requires Linked(links, order) && i <= |order|
    ensures At(order, i) in links && HEAD in links
    ensures links[At(order, i)].next == if i < |order| then order[i] else HEAD
    ensures i < |order| ==> order[i] in links && links[order[i]].prev == At(order, i)
  {
    assert Open(0);
    var r := Ring(order);
    assert r[i] == At(order, i) && r[0] == HEAD && r[0] in r;
    assert r[i] in r && links[r[i]].next == r[i + 1];
    assert r[i + 1] in r && links[r[i + 1]].prev == r[i];
  }

  lemma DemoteHighParts(st: ListState, ls: Lists, ls': Lists, e: Ptr, l: map<Ptr, Node>)
    requires IsList(st, ls) && ls.nb + ls.nl < |ls.order| && ls' == ls.(nl := ls.nl + 1)
    requires e == ls.order[ls.nb + ls.nl] && e in st.links && l == st.links[e := st.links[e].(inHigh := false, inLow := true)]
    ensures Linked(l, ls.order) && Flagged(l, ls'.order, ls'.nb, ls'.nl) && ChargesOf(l) == ChargesOf(st.links)
    ensures st.links[e].charge <= st.highUsage
    ensures Totals(ChargesOf(l), ls', st.lruUsage, st.lowUsage + st.links[e].charge, st.highUsage - st.links[e].charge)
  {
    assert Open(0);
    TotalsDemoteHigh(ChargesOf(st.links), ls.order, ls.nb, ls.nl, ls'.nl, st.lruUsage, st.lowUsage, st.highUsage);
    FlagsDemoteHigh(st.links, ls.order, ls.nb, ls.nl, ls'.nl, l);
  }

  lemma DemoteLowParts(st: ListState, ls: Lists, ls': Lists, e: Ptr, l: map<Ptr, Node>)
    requires IsList(st, ls) && ls.nl > 0 && ls' == ls.(nb := ls.nb + 1, nl := ls.nl - 1)
    requires e == ls.order[ls.nb] && e in st.links && l == st.links[e := st.links[e].(inHigh := false, inLow := false)]
    ensures Linked(l, ls.order) && Flagged(l, ls'.order, ls'.nb, ls'.nl) && ChargesOf(l) == ChargesOf(st.links)
    ensures st.links[e].charge <= st.lowUsage
    ensures Totals(ChargesOf(l), ls', st.lruUsage, st.lowUsage - st.links[e].charge, st.highUsage)
  {
    assert Open(0);
    TotalsDemoteLow(ChargesOf(st.links), ls.order, ls.nb, ls.nl, ls'.nb, ls'.nl, st.lruUsage, st.lowUsage, st.highUsage);
    FlagsDemoteLow(st.links, ls.order, ls.nb, ls.nl, ls'.nb, ls'.nl, l);
  }

  lemma UsagesAre(st: ListState, ls: Lists)
    requires IsList(st, ls)
    ensures st.lruUsage == Sum(ChargesOf(st.links), ls.order)
    ensures st.lowUsage == Sum(ChargesOf(st.links), ls.Low()) && st.highUsage == Sum(ChargesOf(st.links), ls.High())
    ensures ls.Low() == [] ==> st.lowUsage == 0
    ensures ls.High() == [] ==> st.highUsage == 0
  {
    assert Open(0);
  }

  /** The oldest entry of the high segment becomes the newest of the low one. */
  method DemoteHigh(st: ListState, ghost ls: Lists, ghost ls': Lists) returns (st': ListState)
    requires IsList(st, ls) && ls.nb + ls.nl < |ls.order| && ls' == ls.(nl := ls.nl + 1)
    ensures IsList(st', ls') && ChargesOf(st'.links) == ChargesOf(st.links) && SameLimits(st, st')
    ensures st'.links.Keys == st.links.Keys
  {
    NextOf(st.links, ls.order, ls.nb + ls.nl);
    var e := st.links[st.lowPri].next;
    var l := st.links[e := st.links[e].(inHigh := false, inLow := true)];
    DemoteHighParts(st, ls, ls', e, l);
    st' := st.(lowPri := e, links := l, highUsage := st.highUsage - l[e].charge, lowUsage := st.lowUsage + l[e].charge);
  }

  /** The oldest entry of the low segment becomes the newest of the bottom one. */
  method DemoteLow(st: ListState, ghost ls: Lists, ghost ls': Lists) returns (st': ListState)
    requires IsList(st, ls) && ls.nl > 0 && ls' == ls.(nb := ls.nb + 1, nl := ls.nl - 1)
    ensures IsList(st', ls') && ChargesOf(st'.links) == ChargesOf(st.links) && SameLimits(st, st')
    ensures st'.highUsage == st.highUsage && st'.links.Keys == st.links.Keys
  {
    NextOf(st.links, ls.order, ls.nb);
    var e := st.links[st.bottomPri].next;
    var l := st.links[e := st.links[e].(inHigh := false, inLow := false)];
    DemoteLowParts(st, ls, ls', e, l);
    st' := st.(bottomPri := e, links := l, lowUsage := st.lowUsage - l[e].charge);
  }

  /** Maintaining `cur` gives `goal`. */
  ghost predicate Toward(goal: Lists, cur: Lists, st: ListState) {
    forall n: nat {:trigger Open(n)} :: Open(n) ==>
      cur.Ok() && st.highCap >= 0.0 && st.lowCap >= 0.0 &&
      Maintained(cur, ChargesOf(st.links), st.highCap, st.lowCap) == goal
  }

  lemma TowardHigh(goal: Lists, cur: Lists, st: ListState, next: Lists)
    requires IsList(st, cur) && Toward(goal, cur, st) && st.highUsage as real > st.highCap
    requires next == cur.(nl := cur.nl + 1)
    ensures cur.nb + cur.nl < |cur.order| && Toward(goal, next, st)
  {
    assert Open(0);
    UsagesAre(st, cur);
    assert cur.High() != [];
    MaintainHighStep(cur, ChargesOf(st.links), st.highCap, st.lowCap, next);
  }

  lemma LowNotEmpty(cur: Lists, st: ListState)
    requires IsList(st, cur) && st.lowUsage > 0
    ensures cur.nl > 0
  {
    UsagesAre(st, cur);
    assert cur.Low() != [];
  }

  lemma TowardLow(goal: Lists, cur: Lists, st: ListState, next: Lists)
    requires IsList(st, cur) && Toward(goal, cur, st)
    requires st.highUsage as real <= st.highCap && st.lowUsage as real > st.lowCap
    requires cur.nl > 0 && next == cur.(nb := cur.nb + 1, nl := cur.nl - 1)
    ensures Toward(goal, next, st)
  {
    assert Open(0);
    UsagesAre(st, cur);
    MaintainLowStep(cur, ChargesOf(st.links), st.highCap, st.lowCap, next);
  }

  lemma TowardDone(goal: Lists, cur: Lists, st: ListState)
    requires IsList(st, cur) && Toward(goal, cur, st)
    requires st.highUsage as real <= st.highCap && st.lowUsage as real <= st.lowCap
    ensures goal == cur
  {
    assert Open(0);
    UsagesAre(st, cur);
    MaintainedDone(cur, ChargesOf(st.links), st.highCap, st.lowCap);
  }

  method MaintainPoolSize(st: ListState, ghost ls: Lists) returns (st': ListState)
    requires IsList(st, ls)
    ensures IsList(st', Maintained(ls, ChargesOf(st.links), st.highCap, st.lowCap))
    ensures ChargesOf(st'.links) == ChargesOf(st.links) && SameLimits(st, st')
  {
    st' := st;
    ghost var cur, charge := ls, ChargesOf(st.links);
    ghost var goal := Maintained(ls, charge, st.highCap, st.lowCap);
    while st'.highUsage as real > st'.highCap
      invariant IsList(st', cur) && Toward(goal, cur, st') && ChargesOf(st'.links) == charge && SameLimits(st, st')
      decreases |cur.order| - cur.nb - cur.nl
    {
      ghost var next := cur.(nl := cur.nl + 1);
      TowardHigh(goal, cur, st', next);
      st' := DemoteHigh(st', cur, next);
      cur := next;
    }
    while st'.lowUsage as real > st'.lowCap
      invariant IsList(st', cur) && Toward(goal, cur, st') && ChargesOf(st'.links) == charge && SameLimits(st, st')
      invariant st'.highUsage as real <= st'.highCap
      decreases cur.nl
    {
      LowNotEmpty(cur, st');
      ghost var next := cur.(nb := cur.nb + 1, nl := cur.nl - 1);
      TowardLow(goal, cur, st', next);
      st' := DemoteLow(st', cur, next);
      cur := next;
    }
    TowardDone(goal, cur, st');
  }

  /** The list fields with `e` taken out, and `l` the new links. */
  function Removed(st: ListState, e: Ptr, l: map<Ptr, Node>): ListState
    requires e in st.links && st.links[e].charge <= st.lruUsage
    requires st.links[e].inHigh ==> st.links[e].charge <= st.highUsage
    requires !st.links[e].inHigh && st.links[e].inLow ==> st.links[e].charge <= st.lowUsage
  {
    var node := st.links[e];
    st.(links := l,
        bottomPri := if st.bottomPri == e then node.prev else st.bottomPri,
        lowPri := if st.lowPri == e then node.prev else st.lowPri,
        lruUsage := st.lruUsage - node.charge,
        highUsage := if node.inHigh then st.highUsage - node.charge else st.highUsage,
        lowUsage := if !node.inHigh && node.inLow then st.lowUsage - node.charge else st.lowUsage)
  }

  lemma RemovedLinks(links: map<Ptr, Node>, order: seq<Ptr>, k: nat, e: Ptr)
    requires Linked(links, order) && k < |order| && order[k] == e
    ensures e in links && links[e].next in links && links[e].prev in links
    ensures Linked(Unlink(links, e), Without(order, k))
    ensures HEAD !in order && Distinct(order)
    ensures ChargesOf(Unlink(links, e)) == ChargesOf(links) && Unlink(links, e).Keys == links.Keys
  {
    assert Open(0);
    UnlinkKeepsRing(links, order, k);
  }

  lemma RemovedFlags(links: map<Ptr, Node>, ls: Lists, k: nat, e: Ptr, l: map<Ptr, Node>, r: Lists)
    requires Flagged(links, ls.order, ls.nb, ls.nl)
    requires ls.Ok() && k < |ls.order| && ls.order[k] == e && r == DroppedAt(ls, k)
    requires e in links && links[e].next in links && links[e].prev in links && l == Unlink(links, e)
    ensures Flagged(l, r.order, r.nb, r.nl)
    ensures links[e].inLow == (ls.nb <= k < ls.nb + ls.nl) && links[e].inHigh == (ls.nb + ls.nl <= k)
  {
    assert Open(0);
    FlagsDrop(links, ls, k, l);
    assert links[ls.order[k]].inLow == (ls.nb <= k < ls.nb + ls.nl);
  }

  lemma RemovedTotals(charge: map<Ptr, nat>, ls: Lists, k: nat, r: Lists, c: nat, lru: nat, low: nat, high: nat)
    requires Totals(charge, ls, lru, low, high) && ls.Ok() && k < |ls.order| && r == DroppedAt(ls, k) && c == Of(charge, ls.order[k])
    ensures c <= lru && (ls.nb <= k < ls.nb + ls.nl ==> c <= low) && (ls.nb + ls.nl <= k ==> c <= high)
    ensures Totals(charge, r, lru - c, if ls.nb <= k < ls.nb + ls.nl then low - c else low, if ls.nb + ls.nl <= k then high - c else high)
  {
    assert Open(0);
    if k < ls.nb {
      TotalsDropBottom(charge, ls, k, lru, low, high);
    } else if k < ls.nb + ls.nl {
      TotalsDropLow(charge, ls, k, lru, low, high);
    } else {
      TotalsDropHigh(charge, ls, k, lru, low, high);
    }
  }

  lemma RemoveOk(st: ListState, ls: Lists, k: nat, e: Ptr, l: map<Ptr, Node>, r: Lists)
    requires IsList(st, ls) && k < |ls.order| && ls.order[k] == e && e != HEAD && r == DroppedAt(ls, k)
    requires Linked(l, r.order) && Flagged(l, r.order, r.nb, r.nl) && ChargesOf(l) == ChargesOf(st.links) && e in st.links
    requires st.links[e].inLow == (ls.nb <= k < ls.nb + ls.nl) && st.links[e].inHigh == (ls.nb + ls.nl <= k)
    ensures st.links[e].charge <= st.lruUsage
    ensures st.links[e].inHigh ==> st.links[e].charge <= st.highUsage
    ensures !st.links[e].inHigh && st.links[e].inLow ==> st.links[e].charge <= st.lowUsage
    ensures IsList(Removed(st, e, l), r)
  {
    assert ChargesOf(st.links)[e] == st.links[e].charge;
    RemovedTotals(ChargesOf(st.links), ls, k, r, st.links[e].charge, st.lruUsage, st.lowUsage, st.highUsage);
    assert HEAD !in ls.order && Distinct(ls.order) by { assert Open(0); }
    NextOf(st.links, ls.order, k);
    CutDrop(ls, k, e, st.bottomPri, st.lowPri, st.links[e].prev);
  }

  method LRURemove(st: ListState, ghost ls: Lists, e: Ptr) returns (st': ListState)
    requires IsList(st, ls) && e in ls.order
    ensures IsList(st', Dropped(ls, e))
    ensures ChargesOf(st'.links) == ChargesOf(st.links) && SameLimits(st, st') && st'.links.Keys == st.links.Keys
  {
    ghost var k := IndexOf(ls.order, e);
    RemovedLinks(st.links, ls.order, k, e);
    var node, l := st.links[e], Unlink(st.links, e);
    RemovedFlags(st.links, ls, k, e, l, DroppedAt(ls, k));
    RemoveOk(st, ls, k, e, l, DroppedAt(ls, k));
    st' := st;
    if st'.lowPri == e {
      st' := st'.(lowPri := node.prev);
    }
    if st'.bottomPri == e {
      st' := st'.(bottomPri := node.prev);
    }
    st' := st'.(links := l, lruUsage := st.lruUsage - node.charge);
    if node.inHigh {
      st' := st'.(highUsage := st.highUsage - node.charge);
    } else if node.inLow {
      st' := st'.(lowUsage := st.lowUsage - node.charge);
    }
    assert st' == Removed(st, e, l);
  }

  /* ---------- inserting an entry ---------- */

  lemma GrownLinks(links: map<Ptr, Node>, order: seq<Ptr>, k: nat, e: Ptr, at: Ptr, order': seq<Ptr>)
    requires Linked(links, order) && k <= |order| && e in links && e != HEAD && e !in order
    requires at == At(order, k) && order' == order[..k] + [e] + order[k..]
    ensures at in links && links[at].next in links && Linked(LinkAfter(links, e, at), order')
  {
    assert Open(0);
    LinkKeepsRing(links, order, k, e, at, order');
  }

  lemma SetFlagsKeeps(links: map<Ptr, Node>, order: seq<Ptr>, e: Ptr, pool: Pool)
    requires Linked(links, order) && e in links
    ensures var l := links[e := links[e].(inHigh := pool.HighPool?, inLow := pool.LowPool?)];
            Linked(l, order) && ChargesOf(l) == ChargesOf(links)
  {
    assert Open(0);
    FlagsKeepRing(links, links[e := links[e].(inHigh := pool.HighPool?, inLow := pool.LowPool?)], order);
  }

  lemma GrownFlags(links: map<Ptr, Node>, ls: Lists, e: Ptr, pool: Pool, l: map<Ptr, Node>, r: Lists)
    requires Flagged(links, ls.order, ls.nb, ls.nl) && ls.Ok() && e !in ls.order && r == Grown(ls, e, pool)
    requires l.Keys == links.Keys && e in l && l[e].inHigh == pool.HighPool? && l[e].inLow == pool.LowPool?
    requires forall p :: p in links && p != e ==> l[p].inLow == links[p].inLow && l[p].inHigh == links[p].inHigh
    ensures Flagged(l, r.order, r.nb, r.nl)
  {
    assert Open(0);
    var k := Spot(ls, pool);
    forall i | 0 <= i < |r.order| && i != k
      ensures l[r.order[i]].inLow == (r.nb <= i < r.nb + r.nl) && l[r.order[i]].inHigh == (r.nb + r.nl <= i)
    {
      var j := if i < k then i else i - 1;
      assert r.order[i] == ls.order[j];
      assert links[ls.order[j]].inLow == (ls.nb <= j < ls.nb + ls.nl);
    }
    assert r.order[k] == e;
  }

  lemma TotalsGrowHigh(charge: map<Ptr, nat>, order: seq<Ptr>, nb: nat, nl: nat, e: Ptr, s: seq<Ptr>, lru: nat, low: nat, high: nat)
    requires Sums(charge, order, nb, nl, lru, low, high) && s == order + [e]
    ensures Sums(charge, s, nb, nl, lru + Of(charge, e), low, high + Of(charge, e))
  {
    var hi, n := nb + nl, |order|;
    SumConcat(charge, order, [e]);
    assert s[nb..hi] == order[nb..hi];
    assert s[hi..] == order[hi..] + [e];
    SumConcat(charge, order[hi..], [e]);
  }

  lemma TotalsGrowLow(charge: map<Ptr, nat>, order: seq<Ptr>, nb: nat, nl: nat, nl': nat, e: Ptr, s: seq<Ptr>, lru: nat, low: nat, high: nat)
    requires Sums(charge, order, nb, nl, lru, low, high)
    requires nl' == nl + 1 && s == order[..nb + nl] + [e] + order[nb + nl..]
    ensures Sums(charge, s, nb, nl', lru + Of(charge, e), low + Of(charge, e), high)
  {
    var hi := nb + nl;
    assert Without(s, hi) == order && s[hi] == e;
    SumWithout(charge, s, hi);
    assert s[nb..nb + nl'] == order[nb..hi] + [e];
    SumConcat(charge, order[nb..hi], [e]);
    assert s[nb + nl'..] == order[hi..];
  }

  lemma TotalsGrowBottom(charge: map<Ptr, nat>, order: seq<Ptr>, nb: nat, nl: nat, nb': nat, e: Ptr, s: seq<Ptr>, lru: nat, low: nat, high: nat)
    requires Sums(charge, order, nb, nl, lru, low, high)
    requires nb' == nb + 1 && s == order[..nb] + [e] + order[nb..]
    ensures Sums(charge, s, nb', nl, lru + Of(charge, e), low, high)
  {
    assert Without(s, nb) == order && s[nb] == e;
    SumWithout(charge, s, nb);
    assert s[nb'..nb' + nl] == order[nb..nb + nl];
    assert s[nb' + nl..] == order[nb + nl..];
  }

  lemma GrownTotals(charge: map<Ptr, nat>, ls: Lists, e: Ptr, pool: Pool, r: Lists, lru: nat, low: nat, high: nat)
    requires Totals(charge, ls, lru, low, high) && ls.Ok() && r == Grown(ls, e, pool)
    ensures var c := Of(charge, e);
            Totals(charge, r, lru + c, if pool.LowPool? then low + c else low, if pool.HighPool? then high + c else high)
  {
    assert Open(0);
    match pool
    case HighPool =>
      assert r.order == ls.order + [e];
      TotalsGrowHigh(charge, ls.order, ls.nb, ls.nl, e, r.order, lru, low, high);
    case LowPool =>
      TotalsGrowLow(charge, ls.order, ls.nb, ls.nl, r.nl, e, r.order, lru, low, high);
    case BottomPool =>
      TotalsGrowBottom(charge, ls.order, ls.nb, ls.nl, r.nb, e, r.order, lru, low, high);
  }

  /** The list fields with `e` as the newest entry of a segment, and `l` the new links. */
  function Entered(st: ListState, e: Ptr, pool: Pool, l: map<Ptr, Node>): ListState
    requires e in st.links
  {
    var c := st.links[e].charge;
    st.(links := l,
        lruUsage := st.lruUsage + c,
        highUsage := if pool.HighPool? then st.highUsage + c else st.highUsage,
        lowUsage := if pool.LowPool? then st.lowUsage + c else st.lowUsage,
        lowPri := if pool.LowPool? || (pool.BottomPool? && st.bottomPri == st.lowPri) then e else st.lowPri,
        bottomPri := if pool.BottomPool? then e else st.bottomPri)
  }

  lemma LastIs(links: map<Ptr, Node>, order: seq<Ptr>)
    requires Linked(links, order)
    ensures HEAD in links && links[HEAD].prev == At(order, |order|)
  {
    assert Open(0);
    var r := Ring(order);
    assert r[|r| - 1] in r && links[r[|r| - 1]].prev == r[|r| - 2];
  }

  lemma NextIn(links: map<Ptr, Node>, order: seq<Ptr>, i: nat, at: Ptr)
    requires Linked(links, order) && i <= |order| && at == At(order, i)
    ensures at in links && links[at].next in links
  {
    NextOf(links, order, i);
  }

  lemma EndsAre(st: ListState, ls: Lists)
    requires IsList(st, ls)
    ensures HEAD in st.links && st.links[HEAD].prev == At(ls.order, |ls.order|)
    ensures st.lowPri == At(ls.order, ls.nb + ls.nl) && st.bottomPri == At(ls.order, ls.nb)
    ensures st.links[HEAD].prev in st.links && st.links[st.links[HEAD].prev].next in st.links
    ensures st.lowPri in st.links && st.links[st.lowPri].next in st.links
    ensures st.bottomPri in st.links && st.links[st.bottomPri].next in st.links
  {
    LastIs(st.links, ls.order);
    NextIn(st.links, ls.order, ls.nb, st.bottomPri);
    NextIn(st.links, ls.order, ls.nb + ls.nl, st.lowPri);
    NextIn(st.links, ls.order, |ls.order|, st.links[HEAD].prev);
  }

  lemma EmptyLowIff(ls: Lists, bottomPri: Ptr, lowPri: Ptr)
    requires Cut(ls.order, ls.nb, ls.nl, bottomPri, lowPri) && Distinct(ls.order) && HEAD !in ls.order
    ensures bottomPri == lowPri <==> ls.nl == 0
  {
    DistinctIff(ls.order);
  }

  lemma EnteredCut(ls: Lists, e: Ptr, pool: Pool, r: Lists, bottomPri: Ptr, lowPri: Ptr)
    requires Cut(ls.order, ls.nb, ls.nl, bottomPri, lowPri) && Distinct(ls.order) && HEAD !in ls.order
    requires r == Grown(ls, e, pool)
    ensures Cut(r.order, r.nb, r.nl, if pool.BottomPool? then e else bottomPri,
                if pool.LowPool? || (pool.BottomPool? && bottomPri == lowPri) then e else lowPri)
  {
    EmptyLowIff(ls, bottomPri, lowPri);
  }

  /** Links `e` behind `at` and notes its segment. */
  method Join(links: map<Ptr, Node>, ghost ls: Lists, e: Ptr, at: Ptr, pool: Pool, ghost r: Lists) returns (l: map<Ptr, Node>)
    requires Linked(links, ls.order) && Flagged(links, ls.order, ls.nb, ls.nl)
    requires ls.Ok() && e in links && e != HEAD && e !in ls.order && r == Grown(ls, e, pool)
    requires at == At(ls.order, Spot(ls, pool)) && at in links && links[at].next in links
    ensures Linked(l, r.order) && Flagged(l, r.order, r.nb, r.nl) && ChargesOf(l) == ChargesOf(links) && l.Keys == links.Keys
  {
    GrownLinks(links, ls.order, Spot(ls, pool), e, at, r.order);
    l := LinkAfter(links, e, at);
    LinkAfterFields(links, e, at, l);
    SetFlagsKeeps(l, r.order, e, pool);
    l := l[e := l[e].(inHigh := pool.HighPool?, inLow := pool.LowPool?)];
    GrownFlags(links, ls, e, pool, l, r);
  }

  lemma EnteredTotals(st: ListState, ls: Lists, e: Ptr, pool: Pool, r: Lists, st': ListState)
    requires Totals(ChargesOf(st.links), ls, st.lruUsage, st.lowUsage, st.highUsage) && ls.Ok()
    requires e in st.links && e != HEAD && r == Grown(ls, e, pool) && st' == Entered(st, e, pool, st'.links)
    ensures Totals(ChargesOf(st.links), r, st'.lruUsage, st'.lowUsage, st'.highUsage)
  {
    var charges := ChargesOf(st.links);
    assert charges[e] == st.links[e].charge;
    GrownTotals(charges, ls, e, pool, r, st.lruUsage, st.lowUsage, st.highUsage);
  }

  lemma EnteredOk(st: ListState, ls: Lists, e: Ptr, pool: Pool, r: Lists, st': ListState)
    requires IsList(st, ls) && e in st.links && e != HEAD && r == Grown(ls, e, pool) && ChargesOf(st'.links) == ChargesOf(st.links)
    requires Linked(st'.links, r.order) && Flagged(st'.links, r.order, r.nb, r.nl)
    requires st' == Entered(st, e, pool, st'.links)
    ensures IsList(st', r)
  {
    EnteredTotals(st, ls, e, pool, r, st');
    assert Distinct(ls.order) && HEAD !in ls.order by { assert Open(0); }
    EnteredCut(ls, e, pool, r, st.bottomPri, st.lowPri);
  }

  /** Puts `e` at the newest end of a segment. `lruUsage` is brought up to date here, not after the
      segments have been trimmed: trimming neither reads nor changes it. */
  method Enter(st: ListState, ghost ls: Lists, e: Ptr, pool: Pool) returns (st': ListState)
    requires IsList(st, ls) && e in st.links && e != HEAD && e !in ls.order
    ensures IsList(st', Grown(ls, e, pool))
    ensures ChargesOf(st'.links) == ChargesOf(st.links) && SameLimits(st, st') && st'.links.Keys == st.links.Keys
  {
    ghost var r := Grown(ls, e, pool);
    EndsAre(st, ls);
    var c := st.links[e].charge;
    var at := match pool case HighPool => st.links[HEAD].prev case LowPool => st.lowPri case BottomPool => st.bottomPri;
    var l := Join(st.links, ls, e, at, pool, r);
    st' := st.(links := l, lruUsage := st.lruUsage + c);
    match pool {
      case HighPool =>
        st' := st'.(highUsage := st.highUsage + c);
      case LowPool =>
        st' := st'.(lowUsage := st.lowUsage + c, lowPri := e);
      case BottomPool =>
        if st.bottomPri == st.lowPri {
          st' := st'.(lowPri := e);
        }
        st' := st'.(bottomPri := e);
    }
    EnteredOk(st, ls, e, pool, r, st');
  }

  /** The entry becomes the newest of the best segment it may enter; segments that overflow spill. */
  method LRUInsert(st: ListState, ghost ls: Lists, e: Ptr, want: Want) returns (st': ListState)
    requires IsList(st, ls) && e in st.links && e != HEAD && e !in ls.order
    ensures IsList(st', Inserted(ls, ChargesOf(st.links), e, Target(want, st.highRatio, st.lowRatio), st.highCap, st.lowCap))
    ensures ChargesOf(st'.links) == ChargesOf(st.links) && SameLimits(st, st')
  {
    var pool := BottomPool;
    if st.highRatio > 0.0 && want.WantHigh? {
      pool := HighPool;
    } else if st.lowRatio > 0.0 && (want.WantHigh? || want.WantLow?) {
      pool := LowPool;
    }
    st' := Enter(st, ls, e, pool);
    if pool != BottomPool {
      st' := MaintainPoolSize(st', Grown(ls, e, pool));
    }
  }

  /* ---------- nodes that are not in the list ---------- */

  lemma AddedNodeCircle(links: map<Ptr, Node>, order: seq<Ptr>, e: Ptr, charge: nat, l: map<Ptr, Node>)
    requires Circle(links, order) && e !in links && e != NULL && l == links[e := Node(NULL, NULL, false, false, charge)]
    ensures Circle(l, order)
  {
    var r := Ring(order);
    forall i | 0 <= i < |r| - 1 ensures l[r[i]].next == r[i + 1] {
      assert r[i] in r && links[r[i]].next == r[i + 1];
    }
    forall i | 0 < i < |r| ensures l[r[i]].prev == r[i - 1] {
      assert r[i] in r && links[r[i]].prev == r[i - 1];
    }
  }

  lemma AddedNodeTotals(charge: map<Ptr, nat>, charge': map<Ptr, nat>, ls: Lists, lru: nat, low: nat, high: nat)
    requires Totals(charge, ls, lru, low, high) && forall p :: p in ls.order ==> Of(charge, p) == Of(charge', p)
    ensures Totals(charge', ls, lru, low, high)
  {
    assert Open(0);
    SumAgree(charge, charge', ls.order);
    SumAgree(charge, charge', ls.order[ls.nb..ls.nb + ls.nl]);
    SumAgree(charge, charge', ls.order[ls.nb + ls.nl..]);
  }

  lemma OrderIn(links: map<Ptr, Node>, order: seq<Ptr>)
    requires Linked(links, order)
    ensures HEAD in links && NULL !in links && forall p :: p in order ==> p in links && p != HEAD
  {
    assert Open(0);
    var r := Ring(order);
    assert r[0] in r;
    forall p | p in order ensures p in links {
      assert p in r;
    }
  }

  /** A handle just allocated is in no list. */
  lemma AddNode(st: ListState, ls: Lists, e: Ptr, charge: nat, st': ListState)
    requires IsList(st, ls) && e !in st.links && e != NULL
    requires st' == st.(links := st.links[e := Node(NULL, NULL, false, false, charge)])
    ensures IsList(st', ls) && e != HEAD && e !in ls.order && ChargesOf(st'.links) == ChargesOf(st.links)[e := charge]
  {
    OrderIn(st.links, ls.order);
    assert Linked(st'.links, ls.order) && Flagged(st'.links, ls.order, ls.nb, ls.nl) by {
      assert Open(0);
      AddedNodeCircle(st.links, ls.order, e, charge, st'.links);
    }
    AddedNodeTotals(ChargesOf(st.links), ChargesOf(st'.links), ls, st.lruUsage, st.lowUsage, st.highUsage);
  }

  lemma FreedNodeCircle(links: map<Ptr, Node>, order: seq<Ptr>, e: Ptr, l: map<Ptr, Node>)
    requires Circle(links, order) && e != HEAD && e !in order && l == links - {e}
    ensures Circle(l, order)
  {
    var r := Ring(order);
    forall i | 0 <= i < |r| - 1 ensures l[r[i]].next == r[i + 1] {
      assert r[i] in r && links[r[i]].next == r[i + 1];
    }
    forall i | 0 < i < |r| ensures l[r[i]].prev == r[i - 1] {
      assert r[i] in r && links[r[i]].prev == r[i - 1];
    }
  }

  /** A handle that is in no list can be freed. */
  lemma FreeNode(st: ListState, ls: Lists, e: Ptr, st': ListState)
    requires IsList(st, ls) && e != HEAD && e !in ls.order
    requires st' == st.(links := st.links - {e})
    ensures IsList(st', ls) && ChargesOf(st'.links) == ChargesOf(st.links) - {e}
  {
    OrderIn(st.links, ls.order);
    assert Linked(st'.links, ls.order) && Flagged(st'.links, ls.order, ls.nb, ls.nl) by {
      assert Open(0);
      FreedNodeCircle(st.links, ls.order, e, st'.links);
    }
    AddedNodeTotals(ChargesOf(st.links), ChargesOf(st'.links), ls, st.lruUsage, st.lowUsage, st.highUsage);
  }
}
