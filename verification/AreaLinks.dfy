/** The heap of links between entities and areas. A link is on the list of its area and on the list of its entity,
    or it is free. Links are named by their numbers on the heap; NIL stands for no link. */
module AreaLinks {
  import opened Counting
  import opened Positions

  const NIL: int := -1

  datatype Link = Link(entnum: int, areanum: nat, next_ent: int, prev_ent: int, next_area: int, prev_area: int)

  /** links, freelinks, arealinkedentities and numaaslinks are the heap's; free lists the free links,
      ofarea[a] the links of area a, and ofentity[e + 1] those of entity e (-1: a box without entity). */
  datatype Heap = Heap(
    links: seq<Link>, freelinks: int, arealinkedentities: seq<int>, numaaslinks: nat,
    free: seq<nat>, ofarea: seq<seq<nat>>, ofentity: seq<seq<nat>>)

  ghost function Entry(list: seq<nat>, i: int): int {
    if 0 <= i < |list| then list[i] else NIL
  }

  ghost predicate IsEntity(h: Heap, e: int) { -1 <= e && e + 1 < |h.ofentity| }

  /** The free links hang together by next_ent, and are counted. */
  ghost predicate FreeOk(h: Heap) {
    && h.freelinks == Entry(h.free, 0) && h.numaaslinks == |h.free| && Distinct(h.free)
    && forall i | 0 <= i < |h.free| :: h.free[i] < |h.links| && h.links[h.free[i]].next_ent == Entry(h.free, i + 1)
  }

  /** Link i of the list of area a. */
  ghost predicate OnArea(h: Heap, a: nat, i: nat)
    requires a < |h.ofarea| && i < |h.ofarea[a]|
  {
    var x := h.ofarea[a][i];
    x < |h.links| && h.links[x].areanum == a
    && h.links[x].next_ent == Entry(h.ofarea[a], i + 1) && h.links[x].prev_ent == Entry(h.ofarea[a], i - 1)
  }

  ghost predicate AreaOk(h: Heap, a: nat)
    requires a < |h.ofarea| == |h.arealinkedentities|
  {
    && h.arealinkedentities[a] == Entry(h.ofarea[a], 0) && Distinct(h.ofarea[a])
    && forall i | 0 <= i < |h.ofarea[a]| :: OnArea(h, a, i)
  }

  /** Link i of the list of entity e. */
  ghost predicate OnEntity(h: Heap, e: int, i: nat)
    requires IsEntity(h, e) && i < |h.ofentity[e + 1]|
  {
    var x := h.ofentity[e + 1][i];
    x < |h.links| && h.links[x].entnum == e && h.links[x].next_area == Entry(h.ofentity[e + 1], i + 1)
  }

  ghost predicate EntityOk(h: Heap, e: int)
    requires IsEntity(h, e)
  {
    Distinct(h.ofentity[e + 1]) && forall i | 0 <= i < |h.ofentity[e + 1]| :: OnEntity(h, e, i)
  }

  /** The list of entity e can be followed backwards too. */
  ghost predicate BackOk(h: Heap, e: int)
    requires IsEntity(h, e)
  {
    forall i: nat | i < |h.ofentity[e + 1]| :: BackAt(h, e, i)
  }

  ghost predicate BackAt(h: Heap, e: int, i: nat)
    requires IsEntity(h, e) && i < |h.ofentity[e + 1]|
  {
    var x := h.ofentity[e + 1][i];
    x < |h.links| && h.links[x].prev_area == Entry(h.ofentity[e + 1], i - 1)
  }

  /** A link is free, or on the list of its area and on that of its entity; lists hold nothing else. */
  ghost predicate PlaceOk(h: Heap, x: nat)
    requires x < |h.links|
  {
    var l := h.links[x];
    && (x !in h.free ==>
      l.areanum < |h.ofarea| && x in h.ofarea[l.areanum] && IsEntity(h, l.entnum) && x in h.ofentity[l.entnum + 1])
    && (x in h.free ==> (forall a | 0 <= a < |h.ofarea| :: x !in h.ofarea[a]))
    && (x in h.free ==> (forall e | 0 <= e < |h.ofentity| :: x !in h.ofentity[e]))
  }

  /** An entity has at most one link to an area. */
  ghost predicate OnceOk(h: Heap) {
    forall e: nat, i: nat, j: nat | e < |h.ofentity| && i < j < |h.ofentity[e]| :: OnceAt(h, e, i, j)
  }

  ghost predicate OnceAt(h: Heap, e: nat, i: nat, j: nat)
    requires e < |h.ofentity| && i < |h.ofentity[e]| && j < |h.ofentity[e]|
  {
    var x, y := h.ofentity[e][i], h.ofentity[e][j];
    x < |h.links| && y < |h.links| && h.links[x].areanum != h.links[y].areanum
  }

  /** All is well, but the list of entity e may not be followed backwards. */
  ghost predicate ValidBut(h: Heap, e: int) {
    && FreeOk(h) && |h.ofarea| == |h.arealinkedentities|
    && (forall a | 0 <= a < |h.ofarea| :: AreaOk(h, a))
    && (forall d | IsEntity(h, d) :: EntityOk(h, d)) && (forall d | IsEntity(h, d) && d != e :: BackOk(h, d))
    && (forall x | 0 <= x < |h.links| :: PlaceOk(h, x)) && OnceOk(h)
  }

  ghost predicate Valid(h: Heap) {
    ValidBut(h, -2)
  }

  /** Links in use and free links make up the heap. */
  lemma Conserved(h: Heap, used: set<nat>)
    requires Valid(h) && used == (set x: nat | x < |h.links| && x !in h.free)
    ensures |used| + h.numaaslinks == |h.links|
    ensures forall x | x in used :: h.links[x].areanum < |h.ofarea| && x in h.ofarea[h.links[x].areanum]
    ensures forall x | x in used :: IsEntity(h, h.links[x].entnum) && x in h.ofentity[h.links[x].entnum + 1]
  {
    hide FreeOk, OnceOk, AreaOk, EntityOk, BackOk;
    assert Distinct(h.free) && |h.free| == h.numaaslinks
      && (forall x: nat | x in h.free :: x < |h.links|) by { FreeSize(h); }
    CountRest(h.free, |h.links|, used);
    forall x | x in used ensures PlaceOk(h, x) {
    }
  }

  lemma FreeSize(h: Heap)
    requires FreeOk(h)
    ensures Distinct(h.free) && |h.free| == h.numaaslinks && forall x: nat | x in h.free :: x < |h.links|
  {
  }

  lemma CountRest(free: seq<nat>, n: nat, used: set<nat>)
    requires Distinct(free) && (forall x: nat | x in free :: x < n) && used == set x: nat | x < n && x !in free
    ensures |used| + |free| == n
  {
    var all := Elements<nat>(free);
    DistinctSize<nat>(free);
    forall x: nat ensures x in all <==> x in free {
      if x in all {
        var i :| 0 <= i < |free| && free[i] == x;
      }
    }
    assert used == Range(n) - all;
    assert Range(n) * all == all;
  }

  // ----- linking

  /** The first free link x becomes the first of entity e and of area a. */
  ghost function Linked(h: Heap, e: int, a: nat): Heap
    requires |h.free| > 0 && h.free[0] < |h.links| && a < |h.ofarea| == |h.arealinkedentities| && IsEntity(h, e)
  {
    var x := h.free[0];
    var head, first := h.arealinkedentities[a], Entry(h.ofentity[e + 1], 0);
    var l0 := if |h.free| > 1 && h.free[1] < |h.links| then h.links[h.free[1] := h.links[h.free[1]].(prev_ent := NIL)]
      else h.links;
    var l1 := l0[x := Link(e, a, head, NIL, first, NIL)];
    var l2 := if 0 <= first < |l1| then l1[first := l1[first].(prev_area := x)] else l1;
    var l3 := if 0 <= head < |l2| then l2[head := l2[head].(prev_ent := x)] else l2;
    h.(links := l3, freelinks := Entry(h.free, 1), arealinkedentities := h.arealinkedentities[a := x],
      numaaslinks := |h.free| - 1,
       free := h.free[1..], ofarea := h.ofarea[a := [x] + h.ofarea[a]],
       ofentity := h.ofentity[e + 1 := [x] + h.ofentity[e + 1]])
  }

  /** What linking changes of the links. */
  lemma LinkedLinks(h: Heap, e: int, a: nat, y: nat)
    requires Valid(h) && |h.free| > 0 && a < |h.ofarea| && IsEntity(h, e) && y < |h.links|
    ensures h.free[0] < |h.links| && |Linked(h, e, a).links| == |h.links|
    ensures var x, g := h.free[0], Linked(h, e, a);
      && (y == x ==> g.links[y] == Link(e, a, Entry(h.ofarea[a], 0), NIL, Entry(h.ofentity[e + 1], 0), NIL))
      && (y != x ==> g.links[y] == h.links[y].(prev_ent := g.links[y].prev_ent, prev_area :=
            if h.ofentity[e + 1] != [] && y == h.ofentity[e + 1][0] then x else h.links[y].prev_area))
      && (y != x && y !in h.free ==>
            g.links[y].prev_ent == if h.ofarea[a] != [] && y == h.ofarea[a][0] then x else h.links[y].prev_ent)
  {
    hide FreeOk, OnceOk;
    var x := h.free[0];
    assert x in h.free && x < |h.links| by { FreeIs(h); }
    assert PlaceOk(h, x);
    assert AreaOk(h, a) && EntityOk(h, e);
    if h.ofarea[a] != [] {
      assert OnArea(h, a, 0);
    }
    if h.ofentity[e + 1] != [] {
      assert OnEntity(h, e, 0);
    }
  }

  lemma FreeIs(h: Heap)
    requires FreeOk(h) && |h.free| > 0
    ensures h.free[0] < |h.links| && h.free[0] in h.free && h.freelinks == h.free[0]
    ensures forall i | 0 <= i < |h.free| :: h.free[i] < |h.links|
  {
  }

  lemma LinkedFree(h: Heap, e: int, a: nat)
    requires Valid(h) && |h.free| > 0 && a < |h.ofarea| && IsEntity(h, e)
    ensures h.free[0] < |h.links| && FreeOk(Linked(h, e, a))
  {
    hide OnceOk, AreaOk, EntityOk, PlaceOk;
    FreeIs(h);
    var g := Linked(h, e, a);
    forall i | 0 <= i < |g.free| ensures g.free[i] < |g.links| && g.links[g.free[i]].next_ent == Entry(g.free, i + 1) {
      assert g.free[i] == h.free[i + 1];
      LinkedLinks(h, e, a, g.free[i]);
    }
  }

  lemma LinkedArea(h: Heap, e: int, a: nat, b: nat)
    requires Valid(h) && |h.free| > 0 && a < |h.ofarea| && IsEntity(h, e) && b < |h.ofarea|
    ensures h.free[0] < |h.links| && AreaOk(Linked(h, e, a), b)
  {
    hide OnceOk, EntityOk, FreeOk;
    FreeIs(h);
    var x, g := h.free[0], Linked(h, e, a);
    assert PlaceOk(h, x) && AreaOk(h, a) && AreaOk(h, b);
    LinkedLinks(h, e, a, x);
    forall i: nat | i < |g.ofarea[b]| ensures OnArea(g, b, i) {
      var y := g.ofarea[b][i];
      if y != x {
        var j := if a == b then i - 1 else i;
        assert h.ofarea[b][j] == y && OnArea(h, b, j) && PlaceOk(h, y);
        LinkedLinks(h, e, a, y);
        if h.ofarea[a] != [] && y == h.ofarea[a][0] {
          assert OnArea(h, a, 0);
        }
      }
    }
  }

  lemma LinkedEntity(h: Heap, e: int, a: nat, d: int)
    requires Valid(h) && |h.free| > 0 && a < |h.ofarea| && IsEntity(h, e) && IsEntity(h, d)
    ensures h.free[0] < |h.links| && EntityOk(Linked(h, e, a), d) && BackOk(Linked(h, e, a), d)
  {
    hide OnceOk, AreaOk, FreeOk;
    FreeIs(h);
    var x, g := h.free[0], Linked(h, e, a);
    assert PlaceOk(h, x) && EntityOk(h, e) && EntityOk(h, d) && BackOk(h, d);
    LinkedLinks(h, e, a, x);
    forall i: nat | i < |g.ofentity[d + 1]|
      ensures OnEntity(g, d, i) && BackAt(g, d, i)
    {
      var y := g.ofentity[d + 1][i];
      if y != x {
        var j := if d == e then i - 1 else i;
        assert h.ofentity[d + 1][j] == y && OnEntity(h, d, j) && BackAt(h, d, j);
        LinkedLinks(h, e, a, y);
        if h.ofentity[e + 1] != [] && y == h.ofentity[e + 1][0] {
          assert OnEntity(h, e, 0);
        }
      }
    }
  }

  lemma LinkedPlace(h: Heap, e: int, a: nat, y: nat)
    requires Valid(h) && |h.free| > 0 && a < |h.ofarea| && IsEntity(h, e) && y < |h.links|
    ensures h.free[0] < |h.links| && y < |Linked(h, e, a).links| && PlaceOk(Linked(h, e, a), y)
  {
    hide OnceOk, AreaOk, EntityOk, FreeOk, BackOk, Linked;
    FreeIs(h);
    var x, g := h.free[0], Linked(h, e, a);
    LinkedLinks(h, e, a, y);
    LinkedMembers(h, e, a, y);
    assert PlaceOk(h, y) && PlaceOk(h, x);
  }

  lemma LinkedMembers(h: Heap, e: int, a: nat, y: nat)
    requires FreeOk(h) && |h.free| > 0 && a < |h.ofarea| == |h.arealinkedentities| && IsEntity(h, e)
    ensures h.free[0] < |h.links|
    ensures var x, g := h.free[0], Linked(h, e, a);
      && (y in g.free <==> y in h.free && y != x)
      && |g.ofarea| == |h.ofarea| && |g.ofentity| == |h.ofentity|
      && (forall b: nat | b < |h.ofarea| :: y in g.ofarea[b] <==> y in h.ofarea[b] || (b == a && y == x))
      && (forall d: nat | d < |h.ofentity| :: y in g.ofentity[d] <==> y in h.ofentity[d] || (d == e + 1 && y == x))
  {
    FreeIs(h);
    var x, g := h.free[0], Linked(h, e, a);
    assert h.free == [x] + g.free;
    assert x !in g.free;
    assert g.ofarea[a] == [x] + h.ofarea[a] && g.ofentity[e + 1] == [x] + h.ofentity[e + 1];
  }

  /** Entity e has no link to area a. */
  ghost predicate NotIn(h: Heap, e: int, a: nat)
    requires IsEntity(h, e)
  {
    NoneOf(h, h.ofentity[e + 1], a)
  }

  ghost predicate NoneOf(h: Heap, list: seq<nat>, a: nat) {
    forall i | 0 <= i < |list| :: list[i] < |h.links| && h.links[list[i]].areanum != a
  }

  lemma LinkedOnce(h: Heap, e: int, a: nat)
    requires Valid(h) && |h.free| > 0 && a < |h.ofarea| && IsEntity(h, e) && NotIn(h, e, a)
    ensures h.free[0] < |h.links| && OnceOk(Linked(h, e, a))
  {
    hide AreaOk, FreeOk, EntityOk;
    FreeIs(h);
    var x, g := h.free[0], Linked(h, e, a);
    LinkedLinks(h, e, a, x);
    assert PlaceOk(h, x);
    forall d: nat, i: nat, j: nat | d < |g.ofentity| && i < j < |g.ofentity[d]| ensures OnceAt(g, d, i, j) {
      OneMoreOnce(h, e, a, d, i, j);
    }
  }

  lemma OneMoreOnce(h: Heap, e: int, a: nat, d: nat, i: nat, j: nat)
    requires Valid(h) && |h.free| > 0 && a < |h.ofarea| && IsEntity(h, e) && NotIn(h, e, a) && h.free[0] < |h.links|
    requires d < |h.ofentity| && i < j < |Linked(h, e, a).ofentity[d]|
    ensures OnceAt(Linked(h, e, a), d, i, j)
  {
    hide AreaOk, FreeOk;
    var x, g := h.free[0], Linked(h, e, a);
    assert x in h.free && PlaceOk(h, x) by { FreeIs(h); }
    LinkedLinks(h, e, a, x);
    assert EntityOk(h, d - 1);
    assert i >= (if d == e + 1 then 1 else 0) ==>
      OnceAt(h, d, i - (if d == e + 1 then 1 else 0), j - (if d == e + 1 then 1 else 0));
    var k := if d == e + 1 then 1 else 0;
    assert OnEntity(h, d - 1, j - k);
    assert g.ofentity[d][j] == h.ofentity[d][j - k];
    LinkedLinks(h, e, a, g.ofentity[d][j]);
    if i >= k {
      assert OnEntity(h, d - 1, i - k);
      assert g.ofentity[d][i] == h.ofentity[d][i - k];
      LinkedLinks(h, e, a, g.ofentity[d][i]);
    }
  }

  lemma LinkedValid(h: Heap, e: int, a: nat)
    requires Valid(h) && |h.free| > 0 && a < |h.ofarea| && IsEntity(h, e) && NotIn(h, e, a)
    ensures h.free[0] < |h.links| && Valid(Linked(h, e, a))
  {
    hide FreeOk, AreaOk, EntityOk, BackOk, PlaceOk, OnceOk, NotIn;
    LinkedFree(h, e, a);
    LinkedOnce(h, e, a);
    var g := Linked(h, e, a);
    forall b: nat | b < |g.ofarea| ensures AreaOk(g, b) {
      LinkedArea(h, e, a, b);
    }
    forall d | IsEntity(g, d) ensures EntityOk(g, d) && BackOk(g, d) {
      LinkedEntity(h, e, a, d);
    }
    forall y: nat | y < |g.links| ensures PlaceOk(g, y) {
      LinkedPlace(h, e, a, y);
    }
  }

  // ----- unlinking

  /** The first link of entity e leaves its area, and becomes the first free link. */
  ghost function Unlinked(h: Heap, e: int): Heap
    requires ValidBut(h, e) && IsEntity(h, e) && h.ofentity[e + 1] != []
  {
    var x := h.ofentity[e + 1][0];
    FirstOf(h, e);
    var a, p, n := h.links[x].areanum, h.links[x].prev_ent, h.links[x].next_ent;
    var l1 := if 0 <= p < |h.links| then h.links[p := h.links[p].(next_ent := n)] else h.links;
    var l2 := if 0 <= n < |l1| then l1[n := l1[n].(prev_ent := p)] else l1;
    var l3 := if 0 <= h.freelinks < |l2| then l2[h.freelinks := l2[h.freelinks].(prev_ent := x)] else l2;
    var l4 := l3[x := l3[x].(prev_ent := NIL, next_ent := h.freelinks, prev_area := NIL, next_area := NIL)];
    h.(links := l4, freelinks := x, numaaslinks := h.numaaslinks + 1, free := [x] + h.free,
       arealinkedentities := if p == NIL then h.arealinkedentities[a := n] else h.arealinkedentities,
       ofarea := h.ofarea[a := Without<nat>(h.ofarea[a], x)], ofentity := h.ofentity[e + 1 := h.ofentity[e + 1][1..]])
  }

  /** The first link of an entity: where it is on the list of its area. */
  lemma FirstOf(h: Heap, e: int)
    requires ValidBut(h, e) && IsEntity(h, e) && h.ofentity[e + 1] != []
    ensures var x := h.ofentity[e + 1][0];
      && x < |h.links| && x !in h.free && h.links[x].entnum == e
      && var a := h.links[x].areanum;
      && a < |h.ofarea| == |h.arealinkedentities| && x in h.ofarea[a]
      && var i := At<nat>(h.ofarea[a], x);
      && h.links[x].prev_ent == Entry(h.ofarea[a], i - 1) && h.links[x].next_ent == Entry(h.ofarea[a], i + 1)
      && h.links[x].next_area == Entry(h.ofentity[e + 1], 1)
  {
    hide FreeOk, OnceOk, BackOk;
    var x := h.ofentity[e + 1][0];
    assert x in h.ofentity[e + 1];
    assert EntityOk(h, e) && OnEntity(h, e, 0) && PlaceOk(h, x);
    var a := h.links[x].areanum;
    assert AreaOk(h, a) && OnArea(h, a, At<nat>(h.ofarea[a], x));
  }

  /** Neighbours of the link on the list of its area are links of that area. */
  lemma NeighbourOf(h: Heap, a: nat, i: int)
    requires |h.ofarea| == |h.arealinkedentities| && a < |h.ofarea| && AreaOk(h, a)
    ensures Entry(h.ofarea[a], i)
      == NIL || (0 <= Entry(h.ofarea[a], i) < |h.links| && Entry(h.ofarea[a], i) in h.ofarea[a])
  {
    if 0 <= i < |h.ofarea[a]| {
      assert OnArea(h, a, i);
    }
  }

  /** What unlinking changes of the links still in use. */
  lemma UnlinkedLinks(h: Heap, e: int, y: nat)
    requires ValidBut(h, e) && IsEntity(h, e) && h.ofentity[e + 1] != [] && y < |h.links|
    ensures var x, g := h.ofentity[e + 1][0], Unlinked(h, e);
      && |g.links| == |h.links| && x < |h.links|
      && var a := h.links[x].areanum;
      && a < |h.ofarea| && x in h.ofarea[a]
      && var i := At<nat>(h.ofarea[a], x);
      && (y == x ==>
        g.links[y] == h.links[y].(prev_ent := NIL, next_ent := h.freelinks, prev_area := NIL, next_area := NIL))
      && (y != x ==> g.links[y] == h.links[y].(next_ent := g.links[y].next_ent, prev_ent := g.links[y].prev_ent))
      && (y != x ==> g.links[y].next_ent == if y == Entry(h.ofarea[a], i - 1) then Entry(h.ofarea[a], i + 1)
        else h.links[y].next_ent)
      && (y != x && y !in h.free ==>
           g.links[y].prev_ent == if y == Entry(h.ofarea[a], i + 1) then Entry(h.ofarea[a], i - 1)
             else h.links[y].prev_ent)
  {
    hide OnceOk, EntityOk, BackOk, PlaceOk, FreeOk, AreaOk;
    FirstOf(h, e);
    var x := h.ofentity[e + 1][0];
    var a := h.links[x].areanum;
    var i: int := At<nat>(h.ofarea[a], x);
    NeighbourOf(h, a, i - 1);
    NeighbourOf(h, a, i + 1);
    Apart3(h, a, i);
    FreeFirst(h);
  }

  lemma FreeFirst(h: Heap)
    requires FreeOk(h)
    ensures h.freelinks == NIL || (0 <= h.freelinks < |h.links| && h.freelinks in h.free)
  {
  }

  lemma Apart3(h: Heap, a: nat, i: nat)
    requires |h.ofarea| == |h.arealinkedentities| && a < |h.ofarea| && AreaOk(h, a) && i < |h.ofarea[a]|
    ensures Entry(h.ofarea[a], i - 1) != h.ofarea[a][i] && Entry(h.ofarea[a], i + 1) != h.ofarea[a][i]
    ensures Entry(h.ofarea[a], i - 1) != NIL ==> Entry(h.ofarea[a], i - 1) != Entry(h.ofarea[a], i + 1)
  {
  }

  /** Membership after unlinking. */
  lemma UnlinkedMembers(h: Heap, e: int, y: nat)
    requires ValidBut(h, e) && IsEntity(h, e) && h.ofentity[e + 1] != []
    ensures var x, g := h.ofentity[e + 1][0], Unlinked(h, e);
      && x < |h.links| && (y in g.free <==> y in h.free || y == x)
      && |g.ofarea| == |h.ofarea| && |g.ofentity| == |h.ofentity|
      && (forall b: nat | b < |h.ofarea| :: y in g.ofarea[b] <==>
        y in h.ofarea[b] && (b == h.links[x].areanum ==> y != x))
      && (forall d: nat | d < |h.ofentity| :: y in g.ofentity[d] <==> y in h.ofentity[d] && (d == e + 1 ==> y != x))
  {
    hide FreeOk, OnceOk, BackOk, PlaceOk, OnArea, OnEntity;
    FirstOf(h, e);
    var x, g := h.ofentity[e + 1][0], Unlinked(h, e);
    var a := h.links[x].areanum;
    assert AreaOk(h, a) && EntityOk(h, e);
    WithoutMembers(h.ofarea[a], x, y);
    assert h.ofentity[e + 1] == [x] + h.ofentity[e + 1][1..];
    TailMembers(h.ofentity[e + 1], y);
  }

  lemma WithoutMembers(l: seq<nat>, x: nat, y: nat)
    requires Distinct(l) && x in l
    ensures y in Without<nat>(l, x) <==> y in l && y != x
    ensures Distinct(Without<nat>(l, x)) && |Without<nat>(l, x)| == |l| - 1
  {
    var w, i := Without<nat>(l, x), At<nat>(l, x);
    assert forall j | 0 <= j < |w| :: w[j] == l[if j < i then j else j + 1];
    if y in l && y != x {
      var j :| 0 <= j < |l| && l[j] == y;
      assert w[if j < i then j else j - 1] == y;
    }
  }

  lemma TailMembers(l: seq<nat>, y: nat)
    requires Distinct(l) && l != []
    ensures y in l[1..] <==> y in l && y != l[0]
    ensures Distinct(l[1..])
  {
    assert l == [l[0]] + l[1..];
    forall i, j | 0 <= i < j < |l[1..]| ensures l[1..][i] != l[1..][j] {
      assert l[1..][i] == l[1 + i] && l[1..][j] == l[1 + j];
    }
    assert forall j | 0 <= j < |l[1..]| :: l[1..][j] == l[1 + j];
  }

  lemma UnlinkedFree(h: Heap, e: int)
    requires ValidBut(h, e) && IsEntity(h, e) && h.ofentity[e + 1] != []
    ensures FreeOk(Unlinked(h, e))
  {
    hide OnceOk, EntityOk, BackOk, AreaOk, OnArea, OnEntity;
    FirstOf(h, e);
    var x, g := h.ofentity[e + 1][0], Unlinked(h, e);
    var a := h.links[x].areanum;
    forall i: nat | i < |g.free| ensures g.free[i] < |g.links| && g.links[g.free[i]].next_ent == Entry(g.free, i + 1) {
      if i > 0 {
        var y := h.free[i - 1];
        assert y in h.free && PlaceOk(h, y);
        assert AreaOk(h, a);
        NeighbourOf(h, a, At<nat>(h.ofarea[a], x) - 1);
        UnlinkedLinks(h, e, y);
      } else {
        UnlinkedLinks(h, e, x);
      }
    }
  }

  lemma UnlinkedArea(h: Heap, e: int, b: nat)
    requires ValidBut(h, e) && IsEntity(h, e) && h.ofentity[e + 1] != [] && b < |h.ofarea|
    ensures |Unlinked(h, e).ofarea| == |Unlinked(h, e).arealinkedentities| == |h.ofarea| && AreaOk(Unlinked(h, e), b)
  {
    hide OnceOk, EntityOk, BackOk, FreeOk, OnEntity;
    FirstOf(h, e);
    var x, g := h.ofentity[e + 1][0], Unlinked(h, e);
    var a := h.links[x].areanum;
    assert AreaOk(h, a) && AreaOk(h, b);
    var i := At<nat>(h.ofarea[a], x);
    WithoutMembers(h.ofarea[a], x, x);
    forall j: nat | j < |g.ofarea[b]| ensures OnArea(g, b, j) {
      UnlinkedOn(h, e, b, j);
    }
  }

  lemma UnlinkedOn(h: Heap, e: int, b: nat, j: nat)
    requires ValidBut(h, e) && IsEntity(h, e) && h.ofentity[e + 1] != [] && b < |h.ofarea|
    requires |Unlinked(h, e).ofarea| == |h.ofarea| && j < |Unlinked(h, e).ofarea[b]|
    ensures OnArea(Unlinked(h, e), b, j)
  {
    hide OnceOk, EntityOk, BackOk, FreeOk, OnEntity;
    FirstOf(h, e);
    var x, g := h.ofentity[e + 1][0], Unlinked(h, e);
    var a := h.links[x].areanum;
    assert AreaOk(h, a) && AreaOk(h, b);
    var i := At<nat>(h.ofarea[a], x);
    var k := if b == a && j >= i then j + 1 else j;
    var y := g.ofarea[b][j];
    assert y == h.ofarea[b][k] && OnArea(h, b, k);
    assert y in h.ofarea[b];
    assert PlaceOk(h, y);
    UnlinkedLinks(h, e, y);
    if b != a {
      if 0 <= i - 1 { assert OnArea(h, a, i - 1); }
      if i + 1 < |h.ofarea[a]| { assert OnArea(h, a, i + 1); }
    }
  }

  lemma UnlinkedEntity(h: Heap, e: int, d: int)
    requires ValidBut(h, e) && IsEntity(h, e) && h.ofentity[e + 1] != [] && IsEntity(h, d)
    ensures EntityOk(Unlinked(h, e), d) && (d != e ==> BackOk(Unlinked(h, e), d))
  {
    hide OnceOk, AreaOk, FreeOk, OnArea;
    FirstOf(h, e);
    var x, g := h.ofentity[e + 1][0], Unlinked(h, e);
    assert EntityOk(h, e) && EntityOk(h, d);
    TailMembers(h.ofentity[e + 1], 0);
    forall i: nat | i < |g.ofentity[d + 1]| ensures OnEntity(g, d, i) && (d != e ==> BackAt(g, d, i)) {
      var j := if d == e then i + 1 else i;
      var y := g.ofentity[d + 1][i];
      assert y == h.ofentity[d + 1][j] && OnEntity(h, d, j) && (d != e ==> BackOk(h, d) && BackAt(h, d, j));
      UnlinkedLinks(h, e, y);
    }
  }

  lemma UnlinkedPlace(h: Heap, e: int, y: nat)
    requires ValidBut(h, e) && IsEntity(h, e) && h.ofentity[e + 1] != [] && y < |h.links|
    ensures y < |Unlinked(h, e).links| && PlaceOk(Unlinked(h, e), y)
  {
    hide OnceOk, AreaOk, EntityOk, FreeOk, BackOk;
    FirstOf(h, e);
    var x := h.ofentity[e + 1][0];
    assert PlaceOk(h, y) && PlaceOk(h, x);
    UnlinkedLinks(h, e, y);
    UnlinkedMembers(h, e, y);
    if y == x {
      OnlyThere(h, e);
    }
  }

  /** The link is on no other lists. */
  lemma OnlyThere(h: Heap, e: int)
    requires ValidBut(h, e) && IsEntity(h, e) && h.ofentity[e + 1] != []
    ensures var x := h.ofentity[e + 1][0];
      && x < |h.links|
      && (forall b: nat | b < |h.ofarea| && x in h.ofarea[b] :: b == h.links[x].areanum)
      && (forall d: nat | d < |h.ofentity| && x in h.ofentity[d] :: d == e + 1)
  {
    hide OnceOk, FreeOk, BackOk, PlaceOk;
    FirstOf(h, e);
    var x := h.ofentity[e + 1][0];
    forall b: nat | b < |h.ofarea| && x in h.ofarea[b] ensures b == h.links[x].areanum {
      assert AreaOk(h, b) && OnArea(h, b, At<nat>(h.ofarea[b], x));
    }
    forall d: nat | d < |h.ofentity| && x in h.ofentity[d] ensures d == e + 1 {
      assert EntityOk(h, d - 1) && OnEntity(h, d - 1, At<nat>(h.ofentity[d], x));
    }
  }

  lemma UnlinkedOnce(h: Heap, e: int)
    requires ValidBut(h, e) && IsEntity(h, e) && h.ofentity[e + 1] != []
    ensures OnceOk(Unlinked(h, e))
  {
    hide AreaOk, FreeOk, BackOk, PlaceOk, EntityOk;
    FirstOf(h, e);
    var x, g := h.ofentity[e + 1][0], Unlinked(h, e);
    forall d: nat, i: nat, j: nat | d < |g.ofentity| && i < j < |g.ofentity[d]| ensures OnceAt(g, d, i, j) {
      var k := if d == e + 1 then 1 else 0;
      assert g.ofentity[d][i] == h.ofentity[d][i + k] && g.ofentity[d][j] == h.ofentity[d][j + k];
      assert OnceAt(h, d, i + k, j + k);
      UnlinkedLinks(h, e, g.ofentity[d][i]);
      UnlinkedLinks(h, e, g.ofentity[d][j]);
    }
  }

  lemma UnlinkedValid(h: Heap, e: int)
    requires ValidBut(h, e) && IsEntity(h, e) && h.ofentity[e + 1] != []
    ensures ValidBut(Unlinked(h, e), e) && |Unlinked(h, e).links| == |h.links|
  {
    hide FreeOk, AreaOk, EntityOk, BackOk, PlaceOk, OnceOk;
    FirstOf(h, e);
    UnlinkedFree(h, e);
    UnlinkedOnce(h, e);
    var g := Unlinked(h, e);
    UnlinkedLinks(h, e, h.ofentity[e + 1][0]);
    forall b: nat | b < |h.ofarea| ensures |g.ofarea| == |g.arealinkedentities| == |h.ofarea| && AreaOk(g, b) {
      UnlinkedArea(h, e, b);
    }
    forall d | IsEntity(g, d) ensures EntityOk(g, d) && (d != e ==> BackOk(g, d)) {
      UnlinkedEntity(h, e, d);
    }
    forall y: nat | y < |g.links| ensures PlaceOk(g, y) {
      UnlinkedPlace(h, e, y);
    }
  }

  // ----- the start

  /** All links are free, in the order of the heap. */
  ghost predicate AllFree(h: Heap) {
    && |h.links| > 0 && h.freelinks == 0 && h.numaaslinks == |h.links| == |h.free|
    && |h.ofarea| == |h.arealinkedentities|
    && (forall i | 0 <= i < |h.links| ::
      h.free[i] == i && h.links[i].next_ent == if i + 1 < |h.links| then i + 1 else NIL)
    && (forall a | 0 <= a < |h.ofarea| :: h.ofarea[a] == [] && h.arealinkedentities[a] == NIL)
    && (forall e | 0 <= e < |h.ofentity| :: h.ofentity[e] == [])
  }

  lemma AllFreeValid(h: Heap)
    requires AllFree(h)
    ensures Valid(h)
  {
    forall x: nat | x < |h.links| ensures PlaceOk(h, x) {
      assert h.free[x] == x;
    }
  }
}
