/** The stack of the walk that links a box to areas. */
module LinkWalk {
  import opened AreaTree
  import opened AreaLinks
  import opened Counting

  /** Room on the stack; reaching the last entry but one is an overflow. */
  const LAST: nat := 127

  ghost predicate StackOk(t: Bsp, stack: seq<int>) {
    TreeOk(t) && forall i | 0 <= i < |stack| :: ChildOk(t, stack[i])
  }

  /** Nodes still to be visited from node n. */
  ghost function Weight(t: Bsp, n: int): nat
    requires TreeOk(t) && ChildOk(t, n)
    decreases Rank(t, n)
  {
    if n <= 0 then 1 else
      assert NodeOk(t, n);
      1 + Weight(t, t.nodes[n].child0) + Weight(t, t.nodes[n].child1)
  }

  ghost function StackWeight(t: Bsp, stack: seq<int>): nat
    requires StackOk(t, stack)
  {
    if stack == [] then 0 else Weight(t, stack[|stack| - 1]) + StackWeight(t, stack[..|stack| - 1])
  }

  /** Areas still to be found from the stack. */
  ghost function StackAreas(t: Bsp, b: Box, stack: seq<int>): set<nat>
    requires StackOk(t, stack)
  {
    if stack == [] then {} else AreasOfBox(t, b, stack[|stack| - 1]) + StackAreas(t, b, stack[..|stack| - 1])
  }

  /** The areas the walk with the box comes to from node n on, one after the other: the child behind before that in
      front. */
  ghost function WalkOrder(t: Bsp, b: Box, n: int): seq<nat>
    requires TreeOk(t) && ChildOk(t, n)
    decreases Rank(t, n)
  {
    if n < 0 then [-n]
    else if n == 0 then []
    else
      assert NodeOk(t, n);
      var node := t.nodes[n];
      (if Behind(b, t.planes[node.planenum]) then WalkOrder(t, b, node.child1) else [])
      + (if InFront(b, t.planes[node.planenum]) then WalkOrder(t, b, node.child0) else [])
  }

  lemma {:induction false} OrderIsAreas(t: Bsp, b: Box, n: int)
    requires TreeOk(t) && ChildOk(t, n)
    ensures Elements(WalkOrder(t, b, n)) == AreasOfBox(t, b, n)
    decreases Rank(t, n)
  {
    hide InFront, Behind;
    if n > 0 {
      assert NodeOk(t, n);
      OrderIsAreas(t, b, t.nodes[n].child0);
      OrderIsAreas(t, b, t.nodes[n].child1);
    }
    assert forall x :: x in Elements(WalkOrder(t, b, n)) <==> x in WalkOrder(t, b, n);
  }

  /** What is still to come from the stack. */
  ghost function StackOrder(t: Bsp, b: Box, stack: seq<int>): seq<nat>
    requires StackOk(t, stack)
  {
    if stack == [] then [] else WalkOrder(t, b, stack[|stack| - 1]) + StackOrder(t, b, stack[..|stack| - 1])
  }

  /** Entry i lies below the root by at least i ranks, so the stack cannot get longer than the tree is deep. */
  ghost predicate StackShort(t: Bsp, stack: seq<int>)
    requires StackOk(t, stack) && ChildOk(t, 1)
  {
    forall i | 0 <= i < |stack| :: i + Rank(t, stack[i]) <= Rank(t, 1)
  }

  /** The stack after node n has been replaced by those of its children the box is on the side of. */
  function Descended(t: Bsp, b: Box, stack: seq<int>, n: int): seq<int>
    requires 0 < n < |t.nodes| && t.nodes[n].planenum < |t.planes|
  {
    var node := t.nodes[n];
    var s1 := if InFront(b, t.planes[node.planenum]) then stack + [node.child0] else stack;
    if Behind(b, t.planes[node.planenum]) then s1 + [node.child1] else s1
  }

  lemma Pushed(t: Bsp, b: Box, stack: seq<int>, n: int)
    requires StackOk(t, stack) && ChildOk(t, n)
    ensures StackOk(t, stack + [n]) && StackWeight(t, stack + [n]) == StackWeight(t, stack) + Weight(t, n)
    ensures StackAreas(t, b, stack + [n]) == AreasOfBox(t, b, n) + StackAreas(t, b, stack)
    ensures StackOrder(t, b, stack + [n]) == WalkOrder(t, b, n) + StackOrder(t, b, stack)
  {
    assert (stack + [n])[..|stack|] == stack;
  }

  /** Descending from a node leaves the areas to be found, lowers the weight, and keeps the stack short. */
  lemma DescendedKeeps(t: Bsp, b: Box, stack: seq<int>, n: int)
    requires StackOk(t, stack) && ChildOk(t, n) && 0 < n && ChildOk(t, 1) && StackShort(t, stack + [n])
    ensures 0 < n < |t.nodes| && t.nodes[n].planenum < |t.planes| && StackOk(t, Descended(t, b, stack, n))
    ensures StackAreas(t, b, Descended(t, b, stack, n)) == StackAreas(t, b, stack + [n])
    ensures StackOrder(t, b, Descended(t, b, stack, n)) == StackOrder(t, b, stack + [n])
    ensures StackWeight(t, Descended(t, b, stack, n)) < StackWeight(t, stack + [n])
    ensures StackShort(t, Descended(t, b, stack, n))
  {
    hide InFront, Behind, StackShort, StackWeight, StackAreas, StackOrder;
    assert NodeOk(t, n);
    var node := t.nodes[n];
    var s1 := if InFront(b, t.planes[node.planenum]) then stack + [node.child0] else stack;
    Pushed(t, b, stack, n);
    Pushed(t, b, stack, node.child0);
    Pushed(t, b, s1, node.child1);
    DescendedOrder(t, b, stack, n);
    DescendedShort(t, b, stack, n);
  }

  lemma DescendedOrder(t: Bsp, b: Box, stack: seq<int>, n: int)
    requires StackOk(t, stack) && ChildOk(t, n) && 0 < n < |t.nodes| && t.nodes[n].planenum < |t.planes|
    requires StackOk(t, Descended(t, b, stack, n)) && StackOk(t, stack + [n])
    ensures StackOrder(t, b, Descended(t, b, stack, n)) == StackOrder(t, b, stack + [n])
  {
    hide InFront, Behind, StackOrder;
    assert NodeOk(t, n);
    var node := t.nodes[n];
    var s1 := if InFront(b, t.planes[node.planenum]) then stack + [node.child0] else stack;
    Pushed(t, b, stack, n);
    Pushed(t, b, stack, node.child0);
    Pushed(t, b, s1, node.child1);
  }

  lemma DescendedShort(t: Bsp, b: Box, stack: seq<int>, n: int)
    requires StackOk(t, stack) && ChildOk(t, n) && 0 < n && ChildOk(t, 1) && StackShort(t, stack + [n])
    requires n < |t.nodes| && t.nodes[n].planenum < |t.planes| && StackOk(t, Descended(t, b, stack, n))
    ensures StackShort(t, Descended(t, b, stack, n))
  {
    hide InFront, Behind;
    assert NodeOk(t, n);
    var k := |stack|;
    assert (stack + [n])[k] == n;
    var d := Descended(t, b, stack, n);
    forall i | 0 <= i < |d| ensures i + Rank(t, d[i]) <= Rank(t, 1) {
      if i < k {
        assert d[i] == (stack + [n])[i];
      }
    }
  }

  // ----- what the entity is linked to

  /** The areas entity e is linked to. */
  ghost function AreasOf(h: Heap, e: int): set<nat>
    requires IsEntity(h, e)
  {
    set x | x in h.ofentity[e + 1] && x < |h.links| :: h.links[x].areanum
  }

  /** Links of other entities are as they were. */
  ghost predicate OthersSame(h0: Heap, h1: Heap, e: int) {
    && |h1.links| == |h0.links| && |h1.ofarea| == |h0.ofarea| && |h1.ofentity| == |h0.ofentity|
    && forall d | IsEntity(h0, d) && d != e ::
      h1.ofentity[d + 1] == h0.ofentity[d + 1] && AreasOf(h1, d) == AreasOf(h0, d)
  }

  lemma OthersThrough(h0: Heap, h1: Heap, h2: Heap, e: int)
    requires OthersSame(h0, h1, e) && OthersSame(h1, h2, e)
    ensures OthersSame(h0, h2, e)
  {
    hide AreasOf;
    forall d | IsEntity(h0, d) && d != e
      ensures h2.ofentity[d + 1] == h0.ofentity[d + 1] && AreasOf(h2, d) == AreasOf(h0, d)
    {
      assert IsEntity(h1, d);
    }
  }

  lemma LinkedAreas(h: Heap, e: int, a: nat)
    requires Valid(h) && |h.free| > 0 && a < |h.ofarea| && IsEntity(h, e)
    ensures h.free[0] < |h.links| && OthersSame(h, Linked(h, e, a), e)
    ensures AreasOf(Linked(h, e, a), e) == AreasOf(h, e) + {a}
    ensures |Linked(h, e, a).free| == |h.free| - 1 && Linked(h, e, a).ofentity[e + 1] == [h.free[0]] + h.ofentity[e + 1]
  {
    hide FreeOk, AreaOk, EntityOk, BackOk, OnceOk;
    FreeIs(h);
    var x, g := h.free[0], Linked(h, e, a);
    LinkedLinks(h, e, a, x);
    forall d | IsEntity(h, d) && d != e ensures AreasOf(g, d) == AreasOf(h, d) {
      forall y: nat | y in h.ofentity[d + 1] && y < |h.links| ensures g.links[y].areanum == h.links[y].areanum {
        assert PlaceOk(h, x);
        LinkedLinks(h, e, a, y);
      }
    }
    LinkedAreasOf(h, e, a);
  }

  lemma LinkedAreasOf(h: Heap, e: int, a: nat)
    requires Valid(h) && |h.free| > 0 && a < |h.ofarea| && IsEntity(h, e)
    ensures h.free[0] < |h.links| && AreasOf(Linked(h, e, a), e) == AreasOf(h, e) + {a}
  {
    hide FreeOk, AreaOk, EntityOk, BackOk, OnceOk, Linked;
    FreeIs(h);
    var x, g := h.free[0], Linked(h, e, a);
    assert g.ofentity[e + 1] == [x] + h.ofentity[e + 1] && |g.ofentity| == |h.ofentity| by { LinkedLists(h, e, a); }
    LinkedLinks(h, e, a, x);
    assert PlaceOk(h, x);
    forall y: nat | y in h.ofentity[e + 1] && y < |h.links| ensures g.links[y].areanum == h.links[y].areanum {
      LinkedLinks(h, e, a, y);
    }
    assert x in g.ofentity[e + 1];
  }

  lemma LinkedLists(h: Heap, e: int, a: nat)
    requires FreeOk(h) && |h.free| > 0 && a < |h.ofarea| == |h.arealinkedentities| && IsEntity(h, e)
    ensures h.free[0] < |h.links| && Linked(h, e, a).ofentity[e + 1] == [h.free[0]] + h.ofentity[e + 1]
    ensures |Linked(h, e, a).ofentity| == |h.ofentity| && |Linked(h, e, a).links| == |h.links|
  {
  }

  /** As many areas as links. */
  lemma AreasCounted(h: Heap, e: int)
    requires Valid(h) && IsEntity(h, e)
    ensures |AreasOf(h, e)| == |h.ofentity[e + 1]|
  {
    hide FreeOk, AreaOk, BackOk, PlaceOk;
    var list := h.ofentity[e + 1];
    assert EntityOk(h, e);
    forall i: nat | i < |list| ensures list[i] < |h.links| {
      assert OnEntity(h, e, i);
    }
    var areas := seq<nat>(|list|, i requires 0 <= i < |list| => h.links[list[i]].areanum);
    forall i: nat, j: nat | i < j < |areas| ensures areas[i] != areas[j] {
      assert OnceAt(h, e + 1, i, j);
    }
    DistinctSize<nat>(areas);
    assert Elements<nat>(areas) == AreasOf(h, e) by {
      forall x | x in Elements<nat>(areas) ensures x in AreasOf(h, e) {
        var i :| 0 <= i < |areas| && areas[i] == x;
        assert list[i] in list;
      }
      forall x | x in AreasOf(h, e) ensures x in Elements<nat>(areas) {
        var y :| y in list && y < |h.links| && h.links[y].areanum == x;
        var i :| 0 <= i < |list| && list[i] == y;
        assert areas[i] == x;
      }
    }
  }

  lemma UnlinkedOthers(h: Heap, e: int)
    requires ValidBut(h, e) && IsEntity(h, e) && h.ofentity[e + 1] != []
    ensures OthersSame(h, Unlinked(h, e), e)
  {
    hide FreeOk, AreaOk, EntityOk, BackOk, OnceOk, PlaceOk, Unlinked;
    var g := Unlinked(h, e);
    UnlinkedLists(h, e);
    forall d | IsEntity(h, d) && d != e ensures AreasOf(g, d) == AreasOf(h, d) {
      forall y: nat | y in h.ofentity[d + 1] && y < |h.links| ensures g.links[y].areanum == h.links[y].areanum {
        UnlinkedLinks(h, e, y);
      }
    }
  }

  lemma UnlinkedLists(h: Heap, e: int)
    requires ValidBut(h, e) && IsEntity(h, e) && h.ofentity[e + 1] != []
    ensures var g := Unlinked(h, e);
      && |g.ofentity| == |h.ofentity| && |g.links| == |h.links| && |g.ofarea| == |h.ofarea|
      && |g.free| == |h.free| + 1
      && g.ofentity[e + 1] == h.ofentity[e + 1][1..]
      && (forall d | IsEntity(h, d) && d != e :: g.ofentity[d + 1] == h.ofentity[d + 1])
  {
    hide FreeOk, AreaOk, EntityOk, BackOk, OnceOk, PlaceOk;
    FirstOf(h, e);
    UnlinkedLinks(h, e, h.ofentity[e + 1][0]);
  }

  lemma OthersSelf(h: Heap, e: int)
    ensures OthersSame(h, h, e)
  {
  }

  lemma AllBack(h: Heap, e: int)
    requires ValidBut(h, e) && IsEntity(h, e) && h.ofentity[e + 1] == []
    ensures Valid(h)
  {
  }

  lemma LessValid(h: Heap, e: int)
    requires Valid(h)
    ensures ValidBut(h, e)
  {
  }
}
