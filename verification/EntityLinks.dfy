/** Linking entities to the areas their boxes are in. */
module EntityLinks {
  import opened AasFile
  import opened AreaTree
  import opened AreaLinks
  import opened LinkWalk
  import opened Counting
  import opened Positions

  /** The heap without its first free link. */
  ghost function Taken(h: Heap): Heap
    requires h.free != []
  {
    var links :=
      if |h.free| > 1 && h.free[1] < |h.links| then h.links[h.free[1] := h.links[h.free[1]].(prev_ent := NIL)]
      else h.links;
    h.(links := links, free := h.free[1..], freelinks := Entry(h.free, 1), numaaslinks := |h.free| - 1)
  }

  /** The heap with link x as its first free link. */
  ghost function Returned(h: Heap, x: nat): Heap
    requires x < |h.links|
  {
    var links := if 0 <= h.freelinks < |h.links| then h.links[h.freelinks := h.links[h.freelinks].(prev_ent := x)]
      else h.links;
    h.(links := links[x := links[x].(prev_ent := NIL, next_ent := h.freelinks, prev_area := NIL, next_area := NIL)],
       free := [x] + h.free, freelinks := x, numaaslinks := h.numaaslinks + 1)
  }

  /** The heap after link x has been put at the head of the lists of area a and entity e. */
  ghost function Filled(h: Heap, x: nat, a: nat, e: int, first: int): Heap
    requires x < |h.links| && a < |h.ofarea| == |h.arealinkedentities| && IsEntity(h, e)
    requires first == NIL || 0 <= first < |h.links|
    requires h.arealinkedentities[a] == NIL || 0 <= h.arealinkedentities[a] < |h.links|
  {
    var head := h.arealinkedentities[a];
    var l1 := h.links[x := h.links[x].(entnum := e, areanum := a, prev_area := NIL, next_area := first)];
    var l2 := if first == NIL then l1 else l1[first := l1[first].(prev_area := x)];
    var l3 := l2[x := l2[x].(prev_ent := NIL, next_ent := head)];
    h.(links := if head == NIL then l3 else l3[head := l3[head].(prev_ent := x)],
       arealinkedentities := h.arealinkedentities[a := x], ofarea := h.ofarea[a := [x] + h.ofarea[a]],
       ofentity := h.ofentity[e + 1 := [x] + h.ofentity[e + 1]])
  }

  class AreaLinkHeap {
    var linkheap: seq<Link>
    var freelinks: int
    var arealinkedentities: seq<int>
    var numaaslinks: nat
    ghost var free: seq<nat>
    ghost var ofarea: seq<seq<nat>>
    ghost var ofentity: seq<seq<nat>>

    ghost function Now(): Heap
      reads this
    {
      Heap(linkheap, freelinks, arealinkedentities, numaaslinks, free, ofarea, ofentity)
    }

    /** All links are free. */
    constructor (max_aaslinks: nat, numareas: nat, numentities: nat)
      requires max_aaslinks > 0
      ensures Valid(Now()) && |linkheap| == numaaslinks == max_aaslinks
      ensures |ofarea| == numareas && |ofentity| == numentities + 1
        && forall e | 0 <= e < |ofentity| :: ofentity[e] == []
    {
      hide Valid;
      freelinks := 0;
      arealinkedentities := seq(numareas, _ => NIL);
      numaaslinks := max_aaslinks;
      linkheap := seq(max_aaslinks, _ => Link(0, 0, NIL, NIL, NIL, NIL));
      free := seq<nat>(max_aaslinks, i requires 0 <= i < max_aaslinks => i);
      ofarea := seq(numareas, _ => []);
      ofentity := seq(numentities + 1, _ => []);
      new;
      var i := 0;
      while i < max_aaslinks
        invariant 0 <= i <= max_aaslinks == |linkheap| == numaaslinks == |free| && freelinks == 0
        invariant forall k | 0 <= k < i :: linkheap[k].next_ent == if k + 1 < max_aaslinks then k + 1 else NIL
        invariant |ofarea| == |arealinkedentities| == numareas && |ofentity| == numentities + 1
        invariant forall k | 0 <= k < max_aaslinks :: free[k] == k
        invariant forall a | 0 <= a < numareas :: ofarea[a] == [] && arealinkedentities[a] == NIL
        invariant forall e | 0 <= e <= numentities :: ofentity[e] == []
      {
        linkheap := linkheap[i := linkheap[i].(prev_ent := i - 1, next_ent := if i + 1 < max_aaslinks then i + 1
          else NIL)];
        i := i + 1;
      }
      AllFreeValid(Now());
    }

    /** A link of its own, NIL if there is none left. */
    method AllocAASLink() returns (link: int)
      requires FreeOk(Now())
      modifies this
      ensures old(free) == [] ==> link == NIL && Now() == old(Now())
      ensures old(free) != [] ==> link == old(free)[0] && Now() == Taken(old(Now()))
    {
      link := freelinks;
      if link == NIL {
        return;
      }
      freelinks := linkheap[freelinks].next_ent;
      if freelinks != NIL {
        linkheap := linkheap[freelinks := linkheap[freelinks].(prev_ent := NIL)];
      }
      numaaslinks := numaaslinks - 1;
      free := free[1..];
    }

    /** Give a link back. */
    method DeAllocAASLink(link: nat)
      requires link < |linkheap| && (freelinks == NIL || 0 <= freelinks < |linkheap|)
      modifies this
      ensures Now() == Returned(old(Now()), link)
    {
      if freelinks != NIL {
        linkheap := linkheap[freelinks := linkheap[freelinks].(prev_ent := link)];
      }
      linkheap := linkheap[link := linkheap[link].(prev_ent := NIL, next_ent := freelinks, prev_area := NIL,
        next_area := NIL)];
      freelinks := link;
      numaaslinks := numaaslinks + 1;
      free := [link] + free;
    }

    /** Take an entity out of all areas, along the list of its links. */
    method UnlinkFromAreas(areas: int, ghost e: int)
      requires Valid(Now()) && IsEntity(Now(), e) && areas == Entry(ofentity[e + 1], 0)
      modifies this
      ensures Valid(Now()) && OthersSame(old(Now()), Now(), e) && IsEntity(Now(), e) && ofentity[e + 1] == []
      ensures |free| == old(|free| + |ofentity[e + 1]|) && |ofarea| == old(|ofarea|) && |ofentity| == old(|ofentity|)
    {
      hide ValidBut, Valid, OthersSame, Unlinked, AreasOf;
      var link := areas;
      LessValid(Now(), e);
      OthersSelf(Now(), e);
      while link != NIL
        invariant IsEntity(Now(), e) && ValidBut(Now(), e) && OthersSame(old(Now()), Now(), e)
        invariant link == Entry(ofentity[e + 1], 0) && |free| + |ofentity[e + 1]| == old(|free| + |ofentity[e + 1]|)
        invariant |ofarea| == old(|ofarea|) && |ofentity| == old(|ofentity|)
        decreases |ofentity[e + 1]|
      {
        ghost var h := Now();
        FirstOf(h, e);
        UnlinkedOthers(h, e);
        UnlinkedValid(h, e);
        UnlinkedLists(h, e);
        OthersThrough(old(Now()), h, Unlinked(h, e), e);
        link := UnlinkFirst(link, e);
      }
      AllBack(Now(), e);
    }

    /** Take the first link of an entity off the list of its area, and give it back. */
    method UnlinkFirst(link: nat, ghost e: int) returns (nextlink: int)
      requires IsEntity(Now(), e) && ValidBut(Now(), e) && ofentity[e + 1] != [] && link == ofentity[e + 1][0]
      modifies this
      ensures Now() == Unlinked(old(Now()), e) && nextlink == Entry(old(ofentity[e + 1]), 1)
    {
      hide ValidBut, Unlinked, AreaOk;
      ghost var h := Now();
      UnlinkedIs(h, e);
      nextlink := linkheap[link].next_area;
      var prev, next := linkheap[link].prev_ent, linkheap[link].next_ent;
      if prev != NIL {
        linkheap := linkheap[prev := linkheap[prev].(next_ent := next)];
      } else {
        arealinkedentities := arealinkedentities[linkheap[link].areanum := next];
      }
      if next != NIL {
        linkheap := linkheap[next := linkheap[next].(prev_ent := prev)];
      }
      ofarea := ofarea[h.links[link].areanum := Without<nat>(ofarea[h.links[link].areanum], link)];
      ofentity := ofentity[e + 1 := ofentity[e + 1][1..]];
      DeAllocAASLink(link);
    }

    /** The link of an entity to an area, NIL if there is none. */
    method FindLink(areanum: nat, entnum: int) returns (link: int)
      requires Valid(Now()) && areanum < |ofarea| && IsEntity(Now(), entnum)
      ensures link == NIL <==> NotIn(Now(), entnum, areanum)
      ensures link != NIL ==> areanum in AreasOf(Now(), entnum)
    {
      hide Valid, AreasOf, NotIn, NoneBefore;
      ghost var h, list := Now(), ofarea[areanum];
      AreaIs(h, areanum);
      link := arealinkedentities[areanum];
      ghost var i := 0;
      SearchStarts(h, list, entnum);
      while link != NIL && linkheap[link].entnum != entnum
        invariant 0 <= i <= |list| && link == Entry(list, i) && NoneBefore(h, list, i, entnum)
        decreases |list| - i
      {
        SearchOn(h, list, i, entnum);
        link := linkheap[link].next_ent;
        i := i + 1;
      }
      FoundOrNot(h, areanum, entnum, i);
    }

    /** Link an entity to an area; false if there are no links left. */
    method AddLink(areanum: nat, entnum: int, areas: int) returns (link: int)
      requires Valid(Now()) && areanum < |ofarea| && IsEntity(Now(), entnum) && areas == Entry(ofentity[entnum + 1], 0)
      modifies this
      ensures old(free) == [] ==> link == NIL && Now() == old(Now())
      ensures old(free) != [] ==>
        link == old(free)[0] && link < |old(linkheap)| && Now() == Linked(old(Now()), entnum, areanum)
    {
      hide Valid, Linked, FreeOk;
      ghost var h := Now();
      HeadsAre(h, entnum, areanum);
      link := AllocAASLink();
      if link == NIL {
        return;
      }
      FillLink(link, areanum, entnum, areas);
      LinkedIs(h, entnum, areanum);
    }

    /** Put a link at the head of the list of its entity and of the list of its area. */
    method FillLink(link: nat, areanum: nat, entnum: int, areas: int)
      requires link < |linkheap| && areanum < |ofarea| == |arealinkedentities| && IsEntity(Now(), entnum)
      requires areas == NIL || 0 <= areas < |linkheap|
      requires arealinkedentities[areanum] == NIL || 0 <= arealinkedentities[areanum] < |linkheap|
      modifies this
      ensures Now() == Filled(old(Now()), link, areanum, entnum, areas)
    {
      linkheap := linkheap[link := linkheap[link].(entnum := entnum, areanum := areanum)];
      linkheap := linkheap[link := linkheap[link].(prev_area := NIL, next_area := areas)];
      if areas != NIL {
        linkheap := linkheap[areas := linkheap[areas].(prev_area := link)];
      }
      linkheap := linkheap[link := linkheap[link].(prev_ent := NIL, next_ent := arealinkedentities[areanum])];
      if arealinkedentities[areanum] != NIL {
        linkheap := linkheap[arealinkedentities[areanum] := linkheap[arealinkedentities[areanum]].(prev_ent := link)];
      }
      arealinkedentities := arealinkedentities[areanum := link];
      ofarea := ofarea[areanum := [link] + ofarea[areanum]];
      ofentity := ofentity[entnum + 1 := [link] + ofentity[entnum + 1]];
    }

    /** Link an unlinked entity to the areas its box is in, as far as links and stack go. */
    method AASLinkEntity(t: Bsp, b: Box, entnum: int) returns (areas: int)
      requires Valid(Now()) && TreeOk(t) && t.numareas <= |ofarea| && IsEntity(Now(), entnum)
        && ofentity[entnum + 1] == []
      modifies this
      ensures Valid(Now()) && OthersSame(old(Now()), Now(), entnum) && IsEntity(Now(), entnum)
      ensures areas == Entry(ofentity[entnum + 1], 0) && |free| + |ofentity[entnum + 1]| == |old(free)|
      ensures |ofarea| == old(|ofarea|) && |ofentity| == old(|ofentity|)
      ensures AreasOf(Now(), entnum) <= AreasOfBox(t, b, 1) && ChildOk(t, 1) && LinkedFirst(t, b, Now(), entnum)
      ensures Rank(t, 1) + 1 < LAST ==>
        |ofentity[entnum + 1]| == if |AreasOfBox(t, b, 1)| < |old(free)| then |AreasOfBox(t, b, 1)| else |old(free)|
      ensures |AreasOfBox(t, b, 1)| <= |old(free)| && Rank(t, 1) + 1 < LAST ==>
        AreasOf(Now(), entnum) == AreasOfBox(t, b, 1)
    {
      hide Valid, OthersSame, AreasOf, AreasOfBox, StackShort, StackAreas, StackWeight, StackOk, TreeOk, Rank,
        Unfinished, BoxOnPlaneSide2, NotIn, Linked, Counting.Distinct,
        LinkedFirst, StackOrder, WalkOrder;
      ghost var h0 := Now();
      areas := NIL;
      var linkstack := [1];
      WalkStarts(t, b, h0, entnum);
      while linkstack != []
        invariant StackOk(t, linkstack) && StackShort(t, linkstack)
        invariant Valid(Now()) && OthersSame(h0, Now(), entnum) && IsEntity(Now(), entnum) && |ofarea| == |h0.ofarea|
        invariant |ofentity| == |h0.ofentity| && |free| + |ofentity[entnum + 1]| == |h0.free|
        invariant areas == Entry(ofentity[entnum + 1], 0) && Unfinished(t, b, h0, Now(), entnum, linkstack)
        decreases StackWeight(t, linkstack)
      {
        ghost var h, stack := Now(), linkstack;
        var nodenum := linkstack[|linkstack| - 1];
        linkstack := linkstack[..|linkstack| - 1];
        assert stack == linkstack + [nodenum];
        Popped(t, b, linkstack, nodenum);
        if nodenum < 0 {
          var found := FindLink(-nodenum, entnum);
          if found == NIL {
            var link := AddLink(-nodenum, entnum, areas);
            if link == NIL {
              LinksRanOut(t, b, h0, h, entnum, linkstack, nodenum);
              UnfinishedIsFirst(t, b, h0, h, entnum, stack);
              return;
            }
            areas := link;
            AreaAdded(t, b, h0, h, entnum, linkstack, nodenum);
          } else {
            AreaThere(t, b, h0, h, entnum, linkstack, nodenum);
          }
        } else if nodenum == 0 {
          SolidLeaf(t, b, h0, h, entnum, linkstack);
        } else {
          NodeIs(t, nodenum);
          var node := t.nodes[nodenum];
          var side := BoxOnPlaneSide2(b, t.planes[node.planenum]);
          DescendedKeeps(t, b, linkstack, nodenum);
          ghost var next := Descended(t, b, linkstack, nodenum);
          if side & FRONT != 0 {
            linkstack := linkstack + [node.child0];
          }
          if |linkstack| < LAST && side & BACK != 0 {
            linkstack := linkstack + [node.child1];
          }
          if |linkstack| >= LAST {
            Overflows(t, b, h0, h, entnum, stack, next, linkstack);
            UnfinishedIsFirst(t, b, h0, h, entnum, stack);
            return;
          }
          StillUnfinished(t, b, h0, h, entnum, stack, linkstack);
        }
      }
      WalkEnds(t, b, h0, Now(), entnum);
      UnfinishedIsFirst(t, b, h0, Now(), entnum, []);
      AreasCounted(Now(), entnum);
    }

    /** The areas of the links of a list, as many as are asked for. */
    method ListAreas(linkedareas: int, maxareas: nat, ghost list: seq<nat>) returns (areas: seq<nat>)
      requires linkedareas == Entry(list, 0) && maxareas > 0
      requires forall i | 0 <= i < |list| :: list[i] < |linkheap| && linkheap[list[i]].next_area == Entry(list, i + 1)
      ensures |areas| == if |list| < maxareas then |list| else maxareas
      ensures forall i | 0 <= i < |areas| :: areas[i] == linkheap[list[i]].areanum
    {
      areas := [];
      var link := linkedareas;
      while link != NIL
        invariant |areas| <= |list| && |areas| < maxareas && link == Entry(list, |areas|)
        invariant forall i | 0 <= i < |areas| :: areas[i] == linkheap[list[i]].areanum
        decreases |list| - |areas|
      {
        areas := areas + [linkheap[link].areanum];
        if |areas| >= maxareas {
          break;
        }
        link := linkheap[link].next_area;
      }
    }

    /** The areas a box is in, as many as are asked for: linked without entity, listed, and unlinked. */
    method BBoxAreas(t: Bsp, b: Box, maxareas: nat) returns (areas: seq<nat>)
      requires Valid(Now()) && TreeOk(t) && t.numareas <= |ofarea| && IsEntity(Now(), -1) && ofentity[0] == []
        && maxareas > 0
      modifies this
      ensures Valid(Now()) && OthersSame(old(Now()), Now(), -1) && |ofentity| == old(|ofentity|) && ofentity[0] == []
      ensures numaaslinks == old(numaaslinks)
      ensures Counting.Distinct(areas) && |areas| <= maxareas && forall a | a in areas :: a in AreasOfBox(t, b, 1)
      ensures |AreasOfBox(t, b, 1)| <= old(numaaslinks) && Rank(t, 1) + 1 < LAST ==>
                |areas| == if |AreasOfBox(t, b, 1)| < maxareas then |AreasOfBox(t, b, 1)| else maxareas
    {
      hide Valid, OthersSame, AreasOf, AreasOfBox, TreeOk, Rank;
      ghost var h0 := Now();
      FreeCount(h0);
      var linkedareas := AASLinkEntity(t, b, -1);
      ghost var h := Now();
      ListIs(h, -1);
      areas := ListAreas(linkedareas, maxareas, ofentity[0]);
      ListedAreas(h, -1, areas);
      UnlinkFromAreas(linkedareas, -1);
      OthersThrough(h0, h, Now(), -1);
      FreeCount(Now());
    }
  }

  lemma UnlinkedIs(h: Heap, e: int)
    requires ValidBut(h, e) && IsEntity(h, e) && h.ofentity[e + 1] != []
    ensures var x := h.ofentity[e + 1][0];
      && x < |h.links| && (h.freelinks == NIL || 0 <= h.freelinks < |h.links|) && h.numaaslinks == |h.free|
      && h.links[x].next_area == Entry(h.ofentity[e + 1], 1)
      && var a, p, n := h.links[x].areanum, h.links[x].prev_ent, h.links[x].next_ent;
      && a < |h.ofarea| == |h.arealinkedentities| && x in h.ofarea[a] && p != x && n != x
      && (p == NIL || 0 <= p < |h.links|) && (n == NIL || 0 <= n < |h.links|)
      && var l1 := if p == NIL then h.links else h.links[p := h.links[p].(next_ent := n)];
      var l2 := if n == NIL then l1 else l1[n := l1[n].(prev_ent := p)];
      Unlinked(h, e) == Returned(h.(links := l2,
        arealinkedentities := if p == NIL then h.arealinkedentities[a := n] else h.arealinkedentities,
        ofarea := h.ofarea[a := Without<nat>(h.ofarea[a],
          x)], ofentity := h.ofentity[e + 1 := h.ofentity[e + 1][1..]]), x)
  {
    hide EntityOk, BackOk, OnceOk, PlaceOk;
    FirstOf(h, e);
    var x := h.ofentity[e + 1][0];
    var a := h.links[x].areanum;
    assert AreaOk(h, a);
    var i: int := At<nat>(h.ofarea[a], x);
    NeighbourOf(h, a, i - 1);
    NeighbourOf(h, a, i + 1);
    FreeFirst(h);
    Apart3(h, a, At<nat>(h.ofarea[a], x));
  }

  lemma AreaIs(h: Heap, a: nat)
    requires Valid(h) && a < |h.ofarea|
    ensures |h.arealinkedentities| == |h.ofarea| && h.arealinkedentities[a] == Entry(h.ofarea[a], 0)
    ensures forall i | 0 <= i < |h.ofarea[a]| ::
      h.ofarea[a][i] < |h.links| && h.links[h.ofarea[a][i]].next_ent == Entry(h.ofarea[a], i + 1)
  {
    hide EntityOk, BackOk, OnceOk, PlaceOk, FreeOk;
    assert AreaOk(h, a);
    forall i: nat | i < |h.ofarea[a]|
      ensures h.ofarea[a][i] < |h.links| && h.links[h.ofarea[a][i]].next_ent == Entry(h.ofarea[a], i + 1)
    {
      assert OnArea(h, a, i);
    }
  }

  /** None of the first i links of the list is the entity's. */
  ghost predicate NoneBefore(h: Heap, list: seq<nat>, i: nat, e: int)
    requires i <= |list|
  {
    forall k | 0 <= k < i :: list[k] < |h.links| && h.links[list[k]].entnum != e
  }

  lemma SearchStarts(h: Heap, list: seq<nat>, e: int)
    ensures NoneBefore(h, list, 0, e)
  {
  }

  lemma SearchOn(h: Heap, list: seq<nat>, i: nat, e: int)
    requires i < |list| && NoneBefore(h, list, i, e) && list[i] < |h.links| && h.links[list[i]].entnum != e
    ensures NoneBefore(h, list, i + 1, e)
  {
  }

  /** The search has gone through the list up to a link of the entity, or through all of it. */
  lemma FoundOrNot(h: Heap, a: nat, e: int, i: nat)
    requires Valid(h) && a < |h.ofarea| && IsEntity(h, e) && i <= |h.ofarea[a]|
    requires NoneBefore(h, h.ofarea[a], i, e)
    requires i < |h.ofarea[a]| ==> h.ofarea[a][i] < |h.links| && h.links[h.ofarea[a][i]].entnum == e
    ensures i == |h.ofarea[a]| <==> NotIn(h, e, a)
    ensures i < |h.ofarea[a]| ==> a in AreasOf(h, e)
  {
    hide BackOk, OnceOk, FreeOk;
    assert AreaOk(h, a) && EntityOk(h, e);
    if i < |h.ofarea[a]| {
      var x := h.ofarea[a][i];
      assert x in h.ofarea[a] && OnArea(h, a, i) && PlaceOk(h, x);
    } else {
      var list := h.ofentity[e + 1];
      forall j: nat | j < |list| ensures list[j] < |h.links| && h.links[list[j]].areanum != a {
        assert list[j] in list && OnEntity(h, e, j) && PlaceOk(h, list[j]);
        assert list[j] in h.ofarea[h.links[list[j]].areanum];
      }
    }
  }

  lemma HeadsAre(h: Heap, e: int, a: nat)
    requires Valid(h) && IsEntity(h, e) && a < |h.ofarea|
    ensures FreeOk(h) && |h.arealinkedentities| == |h.ofarea| && h.numaaslinks == |h.free|
    ensures h.free != [] ==> h.free[0] < |h.links| && (|h.free| > 1 ==> h.free[1] < |h.links| && h.free[0] != h.free[1])
    ensures var f, g := Entry(h.ofentity[e + 1], 0), h.arealinkedentities[a];
      && (f == NIL || 0 <= f < |h.links|) && (g == NIL || 0 <= g < |h.links|)
      && (h.free != [] ==> f != h.free[0] && g != h.free[0])
  {
    hide BackOk, OnceOk;
    assert AreaOk(h, a) && EntityOk(h, e);
    if h.ofentity[e + 1] != [] {
      assert OnEntity(h, e, 0);
    }
    NeighbourOf(h, a, 0);
    if h.free != [] {
      assert PlaceOk(h, h.free[0]);
    }
  }

  /** The statements that link amount to Linked. */
  lemma LinkedIs(h: Heap, e: int, a: nat)
    requires Valid(h) && IsEntity(h, e) && a < |h.ofarea| && h.free != []
    ensures |h.arealinkedentities| == |h.ofarea| && h.free[0] < |h.links|
    ensures var f, head := Entry(h.ofentity[e + 1], 0), h.arealinkedentities[a];
      && (f == NIL || 0 <= f < |h.links|) && (head == NIL || 0 <= head < |h.links|)
      && Filled(Taken(h), h.free[0], a, e, f) == Linked(h, e, a)
  {
    hide Valid, FreeOk;
    HeadsAre(h, e, a);
    assert Filled(Taken(h), h.free[0], a, e, Entry(h.ofentity[e + 1], 0)).links == Linked(h, e, a).links;
  }

  // ----- the walk

  /** What has been linked and what is still to be found are the areas of the box; every link used is the entity's. */
  ghost predicate Unfinished(t: Bsp, b: Box, h0: Heap, h: Heap, e: int, stack: seq<int>)
    requires TreeOk(t) && StackOk(t, stack) && IsEntity(h, e)
  {
    && AreasOf(h, e) + StackAreas(t, b, stack) == AreasOfBox(t, b, 1)
    && |h.free| + |h.ofentity[e + 1]| == |h0.free|
    && exists done: seq<nat> :: ComeTo(t, b, done, stack) && AreasOf(h, e) == Elements(done)
  }

  /** The walk has come to the areas `done`. */
  ghost predicate ComeTo(t: Bsp, b: Box, done: seq<nat>, stack: seq<int>)
    requires TreeOk(t) && StackOk(t, stack)
  {
    ChildOk(t, 1) && WalkOrder(t, b, 1) == done + StackOrder(t, b, stack)
  }

  /** The entity is linked to the first areas the walk comes to, as many as it has links. */
  ghost predicate LinkedFirst(t: Bsp, b: Box, h: Heap, e: int)
    requires TreeOk(t) && ChildOk(t, 1) && IsEntity(h, e)
  {
    && |h.ofentity[e + 1]| <= |Firsts(WalkOrder(t, b, 1))|
    && AreasOf(h, e) == Elements(Firsts(WalkOrder(t, b, 1))[..|h.ofentity[e + 1]|])
  }

  lemma UnfinishedIsFirst(t: Bsp, b: Box, h0: Heap, h: Heap, e: int, stack: seq<int>)
    requires TreeOk(t) && StackOk(t, stack) && Valid(h) && IsEntity(h, e) && Unfinished(t, b, h0, h, e, stack)
    ensures ChildOk(t, 1) && LinkedFirst(t, b, h, e)
  {
    hide AreasOf, StackAreas, AreasOfBox, WalkOrder, StackOrder, ValidBut, Firsts;
    var done: seq<nat> :| ComeTo(t, b, done, stack) && AreasOf(h, e) == Elements(done);
    AreasCounted(h, e);
    FirstsCount(done);
    FirstsOfPart(done, StackOrder(t, b, stack));
    assert Firsts(WalkOrder(t, b, 1))[..|Firsts(done)|] == Firsts(done);
  }

  lemma WalkStarts(t: Bsp, b: Box, h: Heap, e: int)
    requires Valid(h) && TreeOk(t) && IsEntity(h, e) && h.ofentity[e + 1] == []
    ensures ChildOk(t, 1) && StackOk(t, [1]) && StackShort(t, [1]) && OthersSame(h, h, e)
      && Unfinished(t, b, h, h, e, [1])
  {
    hide ValidBut, InFront, Behind;
    OthersSelf(h, e);
    Pushed(t, b, [], 1);
    assert [] + [1] == [1];
    assert ComeTo(t, b, [], [1]) && AreasOf(h, e) == Elements<nat>([]);
  }

  lemma Popped(t: Bsp, b: Box, rest: seq<int>, n: int)
    requires TreeOk(t) && StackOk(t, rest + [n]) && ChildOk(t, 1) && StackShort(t, rest + [n])
    ensures StackOk(t, rest) && StackShort(t, rest) && ChildOk(t, n)
    ensures StackWeight(t, rest) < StackWeight(t, rest + [n])
    ensures StackAreas(t, b, rest + [n]) == AreasOfBox(t, b, n) + StackAreas(t, b, rest)
    ensures StackOrder(t, b, rest + [n]) == WalkOrder(t, b, n) + StackOrder(t, b, rest)
  {
    hide InFront, Behind, AreasOfBox, WalkOrder;
    assert (rest + [n])[|rest|] == n;
    forall i | 0 <= i < |rest| ensures ChildOk(t, rest[i]) && i + Rank(t, rest[i]) <= Rank(t, 1) {
      assert (rest + [n])[i] == rest[i];
    }
    Pushed(t, b, rest, n);
  }

  /** A free link is left, and the area is linked. */
  lemma AreaAdded(t: Bsp, b: Box, h0: Heap, h: Heap, e: int, rest: seq<int>, n: int)
    requires Valid(h) && TreeOk(t) && t.numareas <= |h.ofarea| && IsEntity(h, e) && StackOk(t, rest + [n])
      && StackOk(t, rest)
    requires ChildOk(t, n) && n < 0 && StackAreas(t, b, rest + [n]) == AreasOfBox(t, b, n) + StackAreas(t, b, rest)
    requires StackOrder(t, b, rest + [n]) == WalkOrder(t, b, n) + StackOrder(t, b, rest)
    requires Unfinished(t, b, h0, h, e, rest + [n]) && NotIn(h, e, -n) && OthersSame(h0, h, e) && h.free != []
    ensures -n < |h.ofarea| == |h.arealinkedentities| && h.free[0] < |h.links| && Valid(Linked(h, e, -n))
    ensures OthersSame(h0, Linked(h, e, -n), e) && IsEntity(Linked(h, e, -n), e)
      && |Linked(h, e, -n).ofarea| == |h.ofarea|
    ensures Linked(h, e, -n).ofentity[e + 1] == [h.free[0]] + h.ofentity[e + 1]
    ensures |Linked(h, e, -n).ofentity| == |h.ofentity| && |Linked(h, e, -n).free| == |h.free| - 1
    ensures Unfinished(t, b, h0, Linked(h, e, -n), e, rest)
  {
    hide ValidBut, Linked, NotIn, AreasOf, StackAreas, StackOrder, WalkOrder, ComeTo, StackOk, InFront, Behind;
    assert |h.ofarea| == |h.arealinkedentities| by { HeadsAre(h, e, -n); }
    LinkedValid(h, e, -n);
    LinkedAreas(h, e, -n);
    OthersThrough(h0, h, Linked(h, e, -n), e);
    MoreDone(t, b, h0, h, e, rest, n);
  }

  /** No link is left, with an area still to be linked: the box has more areas than there were free links. */
  lemma LinksRanOut(t: Bsp, b: Box, h0: Heap, h: Heap, e: int, rest: seq<int>, n: int)
    requires Valid(h) && TreeOk(t) && IsEntity(h, e) && StackOk(t, rest + [n]) && StackOk(t, rest)
    requires ChildOk(t, n) && n < 0 && StackAreas(t, b, rest + [n]) == AreasOfBox(t, b, n) + StackAreas(t, b, rest)
    requires StackOrder(t, b, rest + [n]) == WalkOrder(t, b, n) + StackOrder(t, b, rest)
    requires Unfinished(t, b, h0, h, e, rest + [n]) && NotIn(h, e, -n) && h.free == []
    ensures AreasOf(h, e) <= AreasOfBox(t, b, 1) && |AreasOfBox(t, b, 1)| > |h0.free|
  {
    hide ValidBut, StackAreas, StackOrder, WalkOrder, ComeTo, StackOk, AreasOf, NotIn, InFront, Behind, Valid;
    AreasCounted(h, e);
    NotAmong(h, e, -n);
    Larger(AreasOf(h, e) + {-n}, AreasOfBox(t, b, 1));
  }

  lemma MoreDone(t: Bsp, b: Box, h0: Heap, h: Heap, e: int, rest: seq<int>, n: int)
    requires TreeOk(t) && IsEntity(h, e) && StackOk(t, rest + [n]) && StackOk(t, rest) && ChildOk(t, n) && n < 0
    requires StackOrder(t, b, rest + [n]) == WalkOrder(t, b, n) + StackOrder(t, b, rest)
    requires Unfinished(t, b, h0, h, e, rest + [n])
    ensures exists done: seq<nat> :: ComeTo(t, b, done, rest) && AreasOf(h, e) + {-n} == Elements(done)
  {
    hide AreasOf, StackAreas, StackOrder, AreasOfBox;
    var done: seq<nat> :| ComeTo(t, b, done, rest + [n]) && AreasOf(h, e) == Elements(done);
    ElementsAppend<nat>(done, -n);
    assert done + ([-n] + StackOrder(t, b, rest)) == done + [-n] + StackOrder(t, b, rest);
    assert ComeTo(t, b, done + [-n], rest);
  }

  lemma NotAmong(h: Heap, e: int, a: nat)
    requires IsEntity(h, e) && NotIn(h, e, a)
    ensures a !in AreasOf(h, e)
  {
  }

  lemma Larger(x: set<nat>, y: set<nat>)
    requires x <= y
    ensures |x| <= |y|
  {
    assert y == x + (y - x);
  }

  lemma AreaThere(t: Bsp, b: Box, h0: Heap, h: Heap, e: int, rest: seq<int>, n: int)
    requires TreeOk(t) && IsEntity(h, e) && StackOk(t, rest + [n]) && StackOk(t, rest)
    requires ChildOk(t, n) && n < 0 && StackAreas(t, b, rest + [n]) == AreasOfBox(t, b, n) + StackAreas(t, b, rest)
    requires StackOrder(t, b, rest + [n]) == WalkOrder(t, b, n) + StackOrder(t, b, rest)
    requires Unfinished(t, b, h0, h, e, rest + [n]) && -n in AreasOf(h, e)
    ensures Unfinished(t, b, h0, h, e, rest)
  {
    hide AreasOf, StackAreas, StackOrder, WalkOrder, InFront, Behind;
    MoreDone(t, b, h0, h, e, rest, n);
    assert AreasOf(h, e) + {-n} == AreasOf(h, e);
  }

  lemma SolidLeaf(t: Bsp, b: Box, h0: Heap, h: Heap, e: int, rest: seq<int>)
    requires TreeOk(t) && IsEntity(h, e) && StackOk(t, rest + [0]) && StackOk(t, rest)
    requires ChildOk(t, 0) && StackAreas(t, b, rest + [0]) == AreasOfBox(t, b, 0) + StackAreas(t, b, rest)
    requires StackOrder(t, b, rest + [0]) == WalkOrder(t, b, 0) + StackOrder(t, b, rest)
    requires Unfinished(t, b, h0, h, e, rest + [0])
    ensures Unfinished(t, b, h0, h, e, rest)
  {
    hide AreasOf, StackAreas, StackOrder, InFront, Behind;
    var done: seq<nat> :| ComeTo(t, b, done, rest + [0]) && AreasOf(h, e) == Elements(done);
    assert ComeTo(t, b, done, rest);
  }

  lemma NodeIs(t: Bsp, n: int)
    requires TreeOk(t) && ChildOk(t, n) && 0 < n
    ensures n < |t.nodes| && t.nodes[n].planenum < |t.planes| && ChildOk(t, 1)
  {
    assert NodeOk(t, n);
  }

  lemma StillUnfinished(t: Bsp, b: Box, h0: Heap, h: Heap, e: int, stack: seq<int>, next: seq<int>)
    requires TreeOk(t) && IsEntity(h, e) && StackOk(t, stack) && StackOk(t, next) && Unfinished(t, b, h0, h, e, stack)
    requires StackAreas(t, b, next) == StackAreas(t, b, stack) && StackOrder(t, b, next) == StackOrder(t, b, stack)
    ensures Unfinished(t, b, h0, h, e, next)
  {
    hide AreasOf, StackAreas, StackOrder, WalkOrder;
    var done: seq<nat> :| ComeTo(t, b, done, stack) && AreasOf(h, e) == Elements(done);
    assert ComeTo(t, b, done, next);
  }

  /** The stack overflows only if the tree is as deep as it. */
  lemma Overflows(t: Bsp, b: Box, h0: Heap, h: Heap, e: int, stack: seq<int>, full: seq<int>, next: seq<int>)
    requires TreeOk(t) && IsEntity(h, e) && StackOk(t, stack) && Unfinished(t, b, h0, h, e, stack)
    requires ChildOk(t, 1) && StackOk(t, full) && StackShort(t, full) && LAST <= |next| <= |full|
    ensures AreasOf(h, e) <= AreasOfBox(t, b, 1) && Rank(t, 1) + 1 >= LAST
  {
    hide AreasOf, StackAreas, AreasOfBox;
    assert ChildOk(t, full[|full| - 1]) && |full| - 1 + Rank(t, full[|full| - 1]) <= Rank(t, 1);
  }

  lemma WalkEnds(t: Bsp, b: Box, h0: Heap, h: Heap, e: int)
    requires TreeOk(t) && IsEntity(h, e) && StackOk(t, []) && Unfinished(t, b, h0, h, e, [])
    ensures AreasOf(h, e) == AreasOfBox(t, b, 1)
  {
    hide AreasOf, AreasOfBox;
  }

  lemma FreeCount(h: Heap)
    requires Valid(h)
    ensures h.numaaslinks == |h.free|
  {
  }

  lemma ListIs(h: Heap, e: int)
    requires Valid(h) && IsEntity(h, e)
    ensures var list := h.ofentity[e + 1];
      forall i | 0 <= i < |list| :: list[i] < |h.links| && h.links[list[i]].next_area == Entry(list, i + 1)
  {
    hide FreeOk, AreaOk, BackOk, PlaceOk, OnceOk;
    assert EntityOk(h, e);
    var list := h.ofentity[e + 1];
    forall i: nat | i < |list| ensures list[i] < |h.links| && h.links[list[i]].next_area == Entry(list, i + 1) {
      assert OnEntity(h, e, i);
    }
  }

  /** Areas listed along the entity's links are different areas it is linked to. */
  lemma ListedAreas(h: Heap, e: int, areas: seq<nat>)
    requires Valid(h) && IsEntity(h, e) && |areas| <= |h.ofentity[e + 1]|
    requires forall i | 0 <= i < |areas| ::
      h.ofentity[e + 1][i] < |h.links| && areas[i] == h.links[h.ofentity[e + 1][i]].areanum
    ensures Counting.Distinct(areas) && (forall a | a in areas :: a in AreasOf(h, e))
    ensures |AreasOf(h, e)| == |h.ofentity[e + 1]|
  {
    hide FreeOk, AreaOk, BackOk, PlaceOk, EntityOk;
    AreasCounted(h, e);
    var list := h.ofentity[e + 1];
    forall i: nat, j: nat | i < j < |areas| ensures areas[i] != areas[j] {
      assert OnceAt(h, e + 1, i, j);
    }
    forall a | a in areas ensures a in AreasOf(h, e) {
      var i :| 0 <= i < |areas| && areas[i] == a;
      assert list[i] in list;
    }
  }

  /** Every point of the box that is touched nowhere, such as one strictly inside, is in solid or in an area the
      entity is linked to; for an area with one leaf exactly those points are. */
  lemma LinkedAreasCover(t: Bsp, b: Box, h: Heap, e: int, point: Vec3)
    requires TreeOk(t) && IsEntity(h, e) && AreasOf(h, e) == AreasOfBox(t, b, 1) && In(point, b)
    ensures var a := AreaOfPoint(t, point, 1);
      && (!Touched(t, b, point, 1) ==> a == 0 || a in AreasOf(h, e))
      && (a > 0 && OneLeaf(t, 1, a) ==> (a in AreasOf(h, e) <==> !Touched(t, b, point, 1)))
    ensures PlanesOk(t) && StrictlyIn(point, b) ==> !Touched(t, b, point, 1)
  {
    hide AreasOf;
    PointsAreCovered(t, b, point, 1);
    if PlanesOk(t) && StrictlyIn(point, b) {
      InnerIsUntouched(t, b, point, 1);
    }
  }
}
