/** The BSP tree of the areas: finding the area of a point, and the areas a box is in. */
module AreaTree {
  import opened AasFile

  datatype Plane = Plane(normal: Vec3, dist: real)

  /** A child above 0 is a node, 0 is solid, below 0 it is an area with the sign changed. */
  datatype Node = Node(planenum: nat, child0: int, child1: int)

  /** rank witnesses that nodes do not form a cycle: it drops from a node to its children. */
  datatype Bsp = Bsp(nodes: seq<Node>, planes: seq<Plane>, rank: seq<nat>, numareas: nat)

  ghost predicate ChildOk(t: Bsp, n: int) {
    n < |t.nodes| && -n < t.numareas
  }

  ghost predicate NodeOk(t: Bsp, n: nat)
    requires n < |t.nodes| == |t.rank|
  {
    var node := t.nodes[n];
    && node.planenum < |t.planes| && ChildOk(t, node.child0) && ChildOk(t, node.child1)
    && (node.child0 > 0 ==> t.rank[node.child0] < t.rank[n]) && (node.child1 > 0 ==> t.rank[node.child1] < t.rank[n])
  }

  /** Node 0 is a dummy, node 1 the root. */
  ghost predicate TreeOk(t: Bsp) {
    1 < |t.nodes| == |t.rank| && 0 < t.numareas && forall n | 0 < n < |t.nodes| :: NodeOk(t, n)
  }

  /** No plane has a zero normal. */
  ghost predicate PlanesOk(t: Bsp) {
    forall p | 0 <= p < |t.planes| :: t.planes[p].normal != Vec3(0.0, 0.0, 0.0)
  }

  ghost function Rank(t: Bsp, n: int): nat
    requires TreeOk(t) && ChildOk(t, n)
  {
    if n <= 0 then 0 else t.rank[n] + 1
  }

  function Times(x: real, y: real): real { x * y }

  function Dot(a: Vec3, b: Vec3): real {
    Times(a.x, b.x) + Times(a.y, b.y) + Times(a.z, b.z)
  }

  function Dist(p: Plane, v: Vec3): real {
    Dot(p.normal, v) - p.dist
  }

  // ----- points

  /** The area below node n that the point is in, 0 if it is in solid. */
  ghost function AreaOfPoint(t: Bsp, point: Vec3, n: int): nat
    requires TreeOk(t) && ChildOk(t, n)
    decreases Rank(t, n)
  {
    if n <= 0 then -n
    else
      assert NodeOk(t, n);
      if Dist(t.planes[t.nodes[n].planenum], point) > 0.0 then AreaOfPoint(t, point, t.nodes[n].child0)
      else AreaOfPoint(t, point, t.nodes[n].child1)
  }

  method PointAreaNum(t: Bsp, point: Vec3) returns (area: nat)
    requires TreeOk(t)
    ensures area == AreaOfPoint(t, point, 1)
  {
    var nodenum: int := 1;
    while nodenum > 0
      invariant ChildOk(t, nodenum) && AreaOfPoint(t, point, nodenum) == AreaOfPoint(t, point, 1)
      decreases Rank(t, nodenum)
    {
      assert NodeOk(t, nodenum);
      var node := t.nodes[nodenum];
      var plane := t.planes[node.planenum];
      var dist := Dist(plane, point);
      if dist > 0.0 {
        nodenum := node.child0;
      } else {
        nodenum := node.child1;
      }
    }
    area := -nodenum;
  }

  // ----- boxes

  datatype Box = Box(mins: Vec3, maxs: Vec3)

  ghost predicate In(v: Vec3, b: Box) {
    b.mins.x <= v.x <= b.maxs.x && b.mins.y <= v.y <= b.maxs.y && b.mins.z <= v.z <= b.maxs.z
  }

  ghost predicate StrictlyIn(v: Vec3, b: Box) {
    b.mins.x < v.x < b.maxs.x && b.mins.y < v.y < b.maxs.y && b.mins.z < v.z < b.maxs.z
  }

  function Far(n: real, lo: real, hi: real): real { if n < 0.0 then lo else hi }

  function Near(n: real, lo: real, hi: real): real { if n < 0.0 then hi else lo }

  /** The corners of the box farthest in front of and behind the plane. */
  function FrontCorner(b: Box, p: Plane): Vec3 {
    var n := p.normal;
    Vec3(Far(n.x, b.mins.x, b.maxs.x), Far(n.y, b.mins.y, b.maxs.y), Far(n.z, b.mins.z, b.maxs.z))
  }

  function BackCorner(b: Box, p: Plane): Vec3 {
    var n := p.normal;
    Vec3(Near(n.x, b.mins.x, b.maxs.x), Near(n.y, b.mins.y, b.maxs.y), Near(n.z, b.mins.z, b.maxs.z))
  }

  const FRONT: bv8 := 1
  const BACK: bv8 := 2

  function BoxOnPlaneSide2(b: Box, p: Plane): bv8 {
    (if Dist(p, FrontCorner(b, p)) >= 0.0 then FRONT else 0) | (if Dist(p, BackCorner(b, p)) < 0.0 then BACK else 0)
  }

  predicate InFront(b: Box, p: Plane) { BoxOnPlaneSide2(b, p) & FRONT != 0 }

  predicate Behind(b: Box, p: Plane) { BoxOnPlaneSide2(b, p) & BACK != 0 }

  lemma SideBits(x: bool, y: bool)
    ensures var s: bv8 := (if x then FRONT else 0) | (if y then BACK else 0);
      (s & FRONT != 0) == x && (s & BACK != 0) == y
  {
  }

  lemma Sides(b: Box, p: Plane)
    ensures InFront(b, p) == (Dist(p, FrontCorner(b, p)) >= 0.0) && Behind(b, p) == (Dist(p, BackCorner(b, p)) < 0.0)
  {
    SideBits(Dist(p, FrontCorner(b, p)) >= 0.0, Dist(p, BackCorner(b, p)) < 0.0);
  }

  lemma Product(x: real, y: real)
    requires x >= 0.0 && y >= 0.0
    ensures x * y >= 0.0 && (x > 0.0 && y > 0.0 ==> x * y > 0.0)
  {
  }

  lemma TimesOrdered(n: real, x: real, y: real)
    requires x <= y
    ensures n >= 0.0 ==> Times(n, x) <= Times(n, y)
    ensures n <= 0.0 ==> Times(n, y) <= Times(n, x)
    ensures x < y && n > 0.0 ==> Times(n, x) < Times(n, y)
    ensures x < y && n < 0.0 ==> Times(n, y) < Times(n, x)
  {
    if n >= 0.0 {
      Product(n, y - x);
      assert n * (y - x) == n * y - n * x;
    } else {
      Product(-n, y - x);
      assert (-n) * (y - x) == n * x - n * y;
    }
  }

  lemma Extreme(n: real, lo: real, hi: real, v: real)
    requires lo <= v <= hi
    ensures Times(n, Near(n, lo, hi)) <= Times(n, v) <= Times(n, Far(n, lo, hi))
    ensures lo < v < hi && n != 0.0 ==> Times(n, Near(n, lo, hi)) < Times(n, v) < Times(n, Far(n, lo, hi))
  {
    hide Times;
    TimesOrdered(n, lo, v);
    TimesOrdered(n, v, hi);
  }

  lemma SumsOrdered(x0: real, x1: real, x2: real, y0: real, y1: real, y2: real, z0: real, z1: real, z2: real, d: real)
    requires x0 <= x1 <= x2 && y0 <= y1 <= y2 && z0 <= z1 <= z2
    ensures x0 + y0 + z0 - d <= x1 + y1 + z1 - d <= x2 + y2 + z2 - d
    ensures x0 < x1 < x2 || y0 < y1 < y2 || z0 < z1 < z2 ==> x0 + y0 + z0 - d < x1 + y1 + z1 - d < x2 + y2 + z2 - d
  {
  }

  /** No point of the box is farther in front of the plane, or behind it, than these corners; none inside is as far. */
  lemma CornersAreExtreme(b: Box, p: Plane, v: Vec3)
    requires In(v, b)
    ensures Dist(p, BackCorner(b, p)) <= Dist(p, v) <= Dist(p, FrontCorner(b, p))
    ensures StrictlyIn(v, b) && p.normal != Vec3(0.0, 0.0, 0.0) ==>
      Dist(p, BackCorner(b, p)) < Dist(p, v) < Dist(p, FrontCorner(b, p))
  {
    hide Near, Far, Times;
    Extreme(p.normal.x, b.mins.x, b.maxs.x, v.x);
    Extreme(p.normal.y, b.mins.y, b.maxs.y, v.y);
    Extreme(p.normal.z, b.mins.z, b.maxs.z, v.z);
    var n, f, k := p.normal, FrontCorner(b, p), BackCorner(b, p);
    SumsOrdered(Times(n.x, k.x), Times(n.x, v.x), Times(n.x, f.x), Times(n.y, k.y), Times(n.y, v.y), Times(n.y, f.y),
      Times(n.z, k.z), Times(n.z, v.z), Times(n.z, f.z), p.dist);
  }

  /** The sides are exactly those on which the box has points; the plane itself counts as in front. */
  lemma SidesAreExact(b: Box, p: Plane)
    requires In(b.mins, b)
    ensures InFront(b, p) <==> exists v: Vec3 :: In(v, b) && Dist(p, v) >= 0.0
    ensures Behind(b, p) <==> exists v: Vec3 :: In(v, b) && Dist(p, v) < 0.0
  {
    hide Dist, InFront, Behind;
    Sides(b, p);
    assert In(FrontCorner(b, p), b) && In(BackCorner(b, p), b);
    forall v: Vec3 | In(v, b) ensures Dist(p, BackCorner(b, p)) <= Dist(p, v) <= Dist(p, FrontCorner(b, p)) {
      CornersAreExtreme(b, p, v);
    }
  }

  /** The areas below node n the walk with the box comes to. */
  ghost function AreasOfBox(t: Bsp, b: Box, n: int): set<nat>
    requires TreeOk(t) && ChildOk(t, n)
    decreases Rank(t, n)
  {
    if n < 0 then {-n}
    else if n == 0 then {}
    else
      assert NodeOk(t, n);
      var node := t.nodes[n];
      (if InFront(b, t.planes[node.planenum]) then AreasOfBox(t, b, node.child0) else {})
      + (if Behind(b, t.planes[node.planenum]) then AreasOfBox(t, b, node.child1) else {})
  }

  // ----- the way down the tree

  /** A way from node n to a leaf: at every node, is it on to the child in front? */
  ghost predicate IsWay(t: Bsp, n: int, way: seq<bool>)
    requires TreeOk(t) && ChildOk(t, n)
    decreases Rank(t, n)
  {
    if n <= 0 then way == []
    else
      assert NodeOk(t, n);
      way != [] && IsWay(t, if way[0] then t.nodes[n].child0 else t.nodes[n].child1, way[1..])
  }

  /** The area at the end of a way, 0 for solid. */
  ghost function AreaAt(t: Bsp, n: int, way: seq<bool>): nat
    requires TreeOk(t) && ChildOk(t, n) && IsWay(t, n, way)
    decreases Rank(t, n)
  {
    if n <= 0 then -n
    else
      assert NodeOk(t, n);
      AreaAt(t, if way[0] then t.nodes[n].child0 else t.nodes[n].child1, way[1..])
  }

  /** The way point location goes. */
  ghost function WayOf(t: Bsp, point: Vec3, n: int): (way: seq<bool>)
    requires TreeOk(t) && ChildOk(t, n)
    ensures IsWay(t, n, way) && AreaAt(t, n, way) == AreaOfPoint(t, point, n)
    decreases Rank(t, n)
  {
    hide Dist;
    if n <= 0 then []
    else
      assert NodeOk(t, n);
      var front := Dist(t.planes[t.nodes[n].planenum], point) > 0.0;
      [front] + WayOf(t, point, if front then t.nodes[n].child0 else t.nodes[n].child1)
  }

  /** The point is in front of the plane. */
  ghost predicate Above(p: Plane, v: Vec3) {
    p.normal.x * v.x + p.normal.y * v.y + p.normal.z * v.z > p.dist
  }

  /** The way is in front exactly where the point is. */
  ghost predicate Separates(t: Bsp, point: Vec3, n: int, way: seq<bool>)
    requires TreeOk(t) && ChildOk(t, n) && IsWay(t, n, way)
    decreases Rank(t, n)
  {
    n <= 0 ||
    (assert NodeOk(t, n);
     && (way[0] <==> Above(t.planes[t.nodes[n].planenum], point))
     && Separates(t, point, if way[0] then t.nodes[n].child0 else t.nodes[n].child1, way[1..]))
  }

  /** The area of a point is that at the end of the only way that is in front of the planes on it exactly where the
      point is. */
  lemma {:induction false} PointIsSeparated(t: Bsp, point: Vec3, n: int, way: seq<bool>)
    requires TreeOk(t) && ChildOk(t, n) && IsWay(t, n, way) && Separates(t, point, n, way)
    ensures AreaOfPoint(t, point, n) == AreaAt(t, n, way) && way == WayOf(t, point, n)
    decreases Rank(t, n)
  {
    hide Dist, Above;
    if n > 0 {
      assert NodeOk(t, n);
      DistIs(t.planes[t.nodes[n].planenum], point);
      PointIsSeparated(t, point, if way[0] then t.nodes[n].child0 else t.nodes[n].child1, way[1..]);
      assert way == [way[0]] + way[1..];
    }
  }

  lemma DistIs(p: Plane, v: Vec3)
    ensures Dist(p, v) > 0.0 <==> Above(p, v)
    ensures Dist(p, v) == p.normal.x * v.x + p.normal.y * v.y + p.normal.z * v.z - p.dist
  {
  }

  /** The walk with the box goes this way, among others. */
  ghost predicate Goes(t: Bsp, b: Box, n: int, way: seq<bool>)
    requires TreeOk(t) && ChildOk(t, n) && IsWay(t, n, way)
    decreases Rank(t, n)
  {
    n <= 0 ||
    (assert NodeOk(t, n);
     var plane := t.planes[t.nodes[n].planenum];
     && (if way[0] then InFront(b, plane) else Behind(b, plane))
     && Goes(t, b, if way[0] then t.nodes[n].child0 else t.nodes[n].child1, way[1..]))
  }

  /** The walk with the box goes this way to area a. */
  ghost predicate GoesTo(t: Bsp, b: Box, n: int, way: seq<bool>, a: nat)
    requires TreeOk(t) && ChildOk(t, n)
  {
    IsWay(t, n, way) && Goes(t, b, n, way) && AreaAt(t, n, way) == a
  }

  /** The areas of the box are those at the ends of the ways taken. */
  lemma {:induction false} AreasAreReached(t: Bsp, b: Box, n: int, a: nat)
    requires TreeOk(t) && ChildOk(t, n) && a > 0
    ensures a in AreasOfBox(t, b, n) <==> exists way :: GoesTo(t, b, n, way, a)
    decreases Rank(t, n)
  {
    hide InFront, Behind;
    if n <= 0 {
      assert GoesTo(t, b, n, [], a) <==> -n == a;
      assert forall way :: IsWay(t, n, way) ==> way == [];
    } else {
      assert NodeOk(t, n);
      var node := t.nodes[n];
      AreasAreReached(t, b, node.child0, a);
      AreasAreReached(t, b, node.child1, a);
      forall way
        ensures InFront(b, t.planes[node.planenum]) && GoesTo(t, b, node.child0, way, a) <==>
          GoesTo(t, b, n, [true] + way, a)
      {
        assert ([true] + way)[1..] == way;
      }
      forall way
        ensures Behind(b, t.planes[node.planenum]) && GoesTo(t, b, node.child1, way, a) <==>
          GoesTo(t, b, n, [false] + way, a)
      {
        assert ([false] + way)[1..] == way;
      }
      if way :| GoesTo(t, b, n, way, a) {
        assert way == [way[0]] + way[1..];
      }
    }
  }

  // ----- boxes and points

  /** The point is on the plane of node n, and no point of the box is behind that plane. */
  ghost predicate Touches(t: Bsp, b: Box, point: Vec3, n: nat)
    requires TreeOk(t) && 0 < n < |t.nodes|
  {
    assert NodeOk(t, n);
    var plane := t.planes[t.nodes[n].planenum];
    Dist(plane, point) == 0.0 && Dist(plane, BackCorner(b, plane)) == 0.0
  }

  /** So it is at some node on the way of the point. */
  ghost predicate Touched(t: Bsp, b: Box, point: Vec3, n: int)
    requires TreeOk(t) && ChildOk(t, n)
    decreases Rank(t, n)
  {
    n > 0 &&
    (assert NodeOk(t, n);
     Touches(t, b, point, n) ||
     Touched(t, b, point, if Dist(t.planes[t.nodes[n].planenum], point) > 0.0 then t.nodes[n].child0
       else t.nodes[n].child1))
  }

  /** The walk with the box goes the way of a point of the box exactly if it is touched nowhere. */
  lemma {:induction false} WayIsTaken(t: Bsp, b: Box, point: Vec3, n: int)
    requires TreeOk(t) && ChildOk(t, n) && In(point, b)
    ensures Goes(t, b, n, WayOf(t, point, n)) <==> !Touched(t, b, point, n)
    decreases Rank(t, n)
  {
    hide InFront, Behind, Dist, BackCorner, FrontCorner;
    if n > 0 {
      assert NodeOk(t, n);
      var plane := t.planes[t.nodes[n].planenum];
      CornersAreExtreme(b, plane, point);
      Sides(b, plane);
      var next := if Dist(plane, point) > 0.0 then t.nodes[n].child0 else t.nodes[n].child1;
      WayIsTaken(t, b, point, next);
      assert WayOf(t, point, n)[1..] == WayOf(t, point, next);
    }
  }

  /** No other way leads to area a. */
  ghost predicate OneLeaf(t: Bsp, n: int, a: nat)
    requires TreeOk(t) && ChildOk(t, n)
  {
    forall v, w | IsWay(t, n, v) && IsWay(t, n, w) && AreaAt(t, n, v) == a && AreaAt(t, n, w) == a :: v == w
  }

  /** A point of the box that is touched nowhere is in solid or in one of the areas of the box; for an area with
      one leaf there is no other case. */
  lemma PointsAreCovered(t: Bsp, b: Box, point: Vec3, n: int)
    requires TreeOk(t) && ChildOk(t, n) && In(point, b)
    ensures !Touched(t, b, point, n) ==>
      AreaOfPoint(t, point, n) == 0 || AreaOfPoint(t, point, n) in AreasOfBox(t, b, n)
    ensures AreaOfPoint(t, point, n) > 0 && OneLeaf(t, n, AreaOfPoint(t, point, n)) ==>
      (AreaOfPoint(t, point, n) in AreasOfBox(t, b, n) <==> !Touched(t, b, point, n))
  {
    hide Goes, Touched, AreasOfBox, IsWay, AreaOfPoint;
    var a := AreaOfPoint(t, point, n);
    WayIsTaken(t, b, point, n);
    if a > 0 {
      AreasAreReached(t, b, n, a);
      assert GoesTo(t, b, n, WayOf(t, point, n), a) <==> !Touched(t, b, point, n);
    }
  }

  /** A point strictly inside the box is touched nowhere. */
  lemma {:induction false} InnerIsUntouched(t: Bsp, b: Box, point: Vec3, n: int)
    requires TreeOk(t) && PlanesOk(t) && ChildOk(t, n) && StrictlyIn(point, b)
    ensures !Touched(t, b, point, n)
    decreases Rank(t, n)
  {
    hide Dist, BackCorner;
    if n > 0 {
      assert NodeOk(t, n);
      var plane := t.planes[t.nodes[n].planenum];
      CornersAreExtreme(b, plane, point);
      InnerIsUntouched(t, b, point, if Dist(plane, point) > 0.0 then t.nodes[n].child0 else t.nodes[n].child1);
    }
  }

  /** On a plane that touches the box points are not covered: the point (0,0,0) of the box from there to (1,1,1) is
      behind the plane x = 0 for point location, but no point of the box is behind it for the box. */
  lemma BoundaryIsNotCovered(t: Bsp, b: Box, point: Vec3)
    requires t == Bsp([Node(0, 0, 0), Node(0, -1, -2)], [Plane(Vec3(1.0, 0.0, 0.0), 0.0)], [0, 0], 3)
    requires b == Box(Vec3(0.0, 0.0, 0.0), Vec3(1.0, 1.0, 1.0)) && point == b.mins
    ensures TreeOk(t) && PlanesOk(t) && In(point, b) && Touched(t, b, point, 1)
    ensures AreaOfPoint(t, point, 1) == 2 && AreasOfBox(t, b, 1) == {1}
  {
    hide AreasOfBox, InFront, Behind, Dist;
    assert NodeOk(t, 1);
    UnitBox(b, t.planes[0]);
    FrontOnly(t, b);
    assert AreaOfPoint(t, point, 1) == AreaOfPoint(t, point, -2);
    assert BackCorner(b, t.planes[0]) == point by { UnitCorners(b, t.planes[0]); }
    assert Touches(t, b, point, 1);
  }

  lemma Units()
    ensures Times(1.0, 0.0) == Times(0.0, 0.0) == Times(0.0, 1.0) == 0.0 && Times(1.0, 1.0) == 1.0
  {
  }

  lemma UnitBox(b: Box, p: Plane)
    requires p == Plane(Vec3(1.0, 0.0, 0.0), 0.0) && b == Box(Vec3(0.0, 0.0, 0.0), Vec3(1.0, 1.0, 1.0))
    ensures InFront(b, p) && !Behind(b, p) && Dist(p, b.mins) == 0.0
  {
    hide InFront, Behind, Dist, FrontCorner, BackCorner, BoxOnPlaneSide2;
    UnitCorners(b, p);
    UnitDistances(b, p);
    Sides(b, p);
  }

  lemma UnitCorners(b: Box, p: Plane)
    requires p == Plane(Vec3(1.0, 0.0, 0.0), 0.0)
    ensures FrontCorner(b, p) == b.maxs && BackCorner(b, p) == b.mins
  {
  }

  lemma UnitDistances(b: Box, p: Plane)
    requires p == Plane(Vec3(1.0, 0.0, 0.0), 0.0) && b == Box(Vec3(0.0, 0.0, 0.0), Vec3(1.0, 1.0, 1.0))
    ensures Dist(p, b.mins) == 0.0 && Dist(p, b.maxs) == 1.0
  {
    hide Times;
    assert Times(1.0, 0.0) == Times(0.0, 0.0) == Times(0.0, 1.0) == 0.0 && Times(1.0, 1.0) == 1.0 by { Units(); }
  }

  lemma FrontOnly(t: Bsp, b: Box)
    requires TreeOk(t) && t.nodes[1] == Node(0, -1, -2) && ChildOk(t, 1) && 0 < |t.planes|
    requires InFront(b, t.planes[0]) && !Behind(b, t.planes[0])
    ensures AreasOfBox(t, b, 1) == {1}
  {
    hide InFront, Behind;
    assert NodeOk(t, 1);
    assert AreasOfBox(t, b, -1) == {1};
  }
}
