/** What the optimized file keeps of the original. */
module OptimizedFile {
  import opened AasFile
  import opened AasGeometry
  import opened OptimizedTables
  import opened OptimizedUses
  import opened Counting

  function TravelType(r: Reachability): bv32 { r.traveltype & TRAVELTYPE_MASK }

  /** The face and edge numbers of these reachabilities mean something else. */
  predicate IsCoded(r: Reachability) {
    TravelType(r) == TRAVEL_ELEVATOR || TravelType(r) == TRAVEL_JUMPPAD || TravelType(r) == TRAVEL_FUNCBOB
  }

  /** The edge number of a grapple reachability is its release window. */
  predicate IsGrapple(r: Reachability) { TravelType(r) == TRAVEL_GRAPPLEHOOK }

  ghost predicate RefsOk(f: Tables, r: Reachability) {
    !IsCoded(r) ==> Abs(r.facenum) < |f.faces| && (!IsGrapple(r) ==> Abs(r.edgenum) < |f.edges|)
  }

  /** A number with its sign, after renumbering. */
  function Renumbered(index: seq<nat>, n: int): int
    requires Abs(n) < |index|
  {
    var m: int := index[Abs(n)];
    if n < 0 then -m else m
  }

  ghost predicate IsRemapped(f: Tables, s: State, r0: Reachability, r1: Reachability)
    requires |s.faceoptimizeindex| == |f.faces| && |s.edgeoptimizeindex| == |f.edges| && RefsOk(f, r0)
  {
    if IsCoded(r0) then r1 == r0
    else if IsGrapple(r0) then r1 == r0.(facenum := Renumbered(s.faceoptimizeindex, r0.facenum))
    else r1 == r0.(facenum := Renumbered(s.faceoptimizeindex, r0.facenum),
      edgenum := Renumbered(s.edgeoptimizeindex, r0.edgenum))
  }

  /** Some grapple reachability is anchored at face n. */
  ghost predicate Anchors(reachability: seq<Reachability>, n: nat) {
    n > 0 && exists i :: 0 <= i < |reachability| && IsGrapple(reachability[i]) && Abs(reachability[i].facenum) == n
  }

  ghost predicate MarksOk(f: Tables, reachability: seq<Reachability>, keep: seq<bool>) {
    |keep| == |f.faces| && forall n | 0 <= n < |keep| :: keep[n] <==> Anchors(reachability, n)
  }

  /** The file the optimizer takes: every area's faces and every face's edges are there, each with a slice of its own.
      */
  ghost predicate FileOk(f: Tables, reachability: seq<Reachability>) {
    && |f.areas| > 0 && |f.faces| > 0 && |f.edges| > 0
    && (forall a | 0 < a < |f.areas| :: AreaOk(f, a)) && FacesApart(f) && AreasApart(f)
    && forall i | 0 <= i < |reachability| :: RefsOk(f, reachability[i])
  }

  /** The optimizer's result: all areas done, reachabilities renumbered. */
  ghost predicate Result(f: Tables, reachability: seq<Reachability>, keep: seq<bool>, s: State,
                         reached: seq<Reachability>) {
    && FileOk(f, reachability) && MarksOk(f, reachability, keep)
    && Valid(f, keep, s) && EdgeSlotsOk(f, s) && SlotsBelow(f, s, |f.areas|, 0) && |s.t.areas| == |f.areas|
    && Dummies(s.t)
    && (forall a | 0 < a < |f.areas| :: AreaDone(f, keep, s, a))
    && AllUsed(f, s, FileUses(f, keep, |f.areas|))
    && |reached| == |reachability|
    && (forall i | 0 <= i < |reachability| :: IsRemapped(f, s, reachability[i], reached[i]))
  }

  lemma ResultSizes(f: Tables, reachability: seq<Reachability>, keep: seq<bool>, s: State, reached: seq<Reachability>)
    requires Result(f, reachability, keep, s, reached)
    ensures |s.faceoptimizeindex| == |f.faces| && |s.edgeoptimizeindex| == |f.edges| && |reached| == |reachability|
    ensures forall i | 0 <= i < |reachability| :: RefsOk(f, reachability[i])
  {
    hide EdgeSlotsOk, SlotsBelow, AreaDone, FacesApart, AreasApart, Back, SameEnds, SameLook, RefsOk;
  }

  // ----- main results

  /** A face is in the new file exactly when it is kept and some area has it; then it looks the same. */
  lemma FaceSurvives(f: Tables, reachability: seq<Reachability>, keep: seq<bool>, s: State, reached: seq<Reachability>,
                     n: nat)
    requires Result(f, reachability, keep, s, reached) && n < |f.faces|
    ensures |keep| == |f.faces| == |s.faceoptimizeindex|
    ensures s.faceoptimizeindex[n] != 0 <==> Kept(f, keep, n) && Bounded(f, n)
    ensures s.faceoptimizeindex[n] != 0 ==> SameLook(f, s.t, n, s.faceoptimizeindex[n])
  {
    hide VertexesOk, EdgesOk, EdgeSlotsOk, SlotsBelow, IsRemapped, LookOf, Sides, KeptEntries, FacesApart, AreasApart,
      FaceOk;
    var m := s.faceoptimizeindex[n];
    if m != 0 {
      assert SameLook(f, s.t, s.facefrom[m], m) && s.facefrom[m] == n;
    }
    if Kept(f, keep, n) && Bounded(f, n) {
      var a: nat, i: nat :| BoundsArea(f, a, i, n);
      assert AreaDone(f, keep, s, a);
      assert OldEntries(f, a)[i] == f.faceindex[f.areas[a].firstface + i];
    }
  }

  /** A grapple reachability keeps the plane and the side of its anchor face, if some area has that face, and all the
      rest. */
  lemma GrappleKeepsPlane(f: Tables, reachability: seq<Reachability>, keep: seq<bool>, s: State,
                          reached: seq<Reachability>, i: nat)
    requires Result(f, reachability, keep, s, reached) && i < |reachability| && IsGrapple(reachability[i])
    ensures |reached| == |reachability| && reached[i] == reachability[i].(facenum := reached[i].facenum)
    ensures var n, m := reachability[i].facenum, reached[i].facenum;
      if n != 0 && Bounded(f, Abs(n)) then
        && (m < 0 <==> n < 0) && m != 0
        && Abs(n) < |f.faces| && Abs(m) < |s.t.faces| && s.t.faces[Abs(m)].planenum == f.faces[Abs(n)].planenum
      else m == 0
  {
    hide Valid, EdgeSlotsOk, SlotsBelow, AreaDone, FacesApart, AreasApart;
    var n := reachability[i].facenum;
    ResultSizes(f, reachability, keep, s, reached);
    assert RefsOk(f, reachability[i]);
    FaceSurvives(f, reachability, keep, s, reached, Abs(n));
    assert IsRemapped(f, s, reachability[i], reached[i]);
    if n != 0 {
      assert Anchors(reachability, Abs(n));
    } else {
      ZeroIsDummy(f, reachability, keep, s, reached);
    }
  }

  /** Number 0 stays number 0. */
  lemma ZeroIsDummy(f: Tables, reachability: seq<Reachability>, keep: seq<bool>, s: State, reached: seq<Reachability>)
    requires Result(f, reachability, keep, s, reached)
    ensures |s.faceoptimizeindex| == |f.faces| > 0 && s.faceoptimizeindex[0] == 0
  {
    hide VertexesOk, EdgesOk, EdgeSlotsOk, SlotsBelow, AreaDone, FacesApart, AreasApart, IsRemapped, FaceOk, LookOf;
  }

  /** Any other reachability that names faces: a ladder that some area has looks the same, a face that is not
      kept becomes number 0, an edge becomes number 0 or keeps its end points. */
  lemma ReachabilityKeepsFace(f: Tables, reachability: seq<Reachability>, keep: seq<bool>, s: State,
                              reached: seq<Reachability>, i: nat)
    requires Result(f, reachability, keep, s, reached) && i < |reachability|
    requires !IsCoded(reachability[i]) && !IsGrapple(reachability[i])
    ensures |reached| == |reachability| && |keep| == |f.faces|
    ensures reached[i] == reachability[i].(facenum := reached[i].facenum, edgenum := reached[i].edgenum)
    ensures var n, m := reachability[i].facenum, reached[i].facenum;
      && Abs(n) < |f.faces|
      && (m != 0 <==> Kept(f, keep, Abs(n)) && Bounded(f, Abs(n)))
      && (m != 0 ==> (m < 0 <==> n < 0) && SameLook(f, s.t, Abs(n), Abs(m)))
    ensures var e, g := reachability[i].edgenum, reached[i].edgenum;
      && (g != 0 <==> EdgeUsed(f, keep, Abs(e)))
      && (g != 0 ==> (g < 0 <==> e < 0) && SameEnds(f, s.t, e, g))
  {
    hide Valid, EdgeSlotsOk, SlotsBelow, AreaDone, FacesApart, AreasApart, SameLook, SameEnds, FaceOk, AllUsed,
      FileUses, EdgeUsed;
    ResultSizes(f, reachability, keep, s, reached);
    assert RefsOk(f, reachability[i]);
    FaceSurvives(f, reachability, keep, s, reached, Abs(reachability[i].facenum));
    assert IsRemapped(f, s, reachability[i], reached[i]);
    var e := reachability[i].edgenum;
    EdgeSurvives(f, reachability, keep, s, reached, Abs(e));
    if s.edgeoptimizeindex[Abs(e)] != 0 {
      Reversed(f, s.t, e, s.edgeoptimizeindex[Abs(e)]);
    }
  }

  /** An edge is in the new file exactly when a kept face that some area has uses it; then it has the same ends. */
  lemma EdgeSurvives(f: Tables, reachability: seq<Reachability>, keep: seq<bool>, s: State, reached: seq<Reachability>,
                     e: nat)
    requires Result(f, reachability, keep, s, reached) && e < |f.edges|
    ensures |keep| == |f.faces| && |s.edgeoptimizeindex| == |f.edges|
    ensures s.edgeoptimizeindex[e] != 0 <==> EdgeUsed(f, keep, e)
    ensures s.edgeoptimizeindex[e] != 0 ==> e > 0 && SameEnds(f, s.t, e, s.edgeoptimizeindex[e])
  {
    hide VertexesOk, FacesOk, Ends, EdgeSlotsOk, SlotsBelow, AreaDone, FacesApart, AreasApart, IsRemapped, EdgeUsed,
      FileUses, FaceOk,
      MetOk, FacesUsed, AreaOk;
    if s.edgeoptimizeindex[e] != 0 {
      assert SameEnds(f, s.t, s.edgefrom[s.edgeoptimizeindex[e]], s.edgeoptimizeindex[e]);
    }
    UsesAre(f, keep, e);
  }

  lemma CodedStay(f: Tables, reachability: seq<Reachability>, keep: seq<bool>, s: State, reached: seq<Reachability>,
                  i: nat)
    requires Result(f, reachability, keep, s, reached) && i < |reachability| && IsCoded(reachability[i])
    ensures |reached| == |reachability| && reached[i] == reachability[i]
  {
    hide Valid, EdgeSlotsOk, SlotsBelow, AreaDone, FacesApart, AreasApart;
    ResultSizes(f, reachability, keep, s, reached);
    assert RefsOk(f, reachability[i]);
    assert IsRemapped(f, s, reachability[i], reached[i]);
  }

  // ----- what a reader of the new file finds

  /** The faces the grapple reachabilities are anchored at. */
  ghost function Marks(f: Tables, reachability: seq<Reachability>): (keep: seq<bool>)
    ensures MarksOk(f, reachability, keep)
  {
    seq(|f.faces|, n requires 0 <= n < |f.faces| => Anchors(reachability, n))
  }

  /** Area a has its kept faces, in their order, on their sides, looking as they did, and nothing else of it has
      changed. */
  ghost predicate AreaPreserved(f: Tables, keep: seq<bool>, t: Tables, a: nat) {
    && |keep| == |f.faces| && AreaOk(f, a) && AreaOk(t, a)
    && t.areas[a] == f.areas[a].(numfaces := t.areas[a].numfaces, firstface := t.areas[a].firstface)
    && Sides(t, OldEntries(t, a)) == Sides(f, KeptEntries(f, keep, OldEntries(f, a)))
  }

  /** Face m of the new file is face n of the old one, seen from the same side. */
  ghost predicate SameFace(f: Tables, t: Tables, n: int, m: int) {
    n != 0 && m != 0 && (m < 0 <==> n < 0) && SameLook(f, t, Abs(n), Abs(m))
  }

  /** Edge g of the new file is edge e of the old one, run through the same way. */
  ghost predicate SameEdge(f: Tables, t: Tables, e: int, g: int) {
    e != 0 && g != 0 && (g < 0 <==> e < 0) && SameEnds(f, t, e, g)
  }

  ghost predicate ReachabilityPreserved(f: Tables, keep: seq<bool>, t: Tables, r0: Reachability, r1: Reachability) {
    var t0 := r0.traveltype & TRAVELTYPE_MASK;
    if t0 == TRAVEL_ELEVATOR || t0 == TRAVEL_JUMPPAD || t0 == TRAVEL_FUNCBOB then r1 == r0
    else
      && |keep| == |f.faces| && Abs(r0.facenum) < |f.faces|
      && r1 == r0.(facenum := r1.facenum, edgenum := r1.edgenum)
      && (if Kept(f, keep, Abs(r0.facenum)) && Bounded(f, Abs(r0.facenum)) then SameFace(f, t, r0.facenum, r1.facenum)
        else r1.facenum == 0)
      && (if t0 == TRAVEL_GRAPPLEHOOK then r1.edgenum == r0.edgenum
          else if EdgeUsed(f, keep, Abs(r0.edgenum)) then SameEdge(f, t, r0.edgenum, r1.edgenum) else r1.edgenum == 0)
  }

  /** Reachability number i is a grapple reachability anchored at face n. */
  ghost predicate IsAnchor(reachability: seq<Reachability>, i: nat, n: nat) {
    && i < |reachability| && reachability[i].traveltype & TRAVELTYPE_MASK == TRAVEL_GRAPPLEHOOK
    && n > 0 && (reachability[i].facenum == n || reachability[i].facenum == 0 - n)
  }

  /** The faces that are kept are the ladders and the anchors of grapple reachabilities. */
  ghost predicate KeptAreNeeded(f: Tables, reachability: seq<Reachability>) {
    forall n: nat | n < |f.faces| :: Kept(f, Marks(f, reachability), n) <==>
      f.faces[n].faceflags & FACE_LADDER != 0 || exists i: nat :: IsAnchor(reachability, i, n)
  }

  lemma NeededAreKept(f: Tables, reachability: seq<Reachability>)
    ensures KeptAreNeeded(f, reachability)
  {
    forall n: nat | n < |f.faces| ensures Anchors(reachability, n) <==> exists i: nat :: IsAnchor(reachability, i, n) {
      if Anchors(reachability, n) {
        var i :| 0 <= i < |reachability| && IsGrapple(reachability[i]) && Abs(reachability[i].facenum) == n;
        assert IsAnchor(reachability, i, n);
      }
      if i: nat :| IsAnchor(reachability, i, n) {
        assert IsGrapple(reachability[i]) && Abs(reachability[i].facenum) == n;
      }
    }
  }

  /** Every vertex that is needed is there once, but the first come across twice if it is come across again. */
  ghost predicate VertexesCounted(f: Tables, keep: seq<bool>, t: Tables) {
    && |keep| == |f.faces| && (forall a | 0 < a < |f.areas| :: AreaOk(f, a))
    && var u := FileUses(f, keep, |f.areas|); |t.vertexes| == |UsedVertexes(f, u)| + if MetAgain(f, u) then 1 else 0
  }

  /** The new file means what the old one did. */
  ghost predicate Preserved(f: Tables, reachability: seq<Reachability>, t: Tables, reached: seq<Reachability>) {
    && |t.areas| == |f.areas| && |reached| == |reachability| && Dummies(t) && KeptAreNeeded(f, reachability)
    && (forall a | 0 < a < |f.areas| :: AreaPreserved(f, Marks(f, reachability), t, a))
    && VertexesCounted(f, Marks(f, reachability), t)
    && (forall i | 0 <= i < |reachability| ::
      ReachabilityPreserved(f, Marks(f, reachability), t, reachability[i], reached[i]))
  }

  lemma Preserves(f: Tables, reachability: seq<Reachability>, keep: seq<bool>, s: State, reached: seq<Reachability>)
    requires Result(f, reachability, keep, s, reached)
    ensures Preserved(f, reachability, s.t, reached)
  {
    hide Valid, EdgeSlotsOk, SlotsBelow, FacesApart, AreasApart, AreaOk, KeptEntries, Sides, OldEntries, RefsOk,
      IsRemapped, KeptAreNeeded,
      ReachabilityPreserved, Anchors, AllUsed, FileUses, UsedVertexes, MetAgain;
    VertexCount(f, reachability, keep, s, reached);
    NeededAreKept(f, reachability);
    assert keep == Marks(f, reachability);
    ResultSizes(f, reachability, keep, s, reached);
    forall a | 0 < a < |f.areas| ensures AreaPreserved(f, keep, s.t, a) {
      assert AreaDone(f, keep, s, a);
    }
    forall i | 0 <= i < |reachability| ensures ReachabilityPreserved(f, keep, s.t, reachability[i], reached[i]) {
      ReachabilityPreserves(f, reachability, keep, s, reached, i);
    }
  }

  lemma ReachabilityPreserves(f: Tables, reachability: seq<Reachability>, keep: seq<bool>, s: State,
                              reached: seq<Reachability>, i: nat)
    requires Result(f, reachability, keep, s, reached) && i < |reachability|
    ensures |reached| == |reachability| && ReachabilityPreserved(f, keep, s.t, reachability[i], reached[i])
  {
    hide Valid, EdgeSlotsOk, SlotsBelow, AreaDone, FacesApart, AreasApart, SameLook, SameEnds, FaceOk, Bounded, Kept;
    ResultSizes(f, reachability, keep, s, reached);
    assert IsRemapped(f, s, reachability[i], reached[i]);
    if !IsCoded(reachability[i]) {
      FaceRenumbered(f, reachability, keep, s, reached, i);
      if !IsGrapple(reachability[i]) {
        ReachabilityKeepsFace(f, reachability, keep, s, reached, i);
      }
    }
  }

  /** The face a renumbered reachability names is the one it named, or number 0 if that one is not in the new file. */
  lemma FaceRenumbered(f: Tables, reachability: seq<Reachability>, keep: seq<bool>, s: State,
                       reached: seq<Reachability>, i: nat)
    requires Result(f, reachability, keep, s, reached) && i < |reachability| && !IsCoded(reachability[i])
    ensures |reached| == |reachability| && |keep| == |f.faces| && Abs(reachability[i].facenum) < |f.faces|
    ensures var n, m := reachability[i].facenum, reached[i].facenum;
      if Kept(f, keep, Abs(n)) && Bounded(f, Abs(n)) then SameFace(f, s.t, n, m) else m == 0
  {
    hide Valid, EdgeSlotsOk, SlotsBelow, AreaDone, FacesApart, AreasApart, SameLook, Kept, Bounded;
    ResultSizes(f, reachability, keep, s, reached);
    assert RefsOk(f, reachability[i]) && IsRemapped(f, s, reachability[i], reached[i]);
    FaceSurvives(f, reachability, keep, s, reached, Abs(reachability[i].facenum));
    ZeroIsDummy(f, reachability, keep, s, reached);
  }

  // ----- sizes

  /** Numbers 1, 2, ... come from different old numbers, none of them 0 unless number 0 was referred to. */
  lemma FromDistinct(index: seq<nat>, from: seq<nat>)
    requires Back(index, from) && |from| > 0
    ensures Distinct(from[1..]) && forall x | x in Elements(from[1..]) :: x < |index|
    ensures index != [] && index[0] == 0 ==> forall x | x in Elements(from[1..]) :: x != 0
  {
    forall i, j | 0 <= i < j < |from[1..]| ensures from[1..][i] != from[1..][j] {
      assert from[1..][i] == from[1 + i] && from[1..][j] == from[1 + j];
    }
    forall x | x in Elements(from[1..]) ensures x < |index| && (index[0] == 0 ==> x != 0) {
      var i :| 0 <= i < |from[1..]| && from[1..][i] == x;
      assert from[1 + i] == x;
    }
  }

  lemma ManyBelow(s: seq<nat>, n: nat)
    requires Distinct(s) && forall x: nat | x in Elements<nat>(s) :: x < n
    ensures |s| <= n
  {
    DistinctSize<nat>(s);
    BoundedSet(Elements<nat>(s), n);
  }

  lemma FewerNumbers(index: seq<nat>, from: seq<nat>)
    requires Back(index, from) && |from| > 0 && index != [] && index[0] == 0
    ensures |from| <= |index|
  {
    FromDistinct(index, from);
    DistinctSize(from[1..]);
    var more := Elements(from[1..]) + {0};
    BoundedSet(more, |index|);
  }

  /** The tables never grow beyond those of the file, but for one vertex. */
  lemma SizesBounded(f: Tables, reachability: seq<Reachability>, keep: seq<bool>, s: State, reached: seq<Reachability>)
    requires Result(f, reachability, keep, s, reached)
    ensures |s.t.vertexes| <= |f.vertexes| + 1 && |s.t.edges| <= |f.edges| && |s.t.faces| <= |f.faces|
    ensures |s.t.edgeindex| <= |f.edgeindex| && |s.t.faceindex| <= |f.faceindex|
  {
    hide AreaDone, FacesApart, AreasApart, IsRemapped, FaceOk, LookOf, SameEnds, Distinct, Bounded, Kept;
    ZeroIsDummy(f, reachability, keep, s, reached);
    FewerNumbers(s.faceoptimizeindex, s.facefrom);
    EdgeZero(f, keep, s);
    FewerNumbers(s.edgeoptimizeindex, s.edgefrom);
    if |s.vertexfrom| > 0 {
      FromDistinct(s.vertexoptimizeindex, s.vertexfrom);
      ManyBelow(s.vertexfrom[1..], |f.vertexes|);
    }
    SlotsFew(f, s);
  }

  lemma EdgeZero(f: Tables, keep: seq<bool>, s: State)
    requires Valid(f, keep, s) && |f.edges| > 0
    ensures |s.edgeoptimizeindex| == |f.edges| && s.edgeoptimizeindex[0] == 0
  {
    hide VertexesOk, FacesOk, Ends;
    assert s.edgeoptimizeindex[0] != 0 ==> SameEnds(f, s.t, s.edgefrom[s.edgeoptimizeindex[0]], s.edgeoptimizeindex[0]);
  }

  lemma SlotsFew(f: Tables, s: State)
    requires EdgeSlotsOk(f, s) && SlotsBelow(f, s, |f.areas|, 0)
    ensures |s.t.edgeindex| <= |f.edgeindex| && |s.t.faceindex| <= |f.faceindex|
  {
    forall x | x in Elements(s.edgeslots) ensures x < |f.edgeindex| {
      var j :| 0 <= j < |s.edgeslots| && s.edgeslots[j] == x;
      assert HasFace(f, s.faceoptimizeindex, x);
    }
    ManyBelow(s.edgeslots, |f.edgeindex|);
    forall x | x in Elements(s.faceslots) ensures x < |f.faceindex| {
      var j :| 0 <= j < |s.faceslots| && s.faceslots[j] == x;
    }
    ManyBelow(s.faceslots, |f.faceindex|);
  }

  /** One vertex at most is stored twice: the first that is come across, exactly if it is come across again. */
  lemma VertexCount(f: Tables, reachability: seq<Reachability>, keep: seq<bool>, s: State, reached: seq<Reachability>)
    requires Result(f, reachability, keep, s, reached)
    ensures |keep| == |f.faces| && |s.vertexfrom| == |s.t.vertexes|
    ensures forall i, j | 0 <= i < j < |s.vertexfrom| :: s.vertexfrom[i] == s.vertexfrom[j] ==> i == 0
    ensures var u := FileUses(f, keep, |f.areas|);
      && |s.t.vertexes| == |UsedVertexes(f, u)| + (if MetAgain(f, u) then 1 else 0)
      && (MetAgain(f, u) <==> exists j :: 0 < j < |s.vertexfrom| && s.vertexfrom[j] == s.vertexfrom[0])
  {
    hide EdgesOk, FacesOk, EdgeSlotsOk, SlotsBelow, AreaDone, FacesApart, AreasApart, IsRemapped, AreaOk, UsesOk,
      FacesUsed, FileUses,
      UsedVertexes, MetAgain;
    var u := FileUses(f, keep, |f.areas|);
    VertexTotal(f, keep, s, u);
    FirstStoredAgain(f, keep, s, u);
  }

  lemma FirstStoredAgain(f: Tables, keep: seq<bool>, s: State, u: seq<nat>)
    requires Valid(f, keep, s) && UsesOk(f, s, u)
    ensures MetAgain(f, u) <==> exists j :: 0 < j < |s.vertexfrom| && s.vertexfrom[j] == s.vertexfrom[0]
  {
    hide EdgesOk, FacesOk, Corners, MetAgain, UsesOk;
    UsesSizes(f, s, u);
    var es, from := s.edgefrom[1..], s.vertexfrom;
    StoredEdges(f, keep, s, u);
    SameUses(f, u, es);
    NoneAgain(f);
    if es != [] {
      CornersAre(f, es, 0);
      FirstComesAgain(f, es);
      assert from[0] < |s.vertexoptimizeindex|;
      if MetAgain(f, es) {
        assert from[s.vertexoptimizeindex[from[0]]] == from[0];
      }
    }
  }

  /** The vertex table, allocated for as many vertexes as the file has, is outgrown exactly if the vertex come across
      first is come across again and no vertex of the file goes unused. */
  lemma VertexesOutgrow(f: Tables, reachability: seq<Reachability>, keep: seq<bool>, s: State,
                        reached: seq<Reachability>)
    requires Result(f, reachability, keep, s, reached)
    ensures |keep| == |f.faces| && |s.t.vertexes| <= |f.vertexes| + 1
    ensures var u := FileUses(f, keep, |f.areas|);
      |s.t.vertexes| == |f.vertexes| + 1 <==> MetAgain(f, u) && forall v: nat | v < |f.vertexes| :: EndOfAny(f, u, v)
  {
    hide EdgeSlotsOk, SlotsBelow, AreaDone, FacesApart, AreasApart, IsRemapped, Valid, AreaOk, AllUsed, FileUses,
      MetAgain, EndOfAny;
    SizesBounded(f, reachability, keep, s, reached);
    VertexCount(f, reachability, keep, s, reached);
    var u := FileUses(f, keep, |f.areas|);
    forall v | v in UsedVertexes(f, u) ensures v < |f.vertexes| {
      UsedExists(f, keep, s, u, v);
    }
    BoundedSet(UsedVertexes(f, u), |f.vertexes|);
    if forall v: nat | v < |f.vertexes| :: EndOfAny(f, u, v) {
      assert UsedVertexes(f, u) == Range(|f.vertexes|);
    }
  }

  lemma UsedExists(f: Tables, keep: seq<bool>, s: State, u: seq<nat>, v: nat)
    requires Valid(f, keep, s) && AllUsed(f, s, u) && EndOfAny(f, u, v)
    ensures v < |f.vertexes|
  {
    hide Valid, FacesUsed, MetOk, Corners;
    StoredEdges(f, keep, s, u);
    var e: nat :| e in u && IsEnd(f, e, v);
    assert e in s.edgefrom[1..];
    EndExists(f, keep, s, v);
  }

  // ----- a file that outgrows

  /** One area with one ladder, a triangle. */
  function Triangle(): Tables {
    var o, face := Vec3(0.0, 0.0, 0.0), Face(0, 0, 0, 0, 0, 0);
    Tables([o, Vec3(1.0, 0.0, 0.0), Vec3(0.0, 0.0, 1.0)], [Edge(0, 0), Edge(0, 1), Edge(1, 2), Edge(2, 0)], [1, 2, 3],
           [face, Face(0, FACE_LADDER, 3, 0, 1, 0)], [1], [Area(0, 0, 0, o, o, o), Area(1, 1, 0, o, o, o)])
  }

  /** It is a file the optimizer takes, and of its 3 vertexes it makes 4. */
  lemma TriangleOutgrows(keep: seq<bool>, s: State, reached: seq<Reachability>)
    ensures FileOk(Triangle(), [])
    ensures Result(Triangle(), [], keep, s, reached) ==> |s.t.vertexes| == |Triangle().vertexes| + 1
  {
    hide Result, FileUses, MetAgain, EndOfAny;
    TriangleOk();
    if Result(Triangle(), [], keep, s, reached) {
      VertexesOutgrow(Triangle(), [], keep, s, reached);
      TriangleUses(keep);
      TriangleEnds();
    }
  }

  lemma TriangleOk()
    ensures FileOk(Triangle(), []) && FaceOk(Triangle(), 1) && AreaOk(Triangle(), 1)
  {
  }

  lemma TriangleUses(keep: seq<bool>)
    requires |keep| == 2
    ensures AreaOk(Triangle(), 1) && FileUses(Triangle(), keep, 2) == [1, 2, 3]
  {
    TriangleOk();
    assert FileUses(Triangle(), keep, 1) == [];
    assert OldEntries(Triangle(), 1) == [1];
    assert KeptUses(Triangle(), keep, []) == [];
    assert OutlineEdges(Triangle(), 1) == [1, 2, 3];
  }

  lemma TriangleEnds()
    ensures MetAgain(Triangle(), [1, 2, 3]) && forall v: nat | v < 3 :: EndOfAny(Triangle(), [1, 2, 3], v)
  {
    assert IsEnd(Triangle(), 3, 0) && IsEnd(Triangle(), 1, 1) && IsEnd(Triangle(), 2, 2);
  }
}
