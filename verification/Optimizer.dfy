/** Rebuilding the tables of an AAS file with only the faces that are still needed. */
module Optimizer {
  import opened AasFile
  import opened AasGeometry
  import opened OptimizedTables
  import opened OptimizedUses
  import opened OptimizedFile

  class Optimized {
    /** The file's tables. */
    const file: Tables
    var vertexes: seq<Vec3>
    var edges: seq<Edge>
    var edgeindex: seq<int>
    var faces: seq<Face>
    var faceindex: seq<int>
    var areas: seq<Area>
    var vertexoptimizeindex: seq<nat>
    var edgeoptimizeindex: seq<nat>
    var faceoptimizeindex: seq<nat>
    /** Faces to keep for a reason other than their own flags. */
    var facekeep: seq<bool>
    ghost var vertexfrom: seq<nat>
    ghost var edgefrom: seq<nat>
    ghost var facefrom: seq<nat>
    ghost var edgeslots: seq<nat>
    ghost var faceslots: seq<nat>
    /** Edges come across so far. */
    ghost var uses: seq<nat>

    /** Empty tables, but for the dummies at number 0. */
    constructor (file: Tables)
      ensures this.file == file && Empty(file, Now()) && uses == [] && |facekeep| == |file.faces|
      ensures forall n | 0 <= n < |facekeep| :: !facekeep[n]
    {
      this.file := file;
      vertexes, edges, edgeindex, faces, faceindex := [], [Edge(0, 0)], [], [Face(0, 0, 0, 0, 0, 0)], [];
      var origin := Vec3(0.0, 0.0, 0.0);
      areas := seq(|file.areas|, _ => Area(0, 0, 0, origin, origin, origin));
      vertexoptimizeindex := seq(|file.vertexes|, _ => 0);
      edgeoptimizeindex := seq(|file.edges|, _ => 0);
      faceoptimizeindex := seq(|file.faces|, _ => 0);
      facekeep := seq(|file.faces|, _ => false);
      vertexfrom, edgefrom, facefrom, edgeslots, faceslots := [], [0], [0], [], [];
      uses := [];
    }

    ghost function Now(): State
      reads this
    {
      State(Tables(vertexes, edges, edgeindex, faces, faceindex, areas), vertexoptimizeindex, edgeoptimizeindex,
        faceoptimizeindex,
            vertexfrom, edgefrom, facefrom, edgeslots, faceslots)
    }

    /** Number of a vertex in the new table. A vertex with number 0 reads as not stored yet, and is stored. */
    method OptimizeVertex(v: nat) returns (n: nat)
      requires Valid(file, facekeep, Now()) && v < |file.vertexes|
      modifies this
      ensures facekeep == old(facekeep) && Valid(file, facekeep, Now()) && EdgesAdded(old(Now()), Now())
      ensures edges == old(edges) && edgeoptimizeindex == old(edgeoptimizeindex)
      ensures v < old(|vertexoptimizeindex|) && Now() == VertexMet(file, old(Now()), v) && uses == old(uses)
      ensures n < |vertexes| && vertexes[n] == file.vertexes[v]
    {
      hide EdgesOk, FacesOk, EdgesAdded, LookOf;
      if vertexoptimizeindex[v] != 0 {
        n := vertexoptimizeindex[v];
        NothingAdded(Now());
      } else {
        VertexStoredOk(file, facekeep, Now(), v);
        n := |vertexes|;
        vertexes := vertexes + [file.vertexes[v]];
        vertexoptimizeindex := vertexoptimizeindex[v := n];
        vertexfrom := vertexfrom + [v];
      }
    }

    /** Put edge e into the new tables, with its ends. */
    method StoreEdge(e: nat) returns (n: nat)
      requires Valid(file, facekeep, Now()) && EdgeOk(file, e) && UsesOk(file, Now(), uses)
      requires e < |edgeoptimizeindex| && edgeoptimizeindex[e] == 0
      modifies this
      ensures facekeep == old(facekeep) && Valid(file, facekeep, Now()) && EdgesAdded(old(Now()), Now())
      ensures n > 0 && SameEnds(file, Now().t, e, n) && e < |edgeoptimizeindex| && edgeoptimizeindex[e] == n
      ensures uses == old(uses) + [e] && UsesOk(file, Now(), uses)
    {
      hide VertexesOk, FacesOk, EdgesAdded, LookOf, SameEnds, Back, UsesOk, VertexMet;
      ghost var s0 := Now();
      var v0 := OptimizeVertex(file.edges[e].v0);
      ghost var s1 := Now();
      var v1 := OptimizeVertex(file.edges[e].v1);
      ghost var s2 := Now();
      EdgesAddedThrough(s0, s1, s2);
      StoredStays(s1, s2, v0);
      EdgeStoredOk(file, facekeep, s2, e, v0, v1);
      EdgeUsesOk(file, s0, uses, e, v0, v1);
      n := |edges|;
      edges := edges + [Edge(v0, v1)];
      edgeoptimizeindex := edgeoptimizeindex[e := n];
      edgefrom := edgefrom + [e];
      assert Now() == EdgeStored(s2, e, v0, v1);
      EdgesAddedThrough(s0, s2, Now());
      uses := uses + [e];
    }

    /** Number of an edge in the new tables, with the sign it is run through. */
    method OptimizeEdge(edgenum: int) returns (optedgenum: int)
      requires Valid(file, facekeep, Now()) && EdgeOk(file, edgenum) && UsesOk(file, Now(), uses)
      modifies this
      ensures facekeep == old(facekeep) && Valid(file, facekeep, Now()) && EdgesAdded(old(Now()), Now())
      ensures SameEnds(file, Now().t, edgenum, optedgenum) && optedgenum != 0 && (optedgenum > 0 <==> edgenum > 0)
      ensures Abs(edgenum) < |edgeoptimizeindex| && edgeoptimizeindex[Abs(edgenum)] == Abs(optedgenum)
      ensures uses == old(uses) + [Abs(edgenum)] && UsesOk(file, Now(), uses)
    {
      hide VertexesOk, FacesOk, EdgesAdded, LookOf, SameEnds, Back, UsesOk, VertexMet;
      ghost var s0 := Now();
      var e := Abs(edgenum);
      EdgeNumber(file, facekeep, s0, e);
      var n: int := edgeoptimizeindex[e];
      if n == 0 {
        n := StoreEdge(e);
      } else {
        NothingAdded(s0);
        NumberIsUsed(file, s0, uses, e);
        UsedAgain(file, s0, uses, [e]);
        uses := uses + [e];
      }
      optedgenum := if edgenum > 0 then n else -n;
      Reversed(file, Now().t, edgenum, n);
    }

    /** Copy the outline of a face. */
    method OptimizeOutline(n: nat)
      requires Valid(file, facekeep, Now()) && FaceOk(file, n) && n < |file.faces| && UsesOk(file, Now(), uses)
      modifies this
      ensures facekeep == old(facekeep) && Valid(file, facekeep, Now()) && EntriesAdded(old(Now()), Now())
      ensures OutlineDone(file, Now().t, n, old(|edgeindex|), file.faces[n].numedges)
      ensures uses == old(uses) + OutlineEdges(file, n) && UsesOk(file, Now(), uses)
    {
      hide VertexesOk, EdgesOk, FacesOk, EdgesAdded, EntriesAdded, OutlineDone, FaceOk, LookOf, SameEnds, EdgeOk,
        Extends, UsesOk,
        OutlineEdges;
      ghost var s0 := Now();
      var face := file.faces[n];
      var i := 0;
      OutlineStarts(file, s0, n);
      while i < face.numedges
        invariant 0 <= i <= face.numedges && facekeep == old(facekeep)
        invariant Valid(file, facekeep, Now()) && EntriesAdded(s0, Now())
          && OutlineDone(file, Now().t, n, |s0.t.edgeindex|, i)
        invariant uses == old(uses) + OutlineEdges(file, n)[..i] && UsesOk(file, Now(), uses)
      {
        ghost var s := Now();
        FaceEdge(file, n, i);
        var optedgenum := OptimizeEdge(file.edgeindex[face.firstedge + i]);
        NextEntry(file, facekeep, s0, s, Now(), n, |s0.t.edgeindex|, i, optedgenum);
        ghost var s1 := Now();
        edgeindex := edgeindex + [optedgenum];
        UsesSame(file, s1, Now(), uses);
        OutlineNext(file, n, i);
        i := i + 1;
      }
    }

    /** Put face n into the new tables, with its outline. */
    method StoreFace(n: nat) returns (m: nat)
      requires Valid(file, facekeep, Now()) && EdgeSlotsOk(file, Now()) && FacesApart(file)
        && AllUsed(file, Now(), uses)
      requires 0 < n < |file.faces| && FaceOk(file, n) && Bounded(file, n) && Kept(file, facekeep, n)
      requires n < |faceoptimizeindex| && faceoptimizeindex[n] == 0 && |faces| > 0
      modifies this
      ensures facekeep == old(facekeep) && Valid(file, facekeep, Now()) && EdgeSlotsOk(file, Now())
      ensures FaceAdded(old(Now()), Now()) && m > 0 && SameLook(file, Now().t, n, m)
      ensures n < |faceoptimizeindex| && faceoptimizeindex[n] == m
      ensures uses == old(uses) + OutlineEdges(file, n) && AllUsed(file, Now(), uses)
    {
      hide VertexesOk, EdgesOk, FacesOk, EdgeSlotsOk, EdgesAdded, EntriesAdded, OutlineDone, FaceOk, LookOf, SameEnds,
        SameLook,
        Back, EdgeOk, FacesApart, Extends, Bounded, AllUsed, OutlineEdges, UsesOk, FacesUsed, Kept, FaceAdded;
      ghost var s0, u := Now(), uses;
      var face, firstedge := file.faces[n], |edgeindex|;
      AllUsedIs(file, s0, uses);
      OptimizeOutline(n);
      ghost var s := Now();
      Untouched(file, s0, s, n, firstedge);
      FaceStoredOk(file, facekeep, s, n, firstedge);
      SlotsStored(file, s0, s, n, firstedge);
      FaceAddedLast(file, s0, s, n, firstedge);
      m := |faces|;
      faces := faces + [face.(firstedge := firstedge)];
      faceoptimizeindex := faceoptimizeindex[n := m];
      facefrom := facefrom + [n];
      edgeslots := edgeslots + seq<nat>(face.numedges, j requires 0 <= j < face.numedges => face.firstedge + j);
      assert Now() == FaceStored(file, s, n, firstedge);
      FaceStoredUsed(file, s0, s, u, n, firstedge);
    }

    /** Number of a face in the new tables with its side, or 0 if it is not kept. */
    method OptimizeFace(facenum: int) returns (optfacenum: int)
      requires Valid(file, facekeep, Now()) && EdgeSlotsOk(file, Now()) && FacesApart(file)
      requires facenum != 0 && FaceOk(file, Abs(facenum)) && Bounded(file, Abs(facenum)) && AllUsed(file, Now(), uses)
      modifies this
      ensures facekeep == old(facekeep) && Valid(file, facekeep, Now()) && EdgeSlotsOk(file, Now())
      ensures FaceAdded(old(Now()), Now()) && Abs(facenum) < |file.faces|
      ensures if Kept(file, facekeep, Abs(facenum)) then IsOptFace(file, Now(), facenum, optfacenum)
        else optfacenum == 0 && Now() == old(Now())
      ensures uses == old(uses) + (if Kept(file, facekeep, Abs(facenum)) then OutlineEdges(file, Abs(facenum)) else [])
      ensures AllUsed(file, Now(), uses)
    {
      hide VertexesOk, EdgesOk, FacesOk, EdgeSlotsOk, EdgesAdded, EntriesAdded, OutlineDone, FaceOk, LookOf, SameEnds,
        SameLook, Back, EdgeOk, FacesApart, Extends, Bounded,
        AllUsed, OutlineEdges, UsesOk, FacesUsed;
      ghost var s0 := Now();
      var n := Abs(facenum);
      FaceSlice(file, n);
      FaceNumber(file, facekeep, s0, n);
      NothingStored(s0);
      if !(facekeep[n] || file.faces[n].faceflags & FACE_LADDER != 0) {
        return 0;
      }
      var m: int := faceoptimizeindex[n];
      if m == 0 {
        m := StoreFace(n);
      } else {
        FaceUsedAgain(file, s0, uses, n);
        uses := uses + OutlineEdges(file, n);
      }
      optfacenum := if facenum > 0 then m else -m;
    }

    /** Copy an area, with only those of its faces that are kept. */
    method OptimizeArea(areanum: nat)
      requires Valid(file, facekeep, Now()) && EdgeSlotsOk(file, Now()) && FacesApart(file) && AreasApart(file)
      requires 0 < areanum && AreaOk(file, areanum) && |areas| == |file.areas| && SlotsBelow(file, Now(), areanum, 0)
      requires AllUsed(file, Now(), uses)
      modifies this
      ensures facekeep == old(facekeep) && Valid(file, facekeep, Now()) && EdgeSlotsOk(file, Now())
      ensures |areas| == |file.areas| && Grows(old(Now()), Now(), areanum) && SlotsBelow(file, Now(), areanum + 1, 0)
      ensures AreaDone(file, facekeep, Now(), areanum)
      ensures uses == old(uses) + KeptUses(file, facekeep, OldEntries(file, areanum)) && AllUsed(file, Now(), uses)
    {
      hide Valid, EdgeSlotsOk, FacesApart, AreasApart, AreaOk, AreaPart, SlotsBelow, Grows, FaceAdded, AreaDone,
        IsOptFace, Kept, FaceOk, Bounded,
        AllUsed, OldEntries, KeptUses, OutlineEdges, EntriesOk;
      ghost var s0 := Now();
      AreaSlice(file, areanum);
      PartStarts(file, facekeep, s0, areanum);
      KeepSize(file, facekeep, s0);
      AllEntries(file, areanum);
      NoEntries(file, facekeep);
      var area, firstface := file.areas[areanum], |faceindex|;
      var numfaces := 0;
      var i := 0;
      while i < area.numfaces
        invariant 0 <= i <= area.numfaces && facekeep == old(facekeep) && |faceindex| == firstface + numfaces
          && areas == s0.t.areas
        invariant Valid(file, facekeep, Now()) && EdgeSlotsOk(file, Now()) && Grows(s0, Now(), areanum)
        invariant AreaPart(file, facekeep, Now(), areanum, firstface, i) && SlotsBelow(file, Now(), areanum, i)
        invariant i <= |OldEntries(file, areanum)| && EntriesOk(file, OldEntries(file, areanum)[..i])
        invariant uses == old(uses) + KeptUses(file, facekeep, OldEntries(file, areanum)[..i])
          && AllUsed(file, Now(), uses)
      {
        ghost var s := Now();
        AreaFace(file, areanum, i);
        var facenum := file.faceindex[area.firstface + i];
        var optfacenum := OptimizeFace(facenum);
        ghost var s1 := Now();
        FaceAddedKeeps(s, s1);
        KeptOrNot(file, facekeep, s1, facenum, optfacenum);
        if optfacenum != 0 {
          faceindex := faceindex + [optfacenum];
          numfaces := numfaces + 1;
          faceslots := faceslots + [area.firstface + i];
        }
        NextFace(file, facekeep, s, s1, Now(), areanum, firstface, i, optfacenum);
        NextSlot(file, s, s1, Now(), areanum, i, optfacenum);
        GrowsOn(s0, s, s1, Now(), areanum, optfacenum);
        ValidOn(file, facekeep, s1, Now(), optfacenum);
        AllUsedSame(file, s1, Now(), uses);
        KeptUsesNext(file, facekeep, areanum, i);
        i := i + 1;
      }
      ghost var s := Now();
      areas := areas[areanum := area.(numfaces := numfaces, firstface := firstface)];
      AreaEnds(file, facekeep, s0, s, Now(), areanum, firstface);
      AllUsedSame(file, s, Now(), uses);
      AllEntries(file, areanum);
    }

    /** Mark the faces grapple reachabilities are anchored at. */
    method MarkSteerFaces(reachability: seq<Reachability>)
      requires |facekeep| == |file.faces| && forall n | 0 <= n < |facekeep| :: !facekeep[n]
      modifies this`facekeep
      ensures MarksOk(file, reachability, facekeep)
    {
      var i := 0;
      while i < |reachability|
        invariant 0 <= i <= |reachability| && MarksOk(file, reachability[..i], facekeep)
      {
        var n := Abs(reachability[i].facenum);
        MarksOn(file, reachability, facekeep, i);
        if IsGrapple(reachability[i]) && 0 < n && n < |file.faces| {
          facekeep := facekeep[n := true];
        }
        i := i + 1;
      }
      assert reachability[..i] == reachability;
    }

    /** The reachabilities with the new numbers of their faces and edges. */
    method RemapReachabilities(reachability: seq<Reachability>) returns (reached: seq<Reachability>)
      requires |faceoptimizeindex| == |file.faces| && |edgeoptimizeindex| == |file.edges|
      requires forall i | 0 <= i < |reachability| :: RefsOk(file, reachability[i])
      ensures |reached| == |reachability|
        && forall i | 0 <= i < |reachability| :: IsRemapped(file, Now(), reachability[i], reached[i])
    {
      reached := reachability;
      var i := 0;
      while i < |reachability|
        invariant 0 <= i <= |reachability| == |reached|
        invariant forall k | 0 <= k < i :: IsRemapped(file, Now(), reachability[k], reached[k])
        invariant forall k | i <= k < |reachability| :: reached[k] == reachability[k]
      {
        var t := TravelType(reached[i]);
        assert RefsOk(file, reachability[i]);
        if t == TRAVEL_ELEVATOR || t == TRAVEL_JUMPPAD || t == TRAVEL_FUNCBOB {
          // facenum and edgenum are no numbers of faces and edges
        } else if t == TRAVEL_GRAPPLEHOOK {
          // edgenum is no number of an edge
          var facenum: int := faceoptimizeindex[Abs(reached[i].facenum)];
          reached := reached[i := reached[i].(facenum := if reached[i].facenum < 0 then -facenum else facenum)];
        } else {
          var facenum: int := faceoptimizeindex[Abs(reached[i].facenum)];
          var edgenum: int := edgeoptimizeindex[Abs(reached[i].edgenum)];
          reached := reached[i := reached[i].(
            facenum := if reached[i].facenum < 0 then -facenum else facenum,
            edgenum := if reached[i].edgenum < 0 then -edgenum else edgenum)];
        }
        i := i + 1;
      }
    }
  }

  lemma MarksOn(f: Tables, reachability: seq<Reachability>, keep: seq<bool>, i: nat)
    requires i < |reachability| && MarksOk(f, reachability[..i], keep)
    ensures var n := Abs(reachability[i].facenum);
      if IsGrapple(reachability[i]) && 0 < n < |f.faces| then n < |keep|
        && MarksOk(f, reachability[..i + 1], keep[n := true])
      else MarksOk(f, reachability[..i + 1], keep)
  {
    var r0, r1 := reachability[..i], reachability[..i + 1];
    assert forall k | 0 <= k < i :: r1[k] == r0[k];
    forall m: nat | m < |keep|
      ensures Anchors(r1, m) <==>
        Anchors(r0, m) || (m > 0 && IsGrapple(reachability[i]) && Abs(reachability[i].facenum) == m)
    {
      if Anchors(r1, m) {
        var k :| 0 <= k < |r1| && IsGrapple(r1[k]) && Abs(r1[k].facenum) == m;
        assert k < i ==> r0[k] == r1[k];
      }
      if Anchors(r0, m) {
        var k :| 0 <= k < |r0| && IsGrapple(r0[k]) && Abs(r0[k].facenum) == m;
        assert r1[k] == r0[k];
      }
      assert r1[i] == reachability[i];
    }
  }

  /** New tables with the faces that are needed, and the reachabilities that go with them. */
  method Optimize(file: Tables, reachability: seq<Reachability>)
    returns (tables: Tables, reached: seq<Reachability>, ghost keep: seq<bool>, ghost s: State)
    requires OptimizedFile.FileOk(file, reachability)
    ensures Preserved(file, reachability, tables, reached)
    ensures tables == s.t && Result(file, reachability, keep, s, reached)
  {
    hide OptimizedFile.FileOk, Valid, EdgeSlotsOk, SlotsBelow, AreaDone, FacesApart, AreasApart, MarksOk, Empty, Grows,
      IsRemapped, RefsOk, AreaOk, Preserved,
      AllUsed, FileUses, KeptUses, OldEntries, Dummies;
    FileIs(file, reachability);
    var optimized := new Optimized(file);
    ghost var empty := optimized.Now();
    optimized.MarkSteerFaces(reachability);
    assert optimized.Now() == empty;
    StartIs(file, reachability, optimized.facekeep, empty);
    NothingUsed(file, empty);
    EmptyHasDummies(file, empty);
    NoUses(file, optimized.facekeep);
    keep := optimized.facekeep;
    var i := 1;
    while i < |file.areas|
      invariant 1 <= i <= |file.areas| && optimized.file == file && optimized.facekeep == keep
        && |optimized.areas| == |file.areas|
      invariant Valid(file, keep, optimized.Now()) && EdgeSlotsOk(file, optimized.Now())
        && SlotsBelow(file, optimized.Now(), i, 0)
      invariant forall a | 0 < a < i :: AreaDone(file, keep, optimized.Now(), a)
      invariant Dummies(optimized.Now().t) && |keep| == |file.faces| && AllUsed(file, optimized.Now(), optimized.uses)
        && optimized.uses == FileUses(file, keep, i)
    {
      ghost var before := optimized.Now();
      optimized.OptimizeArea(i);
      DummiesStay(before, optimized.Now(), i);
      forall a | 0 < a < i ensures AreaDone(file, keep, optimized.Now(), a) {
        DoneGrows(file, keep, before, optimized.Now(), a, i);
      }
      UsesOfArea(file, keep, i);
      i := i + 1;
    }
    IndexSizes(file, keep, optimized.Now());
    reached := optimized.RemapReachabilities(reachability);
    s := optimized.Now();
    tables := Tables(optimized.vertexes, optimized.edges, optimized.edgeindex, optimized.faces, optimized.faceindex,
      optimized.areas);
    Preserves(file, reachability, keep, s, reached);
  }

  /** A file of 3 vertexes that all are needed, of which 4 are stored. */
  method OptimizeTriangle() returns (tables: Tables)
    ensures |Triangle().vertexes| == 3 && |tables.vertexes| == 4
  {
    hide Result, Preserved;
    ghost var keep, s, reached;
    TriangleOk();
    tables, reached, keep, s := Optimize(Triangle(), []);
    TriangleOutgrows(keep, s, reached);
  }

  lemma FileIs(f: Tables, reachability: seq<Reachability>)
    requires OptimizedFile.FileOk(f, reachability)
    ensures |f.areas| > 0 && FacesApart(f) && AreasApart(f) && (forall a | 0 < a < |f.areas| :: AreaOk(f, a))
    ensures forall i | 0 <= i < |reachability| :: RefsOk(f, reachability[i])
  {
  }

  lemma StartIs(f: Tables, reachability: seq<Reachability>, keep: seq<bool>, s: State)
    requires Empty(f, s) && MarksOk(f, reachability, keep)
    ensures Valid(f, keep, s) && EdgeSlotsOk(f, s) && SlotsBelow(f, s, 1, 0) && |s.t.areas| == |f.areas|
  {
    EmptyOk(f, keep, s);
  }

  lemma IndexSizes(f: Tables, keep: seq<bool>, s: State)
    requires Valid(f, keep, s)
    ensures |s.faceoptimizeindex| == |f.faces| && |s.edgeoptimizeindex| == |f.edges|
  {
    hide Back, SameEnds, SameLook;
  }
}
