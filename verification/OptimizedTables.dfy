/** The tables being rebuilt by the optimizer, and how they stay tied to those of the file. */
module OptimizedTables {
  import opened AasFile
  import opened AasGeometry
  import opened Counting

  /** The new tables, where old vertexes, edges and faces went (0: nowhere yet), where the new ones came from,
      and which entries of the old indexes the entries of the new ones were made from. */
  datatype State = State(
    t: Tables, vertexoptimizeindex: seq<nat>, edgeoptimizeindex: seq<nat>, faceoptimizeindex: seq<nat>,
    vertexfrom: seq<nat>, edgefrom: seq<nat>, facefrom: seq<nat>, edgeslots: seq<nat>, faceslots: seq<nat>)

  /** index and from are inverse to each other, but for number 0. */
  ghost predicate Back(index: seq<nat>, from: seq<nat>) {
    && (forall v | 0 <= v < |index| :: index[v] != 0 ==> index[v] < |from| && from[index[v]] == v)
    && (forall i | 1 <= i < |from| :: from[i] < |index| && index[from[i]] == i)
  }

  lemma BackMore(index: seq<nat>, from: seq<nat>, v: nat)
    requires Back(index, from) && v < |index| && index[v] == 0
    ensures Back(index[v := |from|], from + [v])
  {
  }

  ghost predicate VertexesOk(f: Tables, s: State) {
    && |s.vertexoptimizeindex| == |f.vertexes| && |s.vertexfrom| == |s.t.vertexes|
    && Back(s.vertexoptimizeindex, s.vertexfrom)
    && forall i | 0 <= i < |s.vertexfrom| ::
      s.vertexfrom[i] < |f.vertexes| && s.t.vertexes[i] == f.vertexes[s.vertexfrom[i]]
  }

  ghost predicate SameEnds(f: Tables, t: Tables, e: int, g: int) {
    EdgeOk(f, e) && EdgeOk(t, g) && Ends(t, g) == Ends(f, e)
  }

  ghost predicate EdgesOk(f: Tables, s: State) {
    && |s.edgeoptimizeindex| == |f.edges| && 1 <= |s.edgefrom| == |s.t.edges| && Back(s.edgeoptimizeindex, s.edgefrom)
    && forall i | 1 <= i < |s.edgefrom| :: SameEnds(f, s.t, s.edgefrom[i], i)
  }

  predicate Kept(f: Tables, facekeep: seq<bool>, n: nat)
    requires n < |f.faces| && |facekeep| == |f.faces|
  {
    facekeep[n] || f.faces[n].faceflags & FACE_LADDER != 0
  }

  /** Entry i of the list of area a is face n. */
  ghost predicate BoundsArea(f: Tables, a: nat, i: nat, n: nat) {
    0 < a && AreaOk(f, a) && i < f.areas[a].numfaces && Abs(f.faceindex[f.areas[a].firstface + i]) == n
  }

  /** Some area has face n. */
  ghost predicate Bounded(f: Tables, n: nat) {
    exists a: nat, i: nat :: BoundsArea(f, a, i, n)
  }

  ghost predicate SameLook(f: Tables, t: Tables, n: nat, m: nat) {
    FaceOk(f, n) && FaceOk(t, m) && LookOf(t, m) == LookOf(f, n)
  }

  ghost predicate FacesOk(f: Tables, keep: seq<bool>, s: State)
    requires |keep| == |f.faces|
  {
    && |s.faceoptimizeindex| == |f.faces| && 1 <= |s.facefrom| == |s.t.faces| && Back(s.faceoptimizeindex, s.facefrom)
    && forall i | 1 <= i < |s.facefrom| :: SameLook(f, s.t, s.facefrom[i], i) && s.facefrom[i] > 0
         && Kept(f, keep, s.facefrom[i]) && Bounded(f, s.facefrom[i])
  }

  /** Old entry j of the edge index belongs to old face n. */
  ghost predicate InFace(f: Tables, n: nat, j: nat) {
    n < |f.faces| && f.faces[n].firstedge <= j < f.faces[n].firstedge + f.faces[n].numedges <= |f.edgeindex|
  }

  /** No entry is made twice, and only those of faces that have gone somewhere. */
  ghost predicate EdgeSlotsOk(f: Tables, s: State) {
    && |s.edgeslots| == |s.t.edgeindex| && Distinct(s.edgeslots)
    && forall j | 0 <= j < |s.edgeslots| :: HasFace(f, s.faceoptimizeindex, s.edgeslots[j])
  }

  ghost predicate IsFaceOf(f: Tables, index: seq<nat>, n: nat, j: nat) {
    InFace(f, n, j) && n < |index| && index[n] != 0
  }

  ghost predicate HasFace(f: Tables, index: seq<nat>, j: nat) {
    exists n: nat :: IsFaceOf(f, index, n, j)
  }

  /** Faces have different entries of the edge index. */
  ghost predicate FacesApart(f: Tables) {
    forall n: nat, m: nat, j: nat | InFace(f, n, j) && InFace(f, m, j) :: n == m
  }

  /** Everything stored looks as in the file. */
  ghost predicate Valid(f: Tables, keep: seq<bool>, s: State) {
    |keep| == |f.faces| && VertexesOk(f, s) && EdgesOk(f, s) && FacesOk(f, keep, s)
  }

  /** Only vertexes and edges have been added, entries of the indexes stay. */
  ghost predicate EdgesAdded(s0: State, s1: State) {
    && Extends(s0.t, s1.t) && s1.t.edgeindex == s0.t.edgeindex && s1.t.faces == s0.t.faces
    && s1.t.faceindex == s0.t.faceindex
    && s1.t.areas == s0.t.areas && s1.faceoptimizeindex == s0.faceoptimizeindex && s1.facefrom == s0.facefrom
    && s1.edgeslots == s0.edgeslots && s1.faceslots == s0.faceslots && Stays(s0.edgeoptimizeindex, s1.edgeoptimizeindex)
  }

  /** What has a number keeps it. */
  ghost predicate Stays(i0: seq<nat>, i1: seq<nat>) {
    |i0| == |i1| && forall v | 0 <= v < |i0| :: i0[v] != 0 ==> i1[v] == i0[v]
  }

  ghost function VertexStored(f: Tables, s: State, v: nat): State
    requires v < |f.vertexes| && v < |s.vertexoptimizeindex|
  {
    s.(t := s.t.(vertexes := s.t.vertexes + [f.vertexes[v]]),
       vertexoptimizeindex := s.vertexoptimizeindex[v := |s.t.vertexes|], vertexfrom := s.vertexfrom + [v])
  }

  /** Vertex v, with the number it has got if that is not 0, with a new one otherwise. */
  ghost function VertexMet(f: Tables, s: State, v: nat): State
    requires v < |f.vertexes| && v < |s.vertexoptimizeindex|
  {
    if s.vertexoptimizeindex[v] != 0 then s else VertexStored(f, s, v)
  }

  lemma VertexStoredOk(f: Tables, keep: seq<bool>, s: State, v: nat)
    requires Valid(f, keep, s) && v < |f.vertexes| && s.vertexoptimizeindex[v] == 0
    ensures Valid(f, keep, VertexStored(f, s, v)) && EdgesAdded(s, VertexStored(f, s, v))
  {
    hide Back, FaceOk, EdgeOk, LookOf, Ends, HasFace, Kept, Bounded;
    var s1 := VertexStored(f, s, v);
    BackMore(s.vertexoptimizeindex, s.vertexfrom, v);
    TablesGrow(f, keep, s, s1);
  }

  /** Edges and faces look the same in larger tables. */
  lemma TablesGrow(f: Tables, keep: seq<bool>, s: State, s1: State)
    requires |keep| == |f.faces| && Extends(s.t, s1.t)
    ensures EdgesOk(f, s) ==> forall i | 1 <= i < |s.edgefrom| :: SameEnds(f, s1.t, s.edgefrom[i], i)
    ensures FacesOk(f, keep, s) ==> forall i | 1 <= i < |s.facefrom| :: SameLook(f, s1.t, s.facefrom[i], i)
  {
    hide Back, FaceOk, EdgeOk, LookOf, Ends, Extends, Kept, Bounded;
    if EdgesOk(f, s) {
      forall i | 1 <= i < |s.edgefrom| ensures SameEnds(f, s1.t, s.edgefrom[i], i) {
        assert SameEnds(f, s.t, s.edgefrom[i], i);
        EndsExtend(s.t, s1.t, i);
      }
    }
    if FacesOk(f, keep, s) {
      forall i | 1 <= i < |s.facefrom| ensures SameLook(f, s1.t, s.facefrom[i], i) {
        assert SameLook(f, s.t, s.facefrom[i], i);
        LookExtends(s.t, s1.t, i);
      }
    }
  }

  ghost function EdgeStored(s: State, e: nat, v0: nat, v1: nat): State
    requires e < |s.edgeoptimizeindex|
  {
    s.(t := s.t.(edges := s.t.edges + [Edge(v0, v1)]),
       edgeoptimizeindex := s.edgeoptimizeindex[e := |s.t.edges|], edgefrom := s.edgefrom + [e])
  }

  lemma EdgeStoredOk(f: Tables, keep: seq<bool>, s: State, e: nat, v0: nat, v1: nat)
    requires Valid(f, keep, s) && EdgeOk(f, e) && s.edgeoptimizeindex[e] == 0
    requires v0 < |s.t.vertexes| && s.t.vertexes[v0] == f.vertexes[f.edges[e].v0]
    requires v1 < |s.t.vertexes| && s.t.vertexes[v1] == f.vertexes[f.edges[e].v1]
    ensures Valid(f, keep, EdgeStored(s, e, v0, v1)) && EdgesAdded(s, EdgeStored(s, e, v0, v1))
    ensures SameEnds(f, EdgeStored(s, e, v0, v1).t, e, |s.t.edges|)
  {
    hide Back, FaceOk, LookOf, HasFace, Kept, Bounded;
    var s1 := EdgeStored(s, e, v0, v1);
    BackMore(s.edgeoptimizeindex, s.edgefrom, e);
    TablesGrow(f, keep, s, s1);
    assert SameEnds(f, s1.t, e, |s.t.edges|);
    forall i | 1 <= i < |s1.edgefrom| ensures SameEnds(f, s1.t, s1.edgefrom[i], i) {
    }
  }

  /** Edges run through the other way have the same ends the other way round. */
  lemma Reversed(f: Tables, t: Tables, e: int, g: int)
    requires SameEnds(f, t, Abs(e), g) && e != 0 && g > 0
    ensures SameEnds(f, t, e, if e > 0 then g else -g)
  {
  }

  lemma EdgesAddedThrough(s0: State, s1: State, s2: State)
    requires EdgesAdded(s0, s1) && EdgesAdded(s1, s2)
    ensures EdgesAdded(s0, s2)
  {
  }

  // ----- storing a face

  /** The outline of face n is being copied: so many of its edges have been entered from e0 on. */
  ghost predicate OutlineDone(f: Tables, t: Tables, n: nat, e0: nat, i: nat) {
    && FaceOk(f, n) && i <= f.faces[n].numedges && |t.edgeindex| == e0 + i
    && forall j: nat | j < i :: IsEntry(f, t, n, e0, j)
  }

  /** Entry j of the outline. */
  ghost predicate IsEntry(f: Tables, t: Tables, n: nat, e0: nat, j: nat) {
    && n < |f.faces| && f.faces[n].firstedge + j < |f.edgeindex| && e0 + j < |t.edgeindex|
    && SameEnds(f, t, f.edgeindex[f.faces[n].firstedge + j], t.edgeindex[e0 + j])
  }

  ghost predicate EntriesAdded(s0: State, s1: State) {
    && Extends(s0.t, s1.t) && s1.t.faces == s0.t.faces && s1.t.faceindex == s0.t.faceindex && s1.t.areas == s0.t.areas
    && s1.faceoptimizeindex == s0.faceoptimizeindex && s1.facefrom == s0.facefrom
    && s1.edgeslots == s0.edgeslots && s1.faceslots == s0.faceslots && Stays(s0.edgeoptimizeindex, s1.edgeoptimizeindex)
  }

  ghost function EntryAdded(s: State, g: int): State {
    s.(t := s.t.(edgeindex := s.t.edgeindex + [g]))
  }

  /** One more edge of the outline: stored, and entered. */
  lemma NextEntry(f: Tables, keep: seq<bool>, s0: State, s: State, s1: State, n: nat, e0: nat, i: nat, g: int)
    requires EntriesAdded(s0, s) && EdgesAdded(s, s1) && Valid(f, keep, s1) && OutlineDone(f, s.t, n, e0, i)
    requires i < f.faces[n].numedges && f.faces[n].firstedge + i < |f.edgeindex|
    requires SameEnds(f, s1.t, f.edgeindex[f.faces[n].firstedge + i], g)
    ensures EntriesAdded(s0, EntryAdded(s1, g)) && Valid(f, keep, EntryAdded(s1, g))
    ensures OutlineDone(f, EntryAdded(s1, g).t, n, e0, i + 1)
  {
    hide Back, FaceOk, LookOf, Kept, Bounded, EdgeOk, Ends;
    FaceSlice(f, n);
    var s2 := EntryAdded(s1, g);
    TablesGrow(f, keep, s1, s2);
    forall j: nat | j < i + 1 ensures IsEntry(f, s2.t, n, e0, j) {
      if j < i {
        assert IsEntry(f, s.t, n, e0, j);
        assert s2.t.edgeindex[e0 + j] == s.t.edgeindex[e0 + j];
        EndsExtend(s.t, s2.t, s.t.edgeindex[e0 + j]);
      } else {
        EndsExtend(s1.t, s2.t, g);
      }
    }
  }

  ghost function FaceStored(f: Tables, s: State, n: nat, e0: nat): State
    requires n < |f.faces| && n < |s.faceoptimizeindex|
  {
    var face := f.faces[n];
    s.(t := s.t.(faces := s.t.faces + [face.(firstedge := e0)]),
       faceoptimizeindex := s.faceoptimizeindex[n := |s.t.faces|], facefrom := s.facefrom + [n],
       edgeslots := s.edgeslots + seq<nat>(face.numedges, j requires 0 <= j < face.numedges => face.firstedge + j))
  }

  /** The face with its outline looks as in the file. */
  lemma StoredLook(f: Tables, t: Tables, n: nat, e0: nat, m: nat)
    requires FaceOk(f, n) && OutlineDone(f, t, n, e0, f.faces[n].numedges)
    requires m < |t.faces| && t.faces[m] == f.faces[n].(firstedge := e0)
    ensures SameLook(f, t, n, m)
  {
    hide EdgeOk, Ends;
    var k := f.faces[n].numedges;
    forall j | e0 <= j < e0 + k
      ensures EdgeOk(t, t.edgeindex[j])
        && Ends(t, t.edgeindex[j]) == Ends(f, f.edgeindex[f.faces[n].firstedge + (j - e0)])
    {
      assert IsEntry(f, t, n, e0, j - e0);
    }
    assert Outline(t, e0, k) == Outline(f, f.faces[n].firstedge, k);
  }

  lemma FaceStoredOk(f: Tables, keep: seq<bool>, s: State, n: nat, e0: nat)
    requires Valid(f, keep, s) && FaceOk(f, n) && 0 < n && Kept(f, keep, n) && s.faceoptimizeindex[n] == 0
      && Bounded(f, n)
    requires OutlineDone(f, s.t, n, e0, f.faces[n].numedges)
    ensures Valid(f, keep, FaceStored(f, s, n, e0)) && SameLook(f, FaceStored(f, s, n, e0).t, n, |s.t.faces|)
  {
    hide Back, FaceOk, LookOf, Kept, Bounded, EdgeOk, Ends;
    FaceSlice(f, n);
    var s1 := FaceStored(f, s, n, e0);
    BackMore(s.faceoptimizeindex, s.facefrom, n);
    TablesGrow(f, keep, s, s1);
    assert OutlineDone(f, s1.t, n, e0, f.faces[n].numedges) by {
      forall j: nat | j < f.faces[n].numedges ensures IsEntry(f, s1.t, n, e0, j) {
        assert IsEntry(f, s.t, n, e0, j);
        EndsExtend(s.t, s1.t, s.t.edgeindex[e0 + j]);
      }
    }
    StoredLook(f, s1.t, n, e0, |s.t.faces|);
  }

  /** The entries of a face stored for the first time have not been used before. */
  lemma SlotsStored(f: Tables, s0: State, s: State, n: nat, e0: nat)
    requires FacesApart(f) && EdgeSlotsOk(f, s0) && EntriesAdded(s0, s) && FaceOk(f, n)
    requires n < |s0.faceoptimizeindex| && s0.faceoptimizeindex[n] == 0 && |s0.t.faces| > 0
    requires |s.t.edgeindex| == |s0.t.edgeindex| + f.faces[n].numedges
    ensures EdgeSlotsOk(f, FaceStored(f, s, n, e0))
  {
    hide EdgeOk, Extends, FaceOk;
    FaceSlice(f, n);
    var s1 := FaceStored(f, s, n, e0);
    var k, first := |s.edgeslots|, f.faces[n].firstedge;
    forall j | 0 <= j < |s1.edgeslots| ensures HasFace(f, s1.faceoptimizeindex, s1.edgeslots[j]) {
      if j < k {
        assert HasFace(f, s0.faceoptimizeindex, s0.edgeslots[j]);
        var m: nat :| IsFaceOf(f, s0.faceoptimizeindex, m, s0.edgeslots[j]);
        assert IsFaceOf(f, s1.faceoptimizeindex, m, s1.edgeslots[j]);
      } else {
        assert IsFaceOf(f, s1.faceoptimizeindex, n, s1.edgeslots[j]);
      }
    }
    forall i, j | 0 <= i < j < |s1.edgeslots| ensures s1.edgeslots[i] != s1.edgeslots[j] {
      if i < k <= j {
        assert HasFace(f, s0.faceoptimizeindex, s0.edgeslots[i]);
        assert InFace(f, n, s1.edgeslots[j]);
      }
    }
  }

  lemma FaceSlice(f: Tables, n: nat)
    requires FaceOk(f, n)
    ensures n < |f.faces| && f.faces[n].firstedge + f.faces[n].numedges <= |f.edgeindex|
  {
  }

  // ----- the faces of an area

  /** Faces listed for an area: on which side it is, and what they look like. */
  ghost function Sides(t: Tables, entries: seq<int>): (r: seq<(bool, Look)>)
    requires forall i | 0 <= i < |entries| :: entries[i] != 0 && FaceOk(t, Abs(entries[i]))
    ensures |r| == |entries|
  {
    seq(|entries|, i requires 0 <= i < |entries| => (entries[i] > 0, LookOf(t, Abs(entries[i]))))
  }

  /** The list without the faces that are not kept. */
  ghost function KeptEntries(f: Tables, keep: seq<bool>, entries: seq<int>): (r: seq<int>)
    requires |keep| == |f.faces| && forall i | 0 <= i < |entries| :: entries[i] != 0 && FaceOk(f, Abs(entries[i]))
    ensures forall i | 0 <= i < |r| :: r[i] != 0 && FaceOk(f, Abs(r[i])) && r[i] in entries && Kept(f, keep, Abs(r[i]))
  {
    if entries == [] then [] else
      var k := |entries| - 1;
      assert entries[k] != 0 && FaceOk(f, Abs(entries[k]));
      KeptEntries(f, keep, entries[..k]) + if Kept(f, keep, Abs(entries[k])) then [entries[k]] else []
  }

  lemma SidesExtend(t0: Tables, t1: Tables, entries: seq<int>)
    requires Extends(t0, t1) && forall i | 0 <= i < |entries| :: entries[i] != 0 && FaceOk(t0, Abs(entries[i]))
    ensures forall i | 0 <= i < |entries| :: FaceOk(t1, Abs(entries[i]))
    ensures Sides(t1, entries) == Sides(t0, entries)
  {
    hide FaceOk, LookOf;
    forall i | 0 <= i < |entries|
      ensures FaceOk(t1, Abs(entries[i])) && LookOf(t1, Abs(entries[i])) == LookOf(t0, Abs(entries[i]))
    {
      LookExtends(t0, t1, Abs(entries[i]));
    }
  }

  // ----- steps of the methods

  lemma NothingAdded(s: State)
    ensures EdgesAdded(s, s)
  {
  }

  /** A stored edge has its number. */
  lemma EdgeNumber(f: Tables, keep: seq<bool>, s: State, e: nat)
    requires Valid(f, keep, s) && EdgeOk(f, e)
    ensures e < |f.edges| == |s.edgeoptimizeindex| && f.edges[e].v0 < |f.vertexes| && f.edges[e].v1 < |f.vertexes|
      && 1 <= |s.t.edges|
    ensures s.edgeoptimizeindex[e] != 0 ==> SameEnds(f, s.t, e, s.edgeoptimizeindex[e])
  {
    hide VertexesOk, FacesOk, Ends;
    if s.edgeoptimizeindex[e] != 0 {
      assert SameEnds(f, s.t, s.edgefrom[s.edgeoptimizeindex[e]], s.edgeoptimizeindex[e]);
    }
  }

  lemma StoredStays(s0: State, s1: State, v: nat)
    requires EdgesAdded(s0, s1) && v < |s0.t.vertexes|
    ensures v < |s1.t.vertexes| && s1.t.vertexes[v] == s0.t.vertexes[v]
  {
  }

  /** Faces have been added, with their edges and vertexes. */
  ghost predicate FaceAdded(s0: State, s1: State) {
    && Extends(s0.t, s1.t) && s1.t.faceindex == s0.t.faceindex && s1.t.areas == s0.t.areas
    && s1.faceslots == s0.faceslots
    && Stays(s0.edgeoptimizeindex, s1.edgeoptimizeindex) && Stays(s0.faceoptimizeindex, s1.faceoptimizeindex)
  }

  /** The number of a kept face: its side, and where a face of the same looks is. */
  ghost predicate IsOptFace(f: Tables, s: State, facenum: int, m: int) {
    && m != 0 && (m > 0 <==> facenum > 0) && SameLook(f, s.t, Abs(facenum), Abs(m))
    && Abs(facenum) < |s.faceoptimizeindex| && s.faceoptimizeindex[Abs(facenum)] == Abs(m)
  }

  lemma NothingStored(s: State)
    ensures FaceAdded(s, s)
  {
  }

  lemma FaceNumber(f: Tables, keep: seq<bool>, s: State, n: nat)
    requires Valid(f, keep, s) && FaceOk(f, n)
    ensures n < |f.faces| == |s.faceoptimizeindex| == |keep| && 1 <= |s.t.faces|
    ensures s.faceoptimizeindex[n] != 0 ==> SameLook(f, s.t, n, s.faceoptimizeindex[n])
  {
    hide VertexesOk, EdgesOk, FaceOk, LookOf;
    FaceSlice(f, n);
    if s.faceoptimizeindex[n] != 0 {
      assert SameLook(f, s.t, s.facefrom[s.faceoptimizeindex[n]], s.faceoptimizeindex[n]);
    }
  }

  lemma OutlineStarts(f: Tables, s: State, n: nat)
    requires FaceOk(f, n)
    ensures EntriesAdded(s, s) && OutlineDone(f, s.t, n, |s.t.edgeindex|, 0)
  {
  }

  lemma FaceEdge(f: Tables, n: nat, i: nat)
    requires FaceOk(f, n) && i < f.faces[n].numedges
    ensures f.faces[n].firstedge + i < |f.edgeindex| && EdgeOk(f, f.edgeindex[f.faces[n].firstedge + i])
  {
  }

  lemma Untouched(f: Tables, s0: State, s: State, n: nat, e0: nat)
    requires EntriesAdded(s0, s) && FaceOk(f, n) && OutlineDone(f, s.t, n, e0, f.faces[n].numedges)
    ensures s.faceoptimizeindex == s0.faceoptimizeindex && s.t.faces == s0.t.faces && s.edgeslots == s0.edgeslots
    ensures s.facefrom == s0.facefrom
    ensures e0 == |s0.t.edgeindex| ==> |s.t.edgeindex| == |s0.t.edgeindex| + f.faces[n].numedges
  {
  }

  lemma FaceAddedLast(f: Tables, s0: State, s: State, n: nat, e0: nat)
    requires EntriesAdded(s0, s) && n < |f.faces| && n < |s.faceoptimizeindex| && s.faceoptimizeindex[n] == 0
    ensures FaceAdded(s0, FaceStored(f, s, n, e0))
  {
  }

  // ----- areas

  ghost function OldEntries(f: Tables, a: nat): seq<int>
    requires AreaOk(f, a)
  {
    f.faceindex[f.areas[a].firstface..f.areas[a].firstface + f.areas[a].numfaces]
  }

  ghost predicate EntriesOk(t: Tables, entries: seq<int>) {
    forall i | 0 <= i < |entries| :: entries[i] != 0 && FaceOk(t, Abs(entries[i]))
  }

  /** Every kept face of the list has been stored. */
  ghost predicate ListStored(f: Tables, keep: seq<bool>, s: State, entries: seq<int>)
    requires |keep| == |f.faces| && EntriesOk(f, entries)
  {
    |s.faceoptimizeindex| == |f.faces| &&
    forall i | 0 <= i < |entries| :: Kept(f, keep, Abs(entries[i])) ==> s.faceoptimizeindex[Abs(entries[i])] != 0
  }

  /** The first i faces of area a have been gone through: from f0 on the face index has those that are kept. */
  ghost predicate AreaPart(f: Tables, keep: seq<bool>, s: State, a: nat, f0: nat, i: nat) {
    && |keep| == |f.faces| && AreaOk(f, a) && i <= f.areas[a].numfaces && f0 <= |s.t.faceindex|
    && EntriesOk(s.t, s.t.faceindex[f0..])
    && Sides(s.t, s.t.faceindex[f0..]) == Sides(f, KeptEntries(f, keep, OldEntries(f, a)[..i]))
    && ListStored(f, keep, s, OldEntries(f, a)[..i])
  }

  /** Area a of the new tables is that of the file, with the faces that are kept, in the same order and on the same
      sides. */
  ghost predicate AreaDone(f: Tables, keep: seq<bool>, s: State, a: nat) {
    && |keep| == |f.faces| && AreaOk(f, a) && AreaOk(s.t, a)
    && s.t.areas[a] == f.areas[a].(numfaces := s.t.areas[a].numfaces, firstface := s.t.areas[a].firstface)
    && Sides(s.t, OldEntries(s.t, a)) == Sides(f, KeptEntries(f, keep, OldEntries(f, a)))
    && ListStored(f, keep, s, OldEntries(f, a))
  }

  /** Old entry j of the face index belongs to area b. */
  ghost predicate InArea(f: Tables, b: nat, j: nat) {
    b < |f.areas| && f.areas[b].firstface <= j < f.areas[b].firstface + f.areas[b].numfaces <= |f.faceindex|
  }

  /** Areas have different entries of the face index. */
  ghost predicate AreasApart(f: Tables) {
    forall n: nat, m: nat, j: nat | InArea(f, n, j) && InArea(f, m, j) :: n == m
  }

  ghost predicate BeforeArea(f: Tables, a: nat, j: nat) {
    exists b: nat :: b < a && InArea(f, b, j)
  }

  /** Entries of the new face index come from different old ones, of areas before a or the first i of a. */
  ghost predicate SlotsBelow(f: Tables, s: State, a: nat, i: nat) {
    && |s.faceslots| == |s.t.faceindex| && Distinct(s.faceslots)
    && forall j | 0 <= j < |s.faceslots| :: BeforeArea(f, a, s.faceslots[j]) ||
         (InArea(f, a, s.faceslots[j]) && s.faceslots[j] < f.areas[a].firstface + i)
  }

  /** Tables have grown, areas other than a are as they were. */
  ghost predicate Grows(s0: State, s1: State, a: nat) {
    && Extends(s0.t, s1.t) && |s1.t.areas| == |s0.t.areas|
    && (forall b | 0 <= b < |s0.t.areas| && b != a :: s1.t.areas[b] == s0.t.areas[b])
    && Stays(s0.edgeoptimizeindex, s1.edgeoptimizeindex) && Stays(s0.faceoptimizeindex, s1.faceoptimizeindex)
  }

  lemma AreaSlice(f: Tables, a: nat)
    requires AreaOk(f, a)
    ensures a < |f.areas| && f.areas[a].firstface + f.areas[a].numfaces <= |f.faceindex|
  {
  }

  lemma AreaFace(f: Tables, a: nat, i: nat)
    requires AreaOk(f, a) && i < f.areas[a].numfaces
    ensures f.areas[a].firstface + i < |f.faceindex| && f.faceindex[f.areas[a].firstface + i] != 0
    ensures FaceOk(f, Abs(f.faceindex[f.areas[a].firstface + i]))
    ensures a > 0 ==> Bounded(f, Abs(f.faceindex[f.areas[a].firstface + i]))
  {
    if a > 0 {
      assert BoundsArea(f, a, i, Abs(f.faceindex[f.areas[a].firstface + i]));
    }
  }

  lemma PartStarts(f: Tables, keep: seq<bool>, s: State, a: nat)
    requires AreaOk(f, a) && Valid(f, keep, s)
    ensures AreaPart(f, keep, s, a, |s.t.faceindex|, 0) && Grows(s, s, a)
  {
    hide VertexesOk, EdgesOk;
    assert Sides(s.t, []) == Sides(f, []);
  }

  lemma FaceAddedKeeps(s0: State, s1: State)
    requires FaceAdded(s0, s1)
    ensures s1.t.faceindex == s0.t.faceindex && s1.t.areas == s0.t.areas && s1.faceslots == s0.faceslots
  {
  }

  lemma KeptOrNot(f: Tables, keep: seq<bool>, s: State, facenum: int, m: int)
    requires |keep| == |f.faces| && Abs(facenum) < |f.faces|
    requires if Kept(f, keep, Abs(facenum)) then IsOptFace(f, s, facenum, m) else m == 0
    ensures m != 0 <==> Kept(f, keep, Abs(facenum))
    ensures m != 0 ==> IsOptFace(f, s, facenum, m)
  {
  }

  /** What has been entered so far looks the same after another face has been added. */
  lemma PartStays(f: Tables, keep: seq<bool>, s: State, s1: State, a: nat, f0: nat, i: nat)
    requires AreaPart(f, keep, s, a, f0, i) && FaceAdded(s, s1)
    ensures AreaPart(f, keep, s1, a, f0, i)
  {
    hide FaceOk, LookOf, Kept, Bounded, Extends, KeptEntries, ListStored;
    SidesExtend(s.t, s1.t, s.t.faceindex[f0..]);
    ListStays(f, keep, s, s1, OldEntries(f, a)[..i]);
  }

  lemma ListStays(f: Tables, keep: seq<bool>, s: State, s1: State, entries: seq<int>)
    requires |keep| == |f.faces| && EntriesOk(f, entries) && ListStored(f, keep, s, entries)
    requires Stays(s.faceoptimizeindex, s1.faceoptimizeindex)
    ensures ListStored(f, keep, s1, entries)
  {
  }

  lemma EntriesBelow(f: Tables, a: nat, i: nat)
    requires AreaOk(f, a) && i < f.areas[a].numfaces
    ensures OldEntries(f, a)[..i + 1] == OldEntries(f, a)[..i] + [f.faceindex[f.areas[a].firstface + i]]
    ensures EntriesOk(f, OldEntries(f, a)) && i < |OldEntries(f, a)|
  {
  }

  lemma KeptNext(f: Tables, keep: seq<bool>, entries: seq<int>, e: int)
    requires |keep| == |f.faces| && EntriesOk(f, entries) && e != 0 && FaceOk(f, Abs(e))
    ensures EntriesOk(f, entries + [e]) && Abs(e) < |f.faces|
    ensures KeptEntries(f, keep, entries + [e]) == if Kept(f, keep, Abs(e)) then KeptEntries(f, keep, entries) + [e]
      else KeptEntries(f, keep, entries)
  {
    hide FaceOk;
    FaceSlice(f, Abs(e));
    assert (entries + [e])[..|entries|] == entries;
  }

  lemma SidesNext(t: Tables, entries: seq<int>, e: int)
    requires EntriesOk(t, entries) && e != 0 && FaceOk(t, Abs(e))
    ensures EntriesOk(t, entries + [e]) && Sides(t, entries + [e]) == Sides(t, entries) + [(e > 0, LookOf(t, Abs(e)))]
  {
    hide FaceOk;
  }

  lemma NextFace(f: Tables, keep: seq<bool>, s: State, s1: State, s2: State, a: nat, f0: nat, i: nat, m: int)
    requires AreaPart(f, keep, s, a, f0, i) && FaceAdded(s, s1) && AreaOk(f, a) && i < f.areas[a].numfaces
    requires f.areas[a].firstface + i < |f.faceindex| && |keep| == |f.faces|
    requires var e := f.faceindex[f.areas[a].firstface + i];
      && e != 0 && FaceOk(f, Abs(e)) && Abs(e) < |f.faces|
      && (m != 0 <==> Kept(f, keep, Abs(e))) && (m != 0 ==> IsOptFace(f, s1, e, m))
    requires s2.faceoptimizeindex == s1.faceoptimizeindex
      && s2.t == if m != 0 then s1.t.(faceindex := s1.t.faceindex + [m]) else s1.t
    ensures AreaPart(f, keep, s2, a, f0, i + 1)
  {
    hide FaceOk, LookOf, Kept, Bounded, FaceAdded, KeptEntries, Sides;
    var e := f.faceindex[f.areas[a].firstface + i];
    PartStays(f, keep, s, s1, a, f0, i);
    EntriesBelow(f, a, i);
    KeptNext(f, keep, OldEntries(f, a)[..i], e);
    if m != 0 {
      SidesNext(f, KeptEntries(f, keep, OldEntries(f, a)[..i]), e);
      SidesExtend(s1.t, s2.t, s1.t.faceindex[f0..]);
      LookExtends(s1.t, s2.t, Abs(m));
      SidesNext(s2.t, s1.t.faceindex[f0..], m);
      assert s2.t.faceindex[f0..] == s1.t.faceindex[f0..] + [m];
    }
    assert ListStored(f, keep, s2, OldEntries(f, a)[..i + 1]) by {
      ListNext(f, keep, s1, s2, OldEntries(f, a)[..i], e);
    }
  }

  lemma ListNext(f: Tables, keep: seq<bool>, s1: State, s2: State, entries: seq<int>, e: int)
    requires |keep| == |f.faces| && EntriesOk(f, entries) && e != 0 && FaceOk(f, Abs(e)) && Abs(e) < |f.faces|
    requires ListStored(f, keep, s1, entries) && s2.faceoptimizeindex == s1.faceoptimizeindex
    requires Kept(f, keep, Abs(e)) ==> s1.faceoptimizeindex[Abs(e)] != 0
    ensures EntriesOk(f, entries + [e]) && ListStored(f, keep, s2, entries + [e])
  {
  }

  lemma NextSlot(f: Tables, s: State, s1: State, s2: State, a: nat, i: nat, m: int)
    requires AreasApart(f) && AreaOk(f, a) && i < f.areas[a].numfaces && SlotsBelow(f, s, a, i) && FaceAdded(s, s1)
    requires if m != 0 then s2.t.faceindex == s1.t.faceindex + [m]
      && s2.faceslots == s1.faceslots + [f.areas[a].firstface + i]
      else s2 == s1
    ensures SlotsBelow(f, s2, a, i + 1)
  {
    hide FaceOk, Extends;
    if m != 0 {
      assert InArea(f, a, f.areas[a].firstface + i);
      forall j | 0 <= j < |s.faceslots| ensures s.faceslots[j] != f.areas[a].firstface + i {
        if BeforeArea(f, a, s.faceslots[j]) {
          var b: nat :| b < a && InArea(f, b, s.faceslots[j]);
        }
      }
    }
  }

  lemma GrowsOn(s0: State, s: State, s1: State, s2: State, a: nat, m: int)
    requires Grows(s0, s, a) && FaceAdded(s, s1)
    requires s2.faceoptimizeindex == s1.faceoptimizeindex && s2.edgeoptimizeindex == s1.edgeoptimizeindex
    requires s2.t == if m != 0 then s1.t.(faceindex := s1.t.faceindex + [m]) else s1.t
    ensures Grows(s0, s2, a)
  {
  }

  lemma ValidOn(f: Tables, keep: seq<bool>, s1: State, s2: State, m: int)
    requires Valid(f, keep, s1) && EdgeSlotsOk(f, s1)
    requires s2 == s1.(t := if m != 0 then s1.t.(faceindex := s1.t.faceindex + [m])
      else s1.t, faceslots := s2.faceslots)
    ensures Valid(f, keep, s2) && EdgeSlotsOk(f, s2)
  {
    hide Back, FaceOk, LookOf, Kept, Bounded, EdgeOk, Ends;
    TablesGrow(f, keep, s1, s2);
  }

  lemma AreaEnds(f: Tables, keep: seq<bool>, s0: State, s: State, s1: State, a: nat, f0: nat)
    requires AreaOk(f, a) && a < |f.areas| && Valid(f, keep, s) && EdgeSlotsOk(f, s) && Grows(s0, s, a)
      && |s.t.areas| == |f.areas|
    requires AreaPart(f, keep, s, a, f0, f.areas[a].numfaces) && SlotsBelow(f, s, a, f.areas[a].numfaces)
    requires f0 <= |s.t.faceindex|
    requires s1
      == s.(t := s.t.(areas := s.t.areas[a := f.areas[a].(numfaces := |s.t.faceindex| - f0, firstface := f0)]))
    ensures AreaDone(f, keep, s1, a) && Grows(s0, s1, a) && SlotsBelow(f, s1, a + 1, 0)
    ensures Valid(f, keep, s1) && EdgeSlotsOk(f, s1)
  {
    hide Back, FaceOk, LookOf, Kept, Bounded, EdgeOk, Ends, KeptEntries;
    TablesGrow(f, keep, s, s1);
    assert OldEntries(f, a)[..f.areas[a].numfaces] == OldEntries(f, a);
    SidesExtend(s.t, s1.t, s.t.faceindex[f0..]);
    assert s1.t.faceindex[f0..f0 + (|s.t.faceindex| - f0)] == s.t.faceindex[f0..];
    SlotsNextArea(f, s, s1, a);
  }

  lemma SlotsNextArea(f: Tables, s: State, s1: State, a: nat)
    requires AreaOk(f, a) && SlotsBelow(f, s, a, f.areas[a].numfaces) && s1.t.faceindex == s.t.faceindex
      && s1.faceslots == s.faceslots
    ensures SlotsBelow(f, s1, a + 1, 0)
  {
    hide FaceOk;
    forall j | 0 <= j < |s.faceslots| ensures BeforeArea(f, a + 1, s.faceslots[j]) {
      if BeforeArea(f, a, s.faceslots[j]) {
        var b: nat :| b < a && InArea(f, b, s.faceslots[j]);
      }
    }
  }

  lemma KeepSize(f: Tables, keep: seq<bool>, s: State)
    requires Valid(f, keep, s)
    ensures |keep| == |f.faces|
  {
  }

  // ----- the start

  /** Edge, face and area number 0 are dummies: all is 0. */
  ghost predicate Dummies(t: Tables) {
    var origin := Vec3(0.0, 0.0, 0.0);
    && |t.edges| > 0 && t.edges[0] == Edge(0, 0)
    && |t.faces| > 0 && t.faces[0] == Face(0, 0, 0, 0, 0, 0)
    && |t.areas| > 0 && t.areas[0] == Area(0, 0, 0, origin, origin, origin)
  }

  lemma DummiesStay(s0: State, s1: State, a: nat)
    requires Dummies(s0.t) && Grows(s0, s1, a) && a > 0
    ensures Dummies(s1.t)
  {
  }

  /** Nothing has been stored: only the dummies are there. */
  ghost predicate Empty(f: Tables, s: State) {
    && s.t.vertexes == [] && |s.t.edges| == 1 && s.t.edgeindex == [] && |s.t.faces| == 1 && s.t.faceindex == []
    && |s.t.areas| == |f.areas| && (|f.areas| > 0 ==> Dummies(s.t))
    && s.vertexfrom == [] && |s.edgefrom| == 1 && |s.facefrom| == 1 && s.edgeslots == [] && s.faceslots == []
    && AllZero(s.vertexoptimizeindex, |f.vertexes|) && AllZero(s.edgeoptimizeindex, |f.edges|)
    && AllZero(s.faceoptimizeindex, |f.faces|)
  }

  lemma EmptyHasDummies(f: Tables, s: State)
    requires Empty(f, s) && |f.areas| > 0
    ensures Dummies(s.t)
  {
  }

  ghost predicate AllZero(index: seq<nat>, n: nat) {
    |index| == n && forall i | 0 <= i < n :: index[i] == 0
  }

  lemma EmptyOk(f: Tables, keep: seq<bool>, s: State)
    requires Empty(f, s) && |keep| == |f.faces|
    ensures Valid(f, keep, s) && EdgeSlotsOk(f, s) && SlotsBelow(f, s, 1, 0)
  {
  }

  /** What has been done for an area stays. */
  lemma DoneGrows(f: Tables, keep: seq<bool>, s0: State, s1: State, a: nat, b: nat)
    requires AreaDone(f, keep, s0, a) && Grows(s0, s1, b) && a != b
    ensures AreaDone(f, keep, s1, a)
  {
    hide FaceOk, LookOf, Kept, KeptEntries, ListStored, Extends;
    assert s1.t.areas[a] == s0.t.areas[a];
    SidesExtend(s0.t, s1.t, OldEntries(s0.t, a));
    AreaExtends(s0.t, s1.t, a);
    EntriesStay(s0.t, s1.t, a);
    ListStays(f, keep, s0, s1, OldEntries(f, a));
  }

  lemma EntriesStay(t0: Tables, t1: Tables, a: nat)
    requires AreaOk(t0, a) && AreaOk(t1, a) && Extends(t0, t1) && t1.areas[a] == t0.areas[a]
    ensures OldEntries(t1, a) == OldEntries(t0, a)
  {
    hide FaceOk;
  }

  lemma AreaExtends(t0: Tables, t1: Tables, a: nat)
    requires AreaOk(t0, a) && Extends(t0, t1) && a < |t1.areas| && t1.areas[a] == t0.areas[a]
    ensures AreaOk(t1, a)
  {
    hide FaceOk;
    var area := t0.areas[a];
    forall i | area.firstface <= i < area.firstface + area.numfaces
      ensures i < |t1.faceindex| && t1.faceindex[i] != 0 && FaceOk(t1, Abs(t1.faceindex[i]))
    {
      assert t1.faceindex[i] == t0.faceindex[i];
      LookExtends(t0, t1, Abs(t0.faceindex[i]));
    }
  }
}
