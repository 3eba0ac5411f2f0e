/** Vertexes, edges, faces and areas of an AAS file, and what they look like. */
module AasGeometry {
  import opened AasFile

  datatype Edge = Edge(v0: nat, v1: nat)
  datatype Face = Face(planenum: nat, faceflags: bv32, numedges: nat, firstedge: nat, frontarea: nat, backarea: nat)
  datatype Area = Area(areanum: nat, numfaces: nat, firstface: nat, mins: Vec3, maxs: Vec3, center: Vec3)

  const FACE_LADDER: bv32 := 2

  /** An edge index entry is an edge number, negative if the edge is run through backwards; a face index entry is
      a face number, negative if the area is behind the face. Number 0 is a dummy in both. */
  datatype Tables = Tables(
    vertexes: seq<Vec3>, edges: seq<Edge>, edgeindex: seq<int>, faces: seq<Face>, faceindex: seq<int>, areas: seq<Area>)

  function Abs(x: int): nat { if x < 0 then -x else x }

  ghost predicate EdgeOk(t: Tables, e: int) {
    e != 0 && Abs(e) < |t.edges| && t.edges[Abs(e)].v0 < |t.vertexes| && t.edges[Abs(e)].v1 < |t.vertexes|
  }

  ghost predicate FaceOk(t: Tables, n: nat) {
    && n < |t.faces| && t.faces[n].firstedge + t.faces[n].numedges <= |t.edgeindex|
    && forall i | t.faces[n].firstedge <= i < t.faces[n].firstedge + t.faces[n].numedges :: EdgeOk(t, t.edgeindex[i])
  }

  ghost predicate AreaOk(t: Tables, a: nat) {
    && a < |t.areas| && t.areas[a].firstface + t.areas[a].numfaces <= |t.faceindex|
    && forall i | t.areas[a].firstface <= i < t.areas[a].firstface + t.areas[a].numfaces ::
         t.faceindex[i] != 0 && FaceOk(t, Abs(t.faceindex[i]))
  }

  /** The end points of an edge, in the order it is run through. */
  ghost function Ends(t: Tables, e: int): (Vec3, Vec3)
    requires EdgeOk(t, e)
  {
    var g := t.edges[Abs(e)];
    if e > 0 then (t.vertexes[g.v0], t.vertexes[g.v1]) else (t.vertexes[g.v1], t.vertexes[g.v0])
  }

  /** What a face looks like: its plane, flags, the areas on both sides, and its outline. */
  datatype Look = Look(planenum: nat, faceflags: bv32, frontarea: nat, backarea: nat, outline: seq<(Vec3, Vec3)>)

  ghost function Outline(t: Tables, first: nat, n: nat): (s: seq<(Vec3, Vec3)>)
    requires first + n <= |t.edgeindex| && forall i | first <= i < first + n :: EdgeOk(t, t.edgeindex[i])
    ensures |s| == n && forall i | 0 <= i < n :: s[i] == Ends(t, t.edgeindex[first + i])
  {
    seq(n, i requires 0 <= i < n => Ends(t, t.edgeindex[first + i]))
  }

  ghost function LookOf(t: Tables, n: nat): Look
    requires FaceOk(t, n)
  {
    var f := t.faces[n];
    Look(f.planenum, f.faceflags, f.frontarea, f.backarea, Outline(t, f.firstedge, f.numedges))
  }

  /** t1 has everything t0 has at the same place, and maybe more. */
  ghost predicate Extends(t0: Tables, t1: Tables) {
    && t0.vertexes <= t1.vertexes && t0.edges <= t1.edges && t0.edgeindex <= t1.edgeindex
    && t0.faces <= t1.faces && t0.faceindex <= t1.faceindex
  }

  lemma EndsExtend(t0: Tables, t1: Tables, e: int)
    requires Extends(t0, t1) && EdgeOk(t0, e)
    ensures EdgeOk(t1, e) && Ends(t1, e) == Ends(t0, e)
  {
    assert t1.edges[Abs(e)] == t0.edges[Abs(e)];
    assert t1.vertexes[t0.edges[Abs(e)].v0] == t0.vertexes[t0.edges[Abs(e)].v0];
    assert t1.vertexes[t0.edges[Abs(e)].v1] == t0.vertexes[t0.edges[Abs(e)].v1];
  }

  lemma OutlineExtends(t0: Tables, t1: Tables, first: nat, n: nat)
    requires Extends(t0, t1)
    requires first + n <= |t0.edgeindex| && forall i | first <= i < first + n :: EdgeOk(t0, t0.edgeindex[i])
    ensures forall i | first <= i < first + n :: EdgeOk(t1, t1.edgeindex[i])
    ensures Outline(t1, first, n) == Outline(t0, first, n)
  {
    forall i | first <= i < first + n
      ensures EdgeOk(t1, t1.edgeindex[i]) && Ends(t1, t1.edgeindex[i]) == Ends(t0, t0.edgeindex[i])
    {
      assert t1.edgeindex[i] == t0.edgeindex[i];
      EndsExtend(t0, t1, t0.edgeindex[i]);
    }
  }

  lemma LookExtends(t0: Tables, t1: Tables, n: nat)
    requires Extends(t0, t1) && FaceOk(t0, n)
    ensures FaceOk(t1, n) && LookOf(t1, n) == LookOf(t0, n)
  {
    assert t1.faces[n] == t0.faces[n];
    OutlineExtends(t0, t1, t0.faces[n].firstedge, t0.faces[n].numedges);
  }
}
