/** Which edges and vertexes of the file the optimizer comes across, and in which order. */
module OptimizedUses {
  import opened AasGeometry
  import opened OptimizedTables
  import opened Counting

  // ----- read off the file

  /** The numbers of the edges of a face, in the order of its outline. */
  ghost function OutlineEdges(f: Tables, n: nat): (r: seq<nat>)
    requires FaceOk(f, n)
    ensures |r| == f.faces[n].numedges && forall e | e in r :: EdgeOk(f, e)
  {
    var face := f.faces[n];
    seq<nat>(face.numedges, i requires 0 <= i < face.numedges => Abs(f.edgeindex[face.firstedge + i]))
  }

  /** The edges of the kept faces of a list, in order. */
  ghost function KeptUses(f: Tables, keep: seq<bool>, entries: seq<int>): (r: seq<nat>)
    requires |keep| == |f.faces| && EntriesOk(f, entries)
    ensures forall e | e in r :: EdgeOk(f, e)
  {
    if entries == [] then [] else
      var k := |entries| - 1;
      assert entries[k] != 0 && FaceOk(f, Abs(entries[k]));
      KeptUses(f, keep, entries[..k]) + if Kept(f, keep, Abs(entries[k])) then OutlineEdges(f, Abs(entries[k])) else []
  }

  /** The edges of the kept faces of all areas before a, in order. */
  ghost function FileUses(f: Tables, keep: seq<bool>, a: nat): (r: seq<nat>)
    requires |keep| == |f.faces| && a <= |f.areas| && forall b | 0 < b < a :: AreaOk(f, b)
    ensures forall e | e in r :: EdgeOk(f, e)
  {
    if a <= 1 then [] else
      assert AreaOk(f, a - 1);
      FileUses(f, keep, a - 1) + KeptUses(f, keep, OldEntries(f, a - 1))
  }

  /** Edge e belongs to the kept face n, and some area has that face. */
  ghost predicate UsedBy(f: Tables, keep: seq<bool>, e: nat, n: nat) {
    FaceOk(f, n) && |keep| == |f.faces| && Kept(f, keep, n) && Bounded(f, n) && e in OutlineEdges(f, n)
  }

  ghost predicate EdgeUsed(f: Tables, keep: seq<bool>, e: nat) {
    exists n: nat :: UsedBy(f, keep, e, n)
  }

  /** Entry i of the list is a kept face with edge e. */
  ghost predicate UsedAt(f: Tables, keep: seq<bool>, e: nat, entries: seq<int>, i: nat) {
    && i < |entries| && FaceOk(f, Abs(entries[i])) && Abs(entries[i]) < |f.faces| == |keep|
    && Kept(f, keep, Abs(entries[i])) && e in OutlineEdges(f, Abs(entries[i]))
  }

  lemma {:induction false} KeptUsesAre(f: Tables, keep: seq<bool>, entries: seq<int>, e: nat)
    requires |keep| == |f.faces| && EntriesOk(f, entries)
    ensures e in KeptUses(f, keep, entries) <==> exists i: nat :: UsedAt(f, keep, e, entries, i)
  {
    hide EdgeOk, OutlineEdges, Kept;
    if entries != [] {
      var k := |entries| - 1;
      assert entries[k] != 0 && FaceOk(f, Abs(entries[k]));
      KeptUsesAre(f, keep, entries[..k], e);
      if i: nat :| UsedAt(f, keep, e, entries[..k], i) {
        assert UsedAt(f, keep, e, entries, i);
      }
      if i: nat :| UsedAt(f, keep, e, entries, i) && i < k {
        assert UsedAt(f, keep, e, entries[..k], i);
      }
      if e in KeptUses(f, keep, entries) && e !in KeptUses(f, keep, entries[..k]) {
        assert UsedAt(f, keep, e, entries, k);
      }
    }
  }

  /** Edge e is used by the list of area b. */
  ghost predicate UsedIn(f: Tables, keep: seq<bool>, e: nat, b: nat)
    requires |keep| == |f.faces|
  {
    AreaOk(f, b) && e in KeptUses(f, keep, OldEntries(f, b))
  }

  lemma {:induction false} FileUsesAre(f: Tables, keep: seq<bool>, a: nat, e: nat)
    requires |keep| == |f.faces| && a <= |f.areas| && forall b | 0 < b < a :: AreaOk(f, b)
    ensures e in FileUses(f, keep, a) <==> exists b: nat :: 0 < b < a && UsedIn(f, keep, e, b)
  {
    hide AreaOk, KeptUses, OldEntries, EdgeOk;
    if a > 1 {
      assert AreaOk(f, a - 1);
      FileUsesAre(f, keep, a - 1, e);
      assert e in FileUses(f, keep, a) <==> e in FileUses(f, keep, a - 1) || UsedIn(f, keep, e, a - 1);
    }
  }

  /** The edges come across are those of the kept faces some area has. */
  lemma UsesAre(f: Tables, keep: seq<bool>, e: nat)
    requires |keep| == |f.faces| && forall b | 0 < b < |f.areas| :: AreaOk(f, b)
    ensures e in FileUses(f, keep, |f.areas|) <==> EdgeUsed(f, keep, e)
  {
    hide FaceOk, AreaOk, OutlineEdges, KeptUses, FileUses, Kept;
    FileUsesAre(f, keep, |f.areas|, e);
    if e in FileUses(f, keep, |f.areas|) {
      var b: nat :| 0 < b < |f.areas| && UsedIn(f, keep, e, b);
      UsedInFace(f, keep, e, b);
    }
    if n: nat :| UsedBy(f, keep, e, n) {
      var a: nat, i: nat :| BoundsArea(f, a, i, n);
      FaceInArea(f, keep, e, n, a, i);
    }
  }

  lemma UsedInFace(f: Tables, keep: seq<bool>, e: nat, b: nat)
    requires |keep| == |f.faces| && 0 < b && UsedIn(f, keep, e, b)
    ensures EdgeUsed(f, keep, e)
  {
    hide FaceOk, OutlineEdges, KeptUses, Kept;
    KeptUsesAre(f, keep, OldEntries(f, b), e);
    var entries := OldEntries(f, b);
    var i: nat :| UsedAt(f, keep, e, entries, i);
    assert entries[i] == f.faceindex[f.areas[b].firstface + i];
    assert BoundsArea(f, b, i, Abs(entries[i]));
    assert UsedBy(f, keep, e, Abs(entries[i]));
  }

  lemma FaceInArea(f: Tables, keep: seq<bool>, e: nat, n: nat, a: nat, i: nat)
    requires UsedBy(f, keep, e, n) && BoundsArea(f, a, i, n)
    ensures |keep| == |f.faces| && 0 < a < |f.areas| && UsedIn(f, keep, e, a)
  {
    hide FaceOk, OutlineEdges, KeptUses, Kept, Bounded;
    KeptUsesAre(f, keep, OldEntries(f, a), e);
    assert OldEntries(f, a)[i] == f.faceindex[f.areas[a].firstface + i];
    FaceSlice(f, n);
    assert UsedAt(f, keep, e, OldEntries(f, a), i);
  }

  // ----- vertexes

  /** The ends of the edges, in order. */
  ghost function Corners(f: Tables, es: seq<nat>): seq<nat>
    requires forall i | 0 <= i < |es| :: es[i] < |f.edges|
  {
    if es == [] then [] else
      var k := |es| - 1;
      Corners(f, es[..k]) + [f.edges[es[k]].v0, f.edges[es[k]].v1]
  }

  lemma CornersNext(f: Tables, es: seq<nat>, e: nat)
    requires (forall i | 0 <= i < |es| :: es[i] < |f.edges|) && e < |f.edges|
    ensures Corners(f, es + [e]) == Corners(f, es) + [f.edges[e].v0] + [f.edges[e].v1]
  {
    assert (es + [e])[..|es|] == es;
  }

  /** The vertexes m have been met. The first has got number 0, which reads as none; so exactly the vertexes met
      after it have a number, the first itself among them if it was met again. */
  ghost predicate MetOk(index: seq<nat>, from: seq<nat>, m: seq<nat>) {
    && (m == [] <==> from == []) && (m != [] ==> from[0] == m[0])
    && forall v: nat | v < |index| :: index[v] != 0 <==> m != [] && v in m[1..]
  }

  lemma MetNext(index: seq<nat>, from: seq<nat>, m: seq<nat>, v: nat)
    requires MetOk(index, from, m) && v < |index|
    ensures if index[v] != 0 then MetOk(index, from, m + [v]) else MetOk(index[v := |from|], from + [v], m + [v])
  {
    if m != [] {
      assert (m + [v])[1..] == m[1..] + [v];
    } else {
      assert (m + [v])[1..] == [];
    }
  }

  // ----- how many vertexes that makes

  ghost predicate IsEnd(f: Tables, e: nat, v: nat) {
    e < |f.edges| && (f.edges[e].v0 == v || f.edges[e].v1 == v)
  }

  /** v is an end of one of the edges. */
  ghost predicate EndOfAny(f: Tables, u: seq<nat>, v: nat) {
    exists e: nat :: e in u && IsEnd(f, e, v)
  }

  /** The ends of the edges. */
  ghost function UsedVertexes(f: Tables, u: seq<nat>): (r: set<nat>)
    ensures forall v: nat :: v in r <==> EndOfAny(f, u, v)
  {
    var r := (set e | e in u && e < |f.edges| :: f.edges[e].v0) + (set e | e in u && e < |f.edges| :: f.edges[e].v1);
    assert forall v: nat :: v in r ==> EndOfAny(f, u, v) by {
      forall v: nat | v in r ensures EndOfAny(f, u, v) {
        var e: nat :| e in u && IsEnd(f, e, v);
      }
    }
    r
  }

  /** The vertex come across first, the first end of the first edge, is come across again: it is its second end
      as well, or an end of another edge. */
  ghost predicate MetAgain(f: Tables, u: seq<nat>) {
    && u != [] && u[0] < |f.edges|
    && var a := f.edges[u[0]].v0;
       f.edges[u[0]].v1 == a || exists e: nat :: e in u && e != u[0] && IsEnd(f, e, a)
  }

  lemma {:induction false} CornersAre(f: Tables, es: seq<nat>, v: nat)
    requires forall i | 0 <= i < |es| :: es[i] < |f.edges|
    ensures v in Corners(f, es) <==> EndOfAny(f, es, v)
    ensures es != [] ==> |Corners(f, es)| >= 2 && Corners(f, es)[..2] == [f.edges[es[0]].v0, f.edges[es[0]].v1]
  {
    if es != [] {
      var k := |es| - 1;
      CornersAre(f, es[..k], v);
      assert es == es[..k] + [es[k]];
      if e: nat :| e in es && IsEnd(f, e, v) && EndOfAny(f, es, v) {
        assert e in es[..k] || e == es[k];
      }
      assert IsEnd(f, es[k], v) <==> v == f.edges[es[k]].v0 || v == f.edges[es[k]].v1;
      assert v in Corners(f, es) <==> v in Corners(f, es[..k]) || IsEnd(f, es[k], v);
      assert EndOfAny(f, es[..k], v) ==> EndOfAny(f, es, v);
    }
  }

  lemma {:induction false} CornersApart(f: Tables, e: nat, rest: seq<nat>)
    requires e < |f.edges| && forall i | 0 <= i < |rest| :: rest[i] < |f.edges|
    ensures Corners(f, [e] + rest) == [f.edges[e].v0, f.edges[e].v1] + Corners(f, rest)
  {
    if rest == [] {
      assert [e] + rest == [e];
    } else {
      var k := |rest| - 1;
      assert ([e] + rest)[..k + 1] == [e] + rest[..k];
      CornersApart(f, e, rest[..k]);
    }
  }

  /** Of the ends of different edges, the first comes again exactly if it is met again. */
  lemma FirstComesAgain(f: Tables, es: seq<nat>)
    requires es != [] && Distinct(es) && forall i | 0 <= i < |es| :: es[i] < |f.edges|
    ensures Corners(f, es) != [] && (Corners(f, es)[0] in Corners(f, es)[1..] <==> MetAgain(f, es))
  {
    hide Corners;
    var e, rest := es[0], es[1..];
    var a, b := f.edges[e].v0, f.edges[e].v1;
    assert es == [e] + rest;
    CornersApart(f, e, rest);
    CornersAre(f, rest, a);
    assert Corners(f, es)[1..] == [b] + Corners(f, rest);
    assert forall x: nat :: x in rest <==> x in es && x != e by {
      forall x: nat | x in rest ensures x != e {
        var i :| 0 <= i < |rest| && rest[i] == x;
        assert rest[i] == es[i + 1];
      }
      assert forall x: nat :: x in es ==> x == e || x in rest;
    }
  }

  // ----- edges

  /** The edges u have been come across: exactly they have a number, the first of them has number 1, and the
      vertexes met are their ends, each edge counted once. */
  ghost predicate UsesOk(f: Tables, s: State, u: seq<nat>) {
    && |s.edgefrom| >= 1 && |s.edgeoptimizeindex| == |f.edges| && |s.vertexoptimizeindex| == |f.vertexes|
    && (forall e: nat :: e in u <==> e < |s.edgeoptimizeindex| && s.edgeoptimizeindex[e] != 0)
    && (u != [] ==> |s.edgefrom| > 1 && s.edgefrom[1] == u[0]) && (u == [] ==> |s.edgefrom| == 1)
    && (forall i | 0 <= i < |s.edgefrom[1..]| :: s.edgefrom[1..][i] < |f.edges|)
    && MetOk(s.vertexoptimizeindex, s.vertexfrom, Corners(f, s.edgefrom[1..]))
  }

  lemma UsesSizes(f: Tables, s: State, u: seq<nat>)
    requires UsesOk(f, s, u)
    ensures |s.edgefrom| >= 1 && |s.edgeoptimizeindex| == |f.edges| && |s.vertexoptimizeindex| == |f.vertexes|
    ensures forall i | 0 <= i < |s.edgefrom[1..]| :: s.edgefrom[1..][i] < |f.edges|
    ensures MetOk(s.vertexoptimizeindex, s.vertexfrom, Corners(f, s.edgefrom[1..]))
  {
    hide MetOk, Corners;
  }

  lemma UsesAppended(f: Tables, s: State, s1: State, u: seq<nat>, e: nat)
    requires UsesOk(f, s, u) && e < |f.edges| && |s1.vertexoptimizeindex| == |f.vertexes| && |s.edgefrom| > 0
    requires s1.edgefrom == s.edgefrom + [e] && s1.edgeoptimizeindex == s.edgeoptimizeindex[e := |s.edgefrom|]
    requires (forall i | 0 <= i < |s1.edgefrom[1..]| :: s1.edgefrom[1..][i] < |f.edges|)
    requires MetOk(s1.vertexoptimizeindex, s1.vertexfrom, Corners(f, s1.edgefrom[1..]))
    ensures UsesOk(f, s1, u + [e])
  {
    hide MetOk, Corners;
  }

  lemma EdgeUsesOk(f: Tables, s: State, u: seq<nat>, e: nat, n0: nat, n1: nat)
    requires UsesOk(f, s, u) && EdgeOk(f, e) && s.edgeoptimizeindex[e] == 0 && |s.t.edges| == |s.edgefrom|
    requires VertexesOk(f, s) && VertexesOk(f, VertexMet(f, s, f.edges[e].v0))
    ensures UsesOk(f, EdgeStored(VertexMet(f, VertexMet(f, s, f.edges[e].v0), f.edges[e].v1), e, n0, n1), u + [e])
  {
    hide VertexesOk, MetOk, UsesOk, Corners;
    UsesSizes(f, s, u);
    var v0, v1, m := f.edges[e].v0, f.edges[e].v1, Corners(f, s.edgefrom[1..]);
    var s1 := VertexMet(f, s, v0);
    var s2 := VertexMet(f, s1, v1);
    var s3 := EdgeStored(s2, e, n0, n1);
    VertexMetOk(f, s, m, v0);
    VertexMetOk(f, s1, m + [v0], v1);
    assert s3.edgefrom[1..] == s.edgefrom[1..] + [e];
    CornersNext(f, s.edgefrom[1..], e);
    UsesAppended(f, s, s3, u, e);
  }

  lemma VertexMetOk(f: Tables, s: State, m: seq<nat>, v: nat)
    requires MetOk(s.vertexoptimizeindex, s.vertexfrom, m) && v < |f.vertexes| == |s.vertexoptimizeindex|
      && VertexesOk(f, s)
    ensures var s1 := VertexMet(f, s, v);
      && MetOk(s1.vertexoptimizeindex, s1.vertexfrom, m + [v]) && |s1.vertexoptimizeindex| == |f.vertexes|
      && s1.edgeoptimizeindex == s.edgeoptimizeindex && s1.edgefrom == s.edgefrom && s1.t.edges == s.t.edges
  {
    hide MetOk;
    MetNext(s.vertexoptimizeindex, s.vertexfrom, m, v);
  }

  lemma UsedAgain(f: Tables, s: State, u: seq<nat>, more: seq<nat>)
    requires UsesOk(f, s, u) && forall e | e in more :: e in u
    ensures UsesOk(f, s, u + more)
  {
    hide MetOk;
    assert more != [] ==> more[0] in u;
  }

  lemma NumberIsUsed(f: Tables, s: State, u: seq<nat>, e: nat)
    requires UsesOk(f, s, u) && e < |s.edgeoptimizeindex| && s.edgeoptimizeindex[e] != 0
    ensures e in u
  {
    hide MetOk;
  }

  /** Nothing else of the state matters. */
  lemma UsesSame(f: Tables, s: State, s1: State, u: seq<nat>)
    requires UsesOk(f, s, u) && s1.vertexoptimizeindex == s.vertexoptimizeindex && s1.vertexfrom == s.vertexfrom
    requires s1.edgeoptimizeindex == s.edgeoptimizeindex && s1.edgefrom == s.edgefrom
    ensures UsesOk(f, s1, u)
  {
    hide MetOk;
  }

  // ----- faces

  /** The edges of the faces that have a number have been come across. */
  ghost predicate FacesUsed(f: Tables, s: State, u: seq<nat>) {
    forall n: nat | n < |s.faceoptimizeindex| && s.faceoptimizeindex[n] != 0 :: FaceUsed(f, u, n)
  }

  ghost predicate FaceUsed(f: Tables, u: seq<nat>, n: nat) {
    FaceOk(f, n) && forall e | e in OutlineEdges(f, n) :: e in u
  }

  ghost predicate AllUsed(f: Tables, s: State, u: seq<nat>) {
    UsesOk(f, s, u) && FacesUsed(f, s, u)
  }

  lemma AllUsedIs(f: Tables, s: State, u: seq<nat>)
    requires AllUsed(f, s, u)
    ensures UsesOk(f, s, u) && FacesUsed(f, s, u)
  {
  }

  lemma FaceUsedAgain(f: Tables, s: State, u: seq<nat>, n: nat)
    requires AllUsed(f, s, u) && n < |s.faceoptimizeindex| && s.faceoptimizeindex[n] != 0
    ensures FaceOk(f, n) && AllUsed(f, s, u + OutlineEdges(f, n))
  {
    hide UsesOk, FaceOk, OutlineEdges;
    assert FaceUsed(f, u, n);
    UsedAgain(f, s, u, OutlineEdges(f, n));
    forall m: nat | m < |s.faceoptimizeindex| && s.faceoptimizeindex[m] != 0
      ensures FaceUsed(f, u + OutlineEdges(f, n), m)
    {
      assert FaceUsed(f, u, m);
    }
  }

  lemma FaceStoredUsed(f: Tables, s0: State, s: State, u: seq<nat>, n: nat, e0: nat)
    requires FacesUsed(f, s0, u) && s.faceoptimizeindex == s0.faceoptimizeindex && FaceOk(f, n)
    requires n < |f.faces| && n < |s.faceoptimizeindex| && UsesOk(f, s, u + OutlineEdges(f, n))
    ensures AllUsed(f, FaceStored(f, s, n, e0), u + OutlineEdges(f, n))
  {
    hide UsesOk, FaceOk, OutlineEdges;
    var s1, more := FaceStored(f, s, n, e0), OutlineEdges(f, n);
    UsesSame(f, s, s1, u + more);
    forall m: nat | m < |s1.faceoptimizeindex| && s1.faceoptimizeindex[m] != 0 ensures FaceUsed(f, u + more, m) {
      if m != n {
        assert FaceUsed(f, u, m);
      }
    }
  }

  lemma AllUsedSame(f: Tables, s: State, s1: State, u: seq<nat>)
    requires AllUsed(f, s, u) && s1.faceoptimizeindex == s.faceoptimizeindex
    requires s1.vertexoptimizeindex == s.vertexoptimizeindex && s1.vertexfrom == s.vertexfrom
    requires s1.edgeoptimizeindex == s.edgeoptimizeindex && s1.edgefrom == s.edgefrom
    ensures AllUsed(f, s1, u)
  {
    hide UsesOk, FaceUsed;
    UsesSame(f, s, s1, u);
  }

  lemma NothingUsed(f: Tables, s: State)
    requires Empty(f, s)
    ensures AllUsed(f, s, [])
  {
  }

  /** One more entry of a list. */
  lemma KeptUsesNext(f: Tables, keep: seq<bool>, a: nat, i: nat)
    requires |keep| == |f.faces| && AreaOk(f, a) && i < f.areas[a].numfaces
    ensures f.areas[a].firstface + i < |f.faceindex| && i < |OldEntries(f, a)|
    ensures EntriesOk(f, OldEntries(f, a)) && EntriesOk(f, OldEntries(f, a)[..i])
      && EntriesOk(f, OldEntries(f, a)[..i + 1])
    ensures var e := f.faceindex[f.areas[a].firstface + i];
      && FaceOk(f, Abs(e))
      && KeptUses(f, keep, OldEntries(f, a)[..i + 1])
      == KeptUses(f, keep, OldEntries(f, a)[..i]) + if Kept(f, keep, Abs(e)) then OutlineEdges(f, Abs(e)) else []
  {
    hide FaceOk, OutlineEdges, Kept;
    EntriesBelow(f, a, i);
    assert OldEntries(f, a)[..i + 1][..i] == OldEntries(f, a)[..i];
  }

  /** One more edge of an outline. */
  lemma OutlineNext(f: Tables, n: nat, i: nat)
    requires FaceOk(f, n) && i < f.faces[n].numedges
    ensures f.faces[n].firstedge + i < |f.edgeindex|
    ensures OutlineEdges(f, n)[..i + 1] == OutlineEdges(f, n)[..i] + [Abs(f.edgeindex[f.faces[n].firstedge + i])]
  {
    hide EdgeOk;
  }

  lemma AllEntries(f: Tables, a: nat)
    requires AreaOk(f, a)
    ensures |OldEntries(f, a)| == f.areas[a].numfaces && EntriesOk(f, OldEntries(f, a))
    ensures OldEntries(f, a)[..0] == [] && OldEntries(f, a)[..f.areas[a].numfaces] == OldEntries(f, a)
  {
  }

  lemma NoEntries(f: Tables, keep: seq<bool>)
    requires |keep| == |f.faces|
    ensures EntriesOk(f, []) && KeptUses(f, keep, []) == []
  {
  }

  lemma NoUses(f: Tables, keep: seq<bool>)
    requires |keep| == |f.faces| && |f.areas| > 0
    ensures FileUses(f, keep, 1) == []
  {
  }

  lemma UsesOfArea(f: Tables, keep: seq<bool>, a: nat)
    requires |keep| == |f.faces| && 0 < a < |f.areas| && forall b | 0 < b < |f.areas| :: AreaOk(f, b)
    ensures FileUses(f, keep, a + 1) == FileUses(f, keep, a) + KeptUses(f, keep, OldEntries(f, a))
  {
    hide AreaOk, KeptUses, OldEntries;
    assert AreaOk(f, a);
  }

  // ----- from what is stored back to the file

  /** The edges stored are those come across, each once, the first come across first. */
  lemma StoredEdges(f: Tables, keep: seq<bool>, s: State, u: seq<nat>)
    requires Valid(f, keep, s) && UsesOk(f, s, u)
    ensures |s.edgefrom| > 0 && Distinct(s.edgefrom[1..]) && (forall e: nat :: e in s.edgefrom[1..] <==> e in u)
    ensures s.edgefrom[1..] == [] <==> u == []
    ensures u != [] ==> s.edgefrom[1..][0] == u[0]
  {
    hide VertexesOk, FacesOk, MetOk, Corners, SameEnds;
    var es := s.edgefrom[1..];
    forall i, j | 0 <= i < j < |es| ensures es[i] != es[j] {
      assert es[i] == s.edgefrom[i + 1] && es[j] == s.edgefrom[j + 1];
    }
    forall e: nat | e in u ensures e in es {
      assert es[s.edgeoptimizeindex[e] - 1] == e;
    }
    forall e: nat | e in es ensures e in u {
      var i :| 0 <= i < |es| && es[i] == e;
      assert s.edgefrom[i + 1] == e;
    }
  }

  lemma NoneAgain(f: Tables)
    ensures Corners(f, []) == [] && !MetAgain(f, [])
  {
  }

  lemma SameUses(f: Tables, u: seq<nat>, w: seq<nat>)
    requires (forall e: nat :: e in u <==> e in w) && (u == [] <==> w == []) && (u != [] ==> u[0] == w[0])
    ensures UsedVertexes(f, u) == UsedVertexes(f, w) && (MetAgain(f, u) <==> MetAgain(f, w))
  {
    forall v: nat ensures EndOfAny(f, u, v) <==> EndOfAny(f, w, v) {
      if e: nat :| e in u && IsEnd(f, e, v) {
        assert e in w;
      }
      if e: nat :| e in w && IsEnd(f, e, v) {
        assert e in u;
      }
    }
  }

  /** All vertexes met are stored once, but the first twice if it was met again. */
  lemma StoredVertexes(index: seq<nat>, from: seq<nat>, m: seq<nat>)
    requires MetOk(index, from, m) && Back(index, from) && forall v | v in m :: v < |index|
    ensures |from| == |Elements(m)| + if m != [] && m[0] in m[1..] then 1 else 0
  {
    if m == [] {
      assert Elements(m) == {};
    } else {
      var rest, again := from[1..], Elements(m[1..]);
      forall v: nat ensures v in Elements(rest) <==> v in again {
        if v in again {
          assert v in m[1..] && v in m;
          assert rest[index[v] - 1] == v;
        }
        if v in Elements(rest) {
          var i :| 0 <= i < |rest| && rest[i] == v;
          assert from[i + 1] == v;
        }
      }
      assert Elements(rest) == again;
      forall i, j | 0 <= i < j < |rest| ensures rest[i] != rest[j] {
        assert rest[i] == from[i + 1] && rest[j] == from[j + 1];
      }
      DistinctSize(rest);
      FirstAndRest(m);
      if m[0] in m[1..] {
        assert Elements(m) == again;
      }
    }
  }

  lemma FirstAndRest(from: seq<nat>)
    requires from != []
    ensures Elements(from) == Elements(from[1..]) + {from[0]}
      && (from[0] in Elements(from[1..]) <==> from[0] in from[1..])
  {
    forall x | x in Elements(from) ensures x in Elements(from[1..]) + {from[0]} {
      var i :| 0 <= i < |from| && from[i] == x;
      if i > 0 {
        assert from[1..][i - 1] == x;
      }
    }
  }

  lemma EndExists(f: Tables, keep: seq<bool>, s: State, v: nat)
    requires Valid(f, keep, s) && EndOfAny(f, s.edgefrom[1..], v)
    ensures v < |f.vertexes|
  {
    hide VertexesOk, FacesOk, Ends;
    var e: nat :| e in s.edgefrom[1..] && IsEnd(f, e, v);
    var i :| 0 <= i < |s.edgefrom[1..]| && s.edgefrom[1..][i] == e;
    assert SameEnds(f, s.t, s.edgefrom[i + 1], i + 1);
  }

  /** How many vertexes are stored, read off the file. */
  lemma VertexTotal(f: Tables, keep: seq<bool>, s: State, u: seq<nat>)
    requires Valid(f, keep, s) && UsesOk(f, s, u)
    ensures |s.t.vertexes| == |UsedVertexes(f, u)| + if MetAgain(f, u) then 1 else 0
  {
    hide EdgesOk, FacesOk, Corners, UsedVertexes, MetOk, Back, UsesOk, MetAgain;
    UsesSizes(f, s, u);
    var es := s.edgefrom[1..];
    var m := Corners(f, es);
    StoredEdges(f, keep, s, u);
    SameUses(f, u, es);
    forall v: nat ensures v in m <==> v in UsedVertexes(f, es) {
      CornersAre(f, es, v);
    }
    forall v | v in m ensures v < |f.vertexes| {
      EndExists(f, keep, s, v);
    }
    assert Elements(m) == UsedVertexes(f, es);
    StoredVertexes(s.vertexoptimizeindex, s.vertexfrom, m);
    assert es == [] ==> m == [] && !MetAgain(f, es) by { NoneAgain(f); }
    if es != [] {
      CornersAre(f, es, 0);
      FirstComesAgain(f, es);
    }
  }
}
