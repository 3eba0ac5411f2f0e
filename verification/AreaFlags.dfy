/** Disabling an area changes the search graph of the clusters it is a member of, and of no other. */
module AreaFlags {
  import opened AasFile
  import opened AreaSearch
  import opened RouteWorld

  /** The world with other flags for area a. */
  function WithFlags(w: World, a: nat, flags: bv32): World
    requires a < |w.settings|
  {
    w.(settings := w.settings[a := w.settings[a].(areaflags := flags)])
  }

  lemma SameMembers(w: World, a: nat, flags: bv32)
    requires w.SizesOk() && a < |w.settings|
    ensures var v := WithFlags(w, a, flags);
      && v.SizesOk()
      && (forall c, b :: v.Member(c, b) == w.Member(c, b))
      && (forall c, b | 0 <= b < |w.settings| :: v.ClusterAreaNum(c, b) == w.ClusterAreaNum(c, b))
  {
  }

  lemma SameNumbering(w: World, a: nat, flags: bv32, c: nat)
    requires w.SizesOk() && a < |w.settings| && c < |w.clusters| && w.NumberedOk(c)
    ensures WithFlags(w, a, flags).SizesOk() && WithFlags(w, a, flags).NumberedOk(c)
  {
    var v := WithFlags(w, a, flags);
    SameMembers(w, a, flags);
    forall n: nat | n < v.clusters[c].numreachabilityareas ensures v.IsTaken(c, n) {
      assert w.IsTaken(c, n);
      var b: nat :| w.Names(c, n, b);
      assert v.Names(c, n, b);
    }
  }

  lemma SameLinks(w: World, a: nat, flags: bv32)
    requires w.SizesOk() && a < |w.settings| && w.LinksOk()
    ensures WithFlags(w, a, flags).SizesOk() && WithFlags(w, a, flags).LinksOk()
  {
    var v := WithFlags(w, a, flags);
    forall b: nat, i: nat | b < |v.settings| && i < |v.reversed[b]| ensures v.LinkOk(b, i) {
      assert w.LinkOk(b, i);
    }
  }

  lemma StillValid(w: World, a: nat, flags: bv32)
    requires w.Valid() && a < |w.settings|
    ensures WithFlags(w, a, flags).Valid()
  {
    var v := WithFlags(w, a, flags);
    SameMembers(w, a, flags);
    SameLinks(w, a, flags);
    forall p: nat | 0 < p < |v.portals| ensures v.IsPortal(p) {
      assert w.IsPortal(p);
    }
    forall b: nat | b < |v.settings| ensures v.CrossingsOk(b) {
      assert w.CrossingsOk(b);
    }
    forall b: nat, n: nat | v.IsArea(b) && n < v.settings[b].numreachableareas && n < 128 ensures v.IsListed(b, n) {
      assert w.IsListed(b, n);
    }
    forall c: nat | 0 < c < |v.clusters| ensures v.NumberedOk(c) && v.SliceOk(c) && v.ClosedUnderLinks(c) {
      SameNumbering(w, a, flags, c);
      assert w.SliceOk(c) && w.ClosedUnderLinks(c);
      SameSlice(w, v, c);
      SameClosure(w, a, flags, c);
    }
  }

  lemma SameSlice(w: World, v: World, c: nat)
    requires w.SizesOk() && v.SizesOk() && c < |w.clusters| && w.SliceOk(c)
    requires v.clusters == w.clusters && v.portalindex == w.portalindex && v.portals == w.portals
    ensures v.SliceOk(c)
  {
    forall p: nat | 0 < p < |v.portals| && (v.portals[p].frontcluster == c || v.portals[p].backcluster == c)
      ensures v.Listed(c, p)
    {
      assert w.Listed(c, p);
    }
  }

  lemma SameClosure(w: World, a: nat, flags: bv32, c: nat)
    requires w.SizesOk() && w.LinksOk() && a < |w.settings| && w.ClosedUnderLinks(c)
    ensures WithFlags(w, a, flags).SizesOk() && WithFlags(w, a, flags).LinksOk()
      && WithFlags(w, a, flags).ClosedUnderLinks(c)
  {
    var v := WithFlags(w, a, flags);
    SameMembers(w, a, flags);
    SameLinks(w, a, flags);
    forall b: nat, i: nat | v.Member(c, b) && i < |v.reversed[b]|
      ensures v.LinkOk(b, i)
        && (v.settings[v.reversed[b][i].areanum].cluster <= 0 ==> v.Member(c, v.reversed[b][i].areanum))
    {
      assert w.LinkOk(b, i);
    }
  }

  lemma {:induction false} SameArcs(w: World, a: nat, flags: bv32, c: nat, travelflags: bv32, b: nat, i: nat)
    requires w.Valid() && a < |w.settings| && WithFlags(w, a, flags).Valid() && a != b
    requires b < |w.settings| && i <= |w.reversed[b]|
    ensures WithFlags(w, a, flags).ArcsFrom(c, travelflags, b, i) == w.ArcsFrom(c, travelflags, b, i)
    decreases |w.reversed[b]| - i
  {
    assert |w.reversed| == |w.settings|;
    hide World.Valid;
    if i < |w.reversed[b]| {
      SameArc(w, a, flags, c, travelflags, b, i);
      SameArcs(w, a, flags, c, travelflags, b, i + 1);
    }
  }

  lemma SameArc(w: World, a: nat, flags: bv32, c: nat, travelflags: bv32, b: nat, i: nat)
    requires w.Valid() && a < |w.settings| && WithFlags(w, a, flags).Valid() && a != b
    requires b < |w.settings| && i < |w.reversed[b]|
    ensures WithFlags(w, a, flags).Usable(c, travelflags, b, i) == w.Usable(c, travelflags, b, i)
    ensures WithFlags(w, a, flags).ArcOf(c, b, i) == w.ArcOf(c, b, i)
  {
    var v := WithFlags(w, a, flags);
    hide World.Valid, World.TravelFlagForType, World.Disabled, Permits;
    LinkFacts(w, b, i);
    var l := w.reversed[b][i];
    assert v.settings[b] == w.settings[b];
    SameTravelFlag(w, a, flags, w.reachability[l.linknum].traveltype);
    SameDisabled(w, v, b);
  }

  lemma LinkFacts(w: World, b: nat, i: nat)
    requires w.Valid() && b < |w.settings| && i < |w.reversed[b]|
    ensures w.LinkOk(b, i) && w.SizesOk()
  {
  }

  lemma SameTravelFlag(w: World, a: nat, flags: bv32, t: bv32)
    requires a < |w.settings| && |w.travelflagfortype| == MAX_TRAVELTYPES
    ensures WithFlags(w, a, flags).TravelFlagForType(t) == w.TravelFlagForType(t)
  {
  }

  lemma SameDisabled(w: World, v: World, b: nat)
    requires b < |w.settings| == |v.settings| && v.settings[b] == w.settings[b]
    ensures v.Disabled(b) == w.Disabled(b)
  {
  }

  /** The graph of a cluster does not depend on the flags of an area outside it. */
  lemma SameGraph(w: World, a: nat, flags: bv32, c: nat, travelflags: bv32)
    requires w.Valid() && a < |w.settings| && w.IsCluster(c) && !w.Member(c, a)
    ensures var v := WithFlags(w, a, flags);
      v.Valid() && v.GraphOf(c, travelflags) == w.GraphOf(c, travelflags)
  {
    var v := WithFlags(w, a, flags);
    StillValid(w, a, flags);
    hide World.Valid;
    var g, h := v.GraphOf(c, travelflags), w.GraphOf(c, travelflags);
    assert |g.into| == |h.into| == |g.cross| == |h.cross|;
    forall n: nat | n < |h.into| ensures g.into[n] == h.into[n] && g.cross[n] == h.cross[n] {
      SameAreaOf(w, a, flags, c, n);
      SameArcs(w, a, flags, c, travelflags, w.AreaOf(c, n), 0);
    }
    assert g.into == h.into && g.cross == h.cross;
  }

  lemma SameAreaOf(w: World, a: nat, flags: bv32, c: nat, n: nat)
    requires w.Valid() && a < |w.settings| && w.IsCluster(c) && !w.Member(c, a) && WithFlags(w, a, flags).Valid()
    requires n < w.clusters[c].numreachabilityareas
    ensures WithFlags(w, a, flags).AreaOf(c, n) == w.AreaOf(c, n) != a
    ensures w.AreaOf(c, n) < |w.settings| == |w.reversed|
  {
    SameMembers(w, a, flags);
    assert w.NumberedOk(c);
  }

  lemma SameSearch(w: World, a: nat, flags: bv32, c: nat, goal: nat, travelflags: bv32, start: nat)
    requires w.Valid() && a < |w.settings| && w.IsCluster(c) && !w.Member(c, a) && w.Member(c, goal) && start > 0
    ensures var v := WithFlags(w, a, flags);
      && v.Valid() && v.IsCluster(c) && v.Member(c, goal)
      && v.AreaSearch(c, goal, travelflags, start) == w.AreaSearch(c, goal, travelflags, start)
  {
    SameGraph(w, a, flags, c, travelflags);
    SameMembers(w, a, flags);
    hide World.Valid, World.GraphOf, Search;
  }
}
