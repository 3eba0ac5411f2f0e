/** What clustering delivers of what routing needs. */
module ClusteredWorld {
  import opened AasFile
  import opened ClusterNet
  import opened ClusterLayout
  import opened ClusterParts
  import opened ClusterMeaning
  import opened RouteWorld

  /** The world has the areas, portals and clusters of the layout. */
  ghost predicate Holds(w: World, l: Layout)
    requires l.numportals <= |l.portals| && l.portalindexsize <= |l.portalindex| && l.numclusters <= |l.clusters|
  {
    && w.settings == l.settings && w.portals == l.portals[..l.numportals]
    && w.portalindex == l.portalindex[..l.portalindexsize] && w.clusters == l.clusters[..l.numclusters]
  }

  lemma SettledSizes(net: Net, l: Layout, r: seq<Reachability>)
    requires Settled(net, l, r)
    ensures net.Valid() && |l.settings| == |net.portal| && 1 <= l.numportals <= |l.portals|
      && l.portalindexsize <= |l.portalindex|
    ensures 1 <= l.numclusters <= |l.clusters| && PortalsOf(net, l.portals, l.numportals)
      && Marked(net, l, l.numclusters - 1)
  {
    hide Finished, Sourced, NoEntry;
  }

  /** A portal's record, as the routing code reads it. */
  lemma PortalRecord(net: Net, l: Layout, r: seq<Reachability>, p: nat)
    requires Settled(net, l, r) && 0 < p < l.numportals && p < |l.portals|
    ensures var q := l.portals[p];
      && 0 < q.areanum < |l.settings| && l.settings[q.areanum].cluster == 0 - p
      && 0 < q.frontcluster < l.numclusters && 0 < q.backcluster < l.numclusters && q.frontcluster != q.backcluster
  {
    hide Clustered;
    SettledSizes(net, l, r);
    assert MarkedPortal(l, p, l.numclusters - 1);
  }

  /** Portal records and portal areas refer to each other, and every portal joins two clusters. */
  lemma PortalsAreOk(net: Net, l: Layout, r: seq<Reachability>, w: World)
    requires Settled(net, l, r) && l.numportals <= |l.portals| && l.portalindexsize <= |l.portalindex|
      && l.numclusters <= |l.clusters|
    requires Holds(w, l) && w.SizesOk()
    ensures w.PortalsOk()
  {
    hide Settled, PortalsOf, Marked;
    SettledSizes(net, l, r);
    forall p | 0 < p < |w.portals| ensures w.IsPortal(p) {
      PortalRecord(net, l, r, p);
    }
    forall a: nat | w.IsArea(a) && w.settings[a].cluster < 0 ensures w.portals[-w.settings[a].cluster].areanum == a {
      PortalArea(net, l, r, a);
    }
  }

  lemma PortalArea(net: Net, l: Layout, r: seq<Reachability>, a: nat)
    requires Settled(net, l, r) && 0 < a < |l.settings| && l.settings[a].cluster < 0
    ensures -l.settings[a].cluster < l.numportals && -l.settings[a].cluster < |l.portals|
    ensures l.portals[-l.settings[a].cluster].areanum == a
  {
    hide Settled;
    SettledSizes(net, l, r);
    assert !net.Free(a);
    assert HasRecord(l.portals, l.numportals, a);
    var p: nat :| IsRecord(l.portals, l.numportals, p, a);
    PortalRecord(net, l, r, p);
  }

  lemma NamesInWorld(net: Net, l: Layout, r: seq<Reachability>, w: World, c: nat, a: nat, n: nat)
    requires Settled(net, l, r) && l.numportals <= |l.portals| && l.portalindexsize <= |l.portalindex|
      && l.numclusters <= |l.clusters|
    requires Holds(w, l) && w.SizesOk() && 0 < c && |l.settings| == |net.portal| && Names(net, l, c, a, n)
    ensures w.Names(c, n, a)
  {
    hide Settled;
    SettledSizes(net, l, r);
    if p: nat :| NamesPortal(l, p, c, a, n) {
      PortalRecord(net, l, r, p);
    }
  }

  lemma NamesInLayout(net: Net, l: Layout, r: seq<Reachability>, w: World, c: nat, a: nat, n: nat)
    requires Settled(net, l, r) && l.numportals <= |l.portals| && l.portalindexsize <= |l.portalindex|
      && l.numclusters <= |l.clusters|
    requires Holds(w, l) && w.SizesOk() && 0 < c && |l.settings| == |net.portal| && w.Names(c, n, a)
    ensures Names(net, l, c, a, n)
  {
    hide Settled, Marked;
    SettledSizes(net, l, r);
    if net.Free(a) {
      FreeHasNoPortal(net, l, r, a);
    } else {
      assert HasRecord(l.portals, l.numportals, a);
      var p: nat :| IsRecord(l.portals, l.numportals, p, a);
      PortalRecord(net, l, r, p);
      assert NamesPortal(l, p, c, a, n);
    }
  }

  lemma FreeHasNoPortal(net: Net, l: Layout, r: seq<Reachability>, a: nat)
    requires Settled(net, l, r) && net.Free(a) && a < |l.settings|
    ensures l.settings[a].cluster >= 0
  {
    hide Settled;
    SettledSizes(net, l, r);
  }

  /** Membership and numbers are the same for both. */
  lemma NamesAgree(net: Net, l: Layout, r: seq<Reachability>, w: World, c: nat, a: nat, n: nat)
    requires Settled(net, l, r) && l.numportals <= |l.portals| && l.portalindexsize <= |l.portalindex|
      && l.numclusters <= |l.clusters|
    requires Holds(w, l) && w.SizesOk() && 0 < c
    ensures net.Valid() && |l.settings| == |net.portal| && (Names(net, l, c, a, n) <==> w.Names(c, n, a))
  {
    hide Settled, Names, World.Names, World.SizesOk, PortalsOf, Marked;
    SettledSizes(net, l, r);
    if Names(net, l, c, a, n) {
      NamesInWorld(net, l, r, w, c, a, n);
    }
    if w.Names(c, n, a) {
      NamesInLayout(net, l, r, w, c, a, n);
    }
  }

  lemma SettledFinished(net: Net, l: Layout, r: seq<Reachability>, c: nat)
    requires Settled(net, l, r) && 0 < c < l.numclusters
    ensures net.Valid() && |l.settings| == |net.portal| && l.numportals <= |l.portals| && c < |l.clusters|
    ensures Numbered(net, l, c) && Slice(l, c) && End(l, c) <= l.portalindexsize <= |l.portalindex|
  {
    hide Shape, Marked, Sourced, NoEntry, Numbered, Slice;
    BetweenSizes(net, l, r);
    assert Finished(net, l, c);
  }

  lemma BetweenSizes(net: Net, l: Layout, r: seq<Reachability>)
    requires Between(net, l, r)
    ensures net.Valid() && |l.settings| == |net.portal| && l.numportals <= |l.portals| && l.numclusters <= |l.clusters|
    ensures l.portalindexsize <= |l.portalindex|
  {
    hide Finished, Marked, Sourced, NoEntry;
  }

  /** The members of every cluster are numbered as routing needs it. */
  lemma NumbersAreOk(net: Net, l: Layout, r: seq<Reachability>, w: World, c: nat)
    requires Settled(net, l, r) && l.numportals <= |l.portals| && l.portalindexsize <= |l.portalindex|
      && l.numclusters <= |l.clusters|
    requires Holds(w, l) && w.SizesOk() && 0 < c < |w.clusters|
    ensures w.NumberedOk(c)
  {
    hide Settled, Names, Slice;
    SettledFinished(net, l, r, c);
    forall a: nat | w.Member(c, a)
      ensures Names(net, l, c, a, w.ClusterAreaNum(c, a)) && NumberOk(l, c, a, w.ClusterAreaNum(c, a))
    {
      NamesAgree(net, l, r, w, c, a, w.ClusterAreaNum(c, a));
    }
    forall n: nat | n < w.clusters[c].numreachabilityareas ensures w.IsTaken(c, n) {
      assert IsTaken(net, l, c, n);
      var a: nat :| Names(net, l, c, a, n);
      NamesAgree(net, l, r, w, c, a, n);
    }
  }

  /** The portals of every cluster are its slice of the index. */
  lemma SliceIsOk(net: Net, l: Layout, r: seq<Reachability>, w: World, c: nat)
    requires Settled(net, l, r) && l.numportals <= |l.portals| && l.portalindexsize <= |l.portalindex|
      && l.numclusters <= |l.clusters|
    requires Holds(w, l) && w.SizesOk() && 0 < c < |w.clusters|
    ensures w.SliceOk(c)
  {
    hide Settled, World.SizesOk, Numbered;
    SettledFinished(net, l, r, c);
    forall p: nat | 0 < p < |w.portals| && (w.portals[p].frontcluster == c || w.portals[p].backcluster == c)
      ensures w.Listed(c, p)
    {
      assert InSlice(l, c, p);
    }
  }

  /** An area with reachabilities has a cluster. */
  lemma ReachabilitiesHaveCluster(net: Net, l: Layout, r: seq<Reachability>, a: nat)
    requires Settled(net, l, r) && 0 < a < |l.settings| && l.settings[a].numreachableareas > 0
    ensures l.settings[a].cluster != 0
  {
    SettledSizes(net, l, r);
    if !net.Free(a) {
      assert HasRecord(l.portals, l.numportals, a);
      var p: nat :| IsRecord(l.portals, l.numportals, p, a);
      PortalRecord(net, l, r, p);
    }
  }

  /** Clustering does not see to it that a portal with a link into a cluster has that cluster:
      portal 3 divides areas 1 and 2, and leads to area 4, which is joined to neither. */
  lemma PortalMayLeadElsewhere(net: Net)
    requires net == Net([false, false, false, true, false], [[], [3], [3], [4], [4]])
    ensures net.Valid() && Divides(net, 3) && net.Free(4) && net.Reaches(3, 4)
    ensures forall x: nat | net.Free(x) && net.Reaches(x, 3) :: !net.Joined(x, 4)
  {
    forall x: nat, y: nat | net.Free(x) && net.Linked(x, y) && net.Free(y) ensures x == y {
    }
    forall x: nat, y: nat | net.Joined(x, y) ensures x == y {
      OnlyItself(net, x, y);
    }
    assert net.reach[1][0] == 3 && net.reach[2][0] == 3 && net.reach[3][0] == 4;
    assert Separates(net, 3, 1, 2);
    forall x: nat, y: nat | Separates(net, 3, x, y) ensures x != y && 1 <= x <= 2 && 1 <= y <= 2 {
      net.JoinedSelf(x);
    }
  }

  lemma {:induction false} StaysThere(net: Net, p: seq<nat>, n: nat)
    requires net.Valid() && net.IsChain(p) && n < |p|
    requires forall x: nat, y: nat | net.Free(x) && net.Linked(x, y) && net.Free(y) :: x == y
    ensures p[n] == p[0]
  {
    if n > 0 {
      StaysThere(net, p, n - 1);
      assert net.Linked(p[n - 1], p[n - 1 + 1]);
    }
  }

  lemma OnlyItself(net: Net, x: nat, y: nat)
    requires net.Valid() && net.Joined(x, y)
    requires forall x: nat, y: nat | net.Free(x) && net.Linked(x, y) && net.Free(y) :: x == y
    ensures x == y
  {
    var p :| net.Joins(p, x, y);
    StaysThere(net, p, |p| - 1);
  }
}
