/** From one cluster to the next, and what the clusters mean for the areas and reachabilities alone. */
module ClusterMeaning {
  import opened AasFile
  import opened ClusterNet
  import opened ClusterLayout
  import opened ClusterParts
  import opened ClusterFlood
  import opened Counting

  /** Where the slice of cluster k starts. */
  ghost function Start(l: Layout, k: nat): nat
    requires k <= |l.clusters|
  {
    if k <= 1 then 0 else End(l, k - 1)
  }

  /** The slices of the clusters tile the portal index. */
  ghost predicate Tiled(l: Layout)
    requires l.numclusters <= |l.clusters|
  {
    && (forall k: nat | 0 < k < l.numclusters :: l.clusters[k].firstportal == Start(l, k))
    && l.portalindexsize == Start(l, l.numclusters)
  }

  /** Some clusters have been found and numbered; no other area leads into them. */
  ghost predicate Between(net: Net, l: Layout, r: seq<Reachability>) {
    && Shape(net, l, r) && l.numclusters <= |l.settings|
    && Marked(net, l, l.numclusters - 1) && Sourced(net, l) && Counted(l) && Tiled(l)
    && NoEntry(net, l, 0)
    && (forall k: nat | 0 < k < l.numclusters :: Finished(net, l, k))
  }

  ghost predicate Seeded(net: Net, l: Layout, i: nat)
    requires |l.settings| == |net.portal|
  {
    forall x: nat | x < i && net.Free(x) && l.settings[x].numreachableareas > 0 :: l.settings[x].cluster != 0
  }

  /** Only areas with a reachability, or that a free area reaches, are in clusters. */
  ghost predicate Live(net: Net, l: Layout)
    requires net.Valid() && |l.settings| == |net.portal|
  {
    forall x: nat | net.Free(x) && l.settings[x].cluster != 0 :: net.Attached(x)
  }

  /** All clusters have been found. */
  ghost predicate Clustered(net: Net, l: Layout, r: seq<Reachability>) {
    Between(net, l, r) && Seeded(net, l, |l.settings|) && Live(net, l)
  }

  // ----- what chains keep

  /** No chain leads out of the finished clusters. */
  ghost predicate Walled(net: Net, l: Layout, c: nat)
    requires net.Valid() && |l.settings| == |net.portal| && l.numportals <= |l.portals|
  {
    && (forall x: nat | net.Free(x) :: 0 <= l.settings[x].cluster <= c)
    && (forall k: nat | 0 < k < c :: AllDone(net, l, k)) && NoEntry(net, l, c)
  }

  lemma LinkKeepsCluster(net: Net, l: Layout, c: nat, x: nat, y: nat)
    requires net.Valid() && |l.settings| == |net.portal| && l.numportals <= |l.portals| && Walled(net, l, c)
    requires net.Free(x) && net.Free(y) && net.Linked(x, y) && 0 < l.settings[x].cluster < c
    ensures l.settings[y].cluster == l.settings[x].cluster
  {
    if net.Reaches(x, y) {
      assert AllDone(net, l, l.settings[x].cluster);
      assert Done(net, l, x, l.settings[x].cluster) && Handled(net, l, y, l.settings[x].cluster);
    } else {
      var k := l.settings[y].cluster;
      if k == 0 || k == c {
        assert NoneInto(net, l, y, c);
      } else {
        assert AllDone(net, l, k);
        assert Done(net, l, y, k) && Handled(net, l, x, k);
      }
    }
  }

  lemma {:induction false} ChainKeepsCluster(net: Net, l: Layout, c: nat, p: seq<nat>, n: nat)
    requires net.Valid() && |l.settings| == |net.portal| && l.numportals <= |l.portals| && Walled(net, l, c)
    requires net.IsChain(p) && n < |p| && 0 < l.settings[p[0]].cluster < c
    ensures net.Free(p[n]) && l.settings[p[n]].cluster == l.settings[p[0]].cluster
  {
    if n > 0 {
      ChainKeepsCluster(net, l, c, p, n - 1);
      assert net.Linked(p[n - 1], p[n - 1 + 1]);
      LinkKeepsCluster(net, l, c, p[n - 1], p[n]);
    }
  }

  lemma JoinedShareCluster(net: Net, l: Layout, c: nat, x: nat, y: nat)
    requires net.Valid() && |l.settings| == |net.portal| && l.numportals <= |l.portals| && Walled(net, l, c)
    requires net.Free(x) && net.Joined(x, y) && 0 < l.settings[x].cluster < c
    ensures net.Free(y) && l.settings[y].cluster == l.settings[x].cluster
  {
    var p :| net.Joins(p, x, y);
    ChainKeepsCluster(net, l, c, p, |p| - 1);
  }

  lemma BetweenIs(net: Net, l: Layout, r: seq<Reachability>)
    requires Between(net, l, r)
    ensures net.Valid() && |l.settings| == |net.portal| <= MOST_AREAS && 1 <= l.numportals <= |l.portals|
    ensures 1 <= l.numclusters < |l.clusters| && PortalsOf(net, l.portals, l.numportals) && NoEntry(net, l, 0)
    ensures Marked(net, l, l.numclusters - 1) && Sourced(net, l) && Fits(net, l.settings, r)
    ensures forall k: nat | 0 < k < l.numclusters :: Finished(net, l, k)
  {
    hide Finished, Slice;
  }

  lemma ClusteredWalled(net: Net, l: Layout, r: seq<Reachability>)
    requires Between(net, l, r)
    ensures net.Valid() && |l.settings| == |net.portal| && l.numportals <= |l.portals| && Walled(net, l, l.numclusters)
  {
    hide Between, Slice, Numbered, AllDone;
    BetweenIs(net, l, r);
    forall k: nat | 0 < k < l.numclusters ensures AllDone(net, l, k) {
      assert Finished(net, l, k);
    }
    forall x: nat | net.Free(x) && (l.settings[x].cluster == 0 || l.settings[x].cluster == l.numclusters)
      ensures NoneInto(net, l, x, l.numclusters)
    {
      assert NoneInto(net, l, x, 0);
    }
  }

  /** What a free area reaches by a reachability is in its cluster. */
  lemma ReachedIsClustered(net: Net, l: Layout, r: seq<Reachability>, y: nat, x: nat)
    requires Clustered(net, l, r) && net.Valid() && net.Free(y) && net.Free(x) && net.Reaches(y, x)
      && |l.settings| == |net.portal|
    ensures l.settings[x].cluster == l.settings[y].cluster > 0
  {
    hide Between, Slice, Numbered;
    BetweenIs(net, l, r);
    assert IsFit(net, l.settings[y], r, y);
    assert Finished(net, l, l.settings[y].cluster);
    assert Done(net, l, y, l.settings[y].cluster) && Handled(net, l, x, l.settings[y].cluster);
  }

  // ----- main results about the clusters

  /** Two areas with a cluster share it exactly when they are joined through free areas. */
  lemma SameClusterIffJoined(net: Net, l: Layout, r: seq<Reachability>, x: nat, y: nat)
    requires Clustered(net, l, r) && net.Free(x) && net.Free(y) && x < |l.settings| && y < |l.settings|
    requires l.settings[x].cluster != 0 && l.settings[y].cluster != 0
    ensures net.Valid() && (l.settings[x].cluster == l.settings[y].cluster <==> net.Joined(x, y))
  {
    hide Between, Slice, Numbered;
    BetweenIs(net, l, r);
    ClusteredWalled(net, l, r);
    if l.settings[x].cluster == l.settings[y].cluster {
      assert Finished(net, l, l.settings[x].cluster);
    }
    if net.Joined(x, y) {
      JoinedShareCluster(net, l, l.numclusters, x, y);
    }
  }

  /** A free area is left without cluster exactly if it has no reachabilities and no free area reaches it. */
  lemma WithoutCluster(net: Net, l: Layout, r: seq<Reachability>, x: nat)
    requires Clustered(net, l, r) && net.Free(x) && x < |l.settings|
    ensures net.Valid() && (l.settings[x].cluster == 0 <==> !net.Attached(x))
  {
    hide Between, Finished;
    BetweenIs(net, l, r);
    assert IsFit(net, l.settings[x], r, x);
    if y: nat :| net.Free(y) && net.Reaches(y, x) {
      ReachedIsClustered(net, l, r, y, x);
    }
  }

  /** The clusters of a portal are exactly those with an area that reaches it. */
  lemma PortalClusters(net: Net, l: Layout, r: seq<Reachability>, p: nat, k: nat)
    requires Clustered(net, l, r) && 0 < p < l.numportals && 0 < k
    ensures net.Valid() && p < |l.portals| && |l.settings| == |net.portal|
    ensures HasSide(l.portals[p], k) <==> Touched(net, l, l.portals[p].areanum, k)
  {
    hide Between, Slice, Numbered, Fits;
    BetweenIs(net, l, r);
    var a := l.portals[p].areanum;
    if x: nat :| Source(net, l, x, a, k) {
      assert Finished(net, l, k) && Done(net, l, x, k) && Handled(net, l, a, k);
      var q: nat :| IsBorder(l, q, a, k);
      if q != p {
        RecordsDiffer(net, l, p, q);
      }
    }
  }

  // ----- portals by what they separate

  /** x and y are free areas that reach a and are not joined. */
  ghost predicate Separates(net: Net, a: nat, x: nat, y: nat)
    requires net.Valid()
  {
    net.Free(x) && net.Free(y) && net.Reaches(x, a) && net.Reaches(y, a) && !net.Joined(x, y)
  }

  /** A portal area reached from three parts that are not joined. */
  ghost predicate Crowded(net: Net, a: nat)
    requires net.Valid()
  {
    net.IsArea(a) && net.portal[a] && exists x: nat, y: nat, z: nat ::
      Separates(net, a, x, y) && Separates(net, a, x, z) && Separates(net, a, y, z)
  }

  /** A portal area that separates nothing. */
  ghost predicate Idle(net: Net, a: nat)
    requires net.Valid()
  {
    net.IsArea(a) && net.portal[a] && forall x: nat, y: nat :: !Separates(net, a, x, y)
  }

  /** A portal area between exactly two parts. */
  ghost predicate Divides(net: Net, a: nat)
    requires net.Valid()
  {
    net.IsArea(a) && net.portal[a] && !Crowded(net, a) && !Idle(net, a)
  }

  /** Clusters and numbers aside the areas are the same. */
  ghost predicate SameAreas(s0: seq<AreaSettings>, s1: seq<AreaSettings>) {
    |s0| == |s1|
      && forall a | 0 <= a < |s0| :: s1[a] == s0[a].(cluster := s1[a].cluster, clusterareanum := s1[a].clusterareanum)
  }

  // ----- starting and ending a cluster

  function EmptyCluster(first: nat): Cluster { Cluster(0, 0, 0, first) }

  ghost function Started(l: Layout): Layout
    requires l.numclusters < |l.clusters|
  {
    l.(clusters := l.clusters[l.numclusters := EmptyCluster(l.portalindexsize)])
  }

  lemma StartSlice(net: Net, l: Layout)
    requires net.Valid() && |l.settings| == |net.portal| && PortalsOf(net, l.portals, l.numportals)
    requires 1 <= l.numclusters < |l.clusters| && Marked(net, l, l.numclusters - 1)
      && l.portalindexsize <= |l.portalindex|
    ensures Slice(Started(l), l.numclusters) && Marked(net, Started(l), l.numclusters)
  {
    forall p: nat | 0 < p < l.numportals
      ensures MarkedPortal(Started(l), p, l.numclusters) && !HasSide(l.portals[p], l.numclusters)
    {
      assert MarkedPortal(l, p, l.numclusters - 1);
    }
  }

  lemma StartSourced(net: Net, l: Layout)
    requires net.Valid() && |l.settings| == |net.portal| && PortalsOf(net, l.portals, l.numportals)
    requires l.numclusters < |l.clusters| && Sourced(net, l)
    ensures Sourced(net, Started(l))
  {
    forall p: nat, k: nat | 0 < p < l.numportals && 0 < k && HasSide(l.portals[p], k)
      ensures Touched(net, Started(l), l.portals[p].areanum, k)
    {
      assert Touched(net, l, l.portals[p].areanum, k);
      var x: nat :| Source(net, l, x, l.portals[p].areanum, k);
      assert Source(net, Started(l), x, l.portals[p].areanum, k);
    }
  }

  /** The next cluster can be flooded from a free area without cluster. */
  lemma StartsFlooding(net: Net, l: Layout, r: seq<Reachability>, root: nat)
    requires Between(net, l, r) && net.Free(root) && root < |l.settings| && l.settings[root].cluster == 0
    ensures net.Valid() && |l.settings| == |net.portal| && l.numclusters < |l.clusters| && l.numportals <= |l.portals|
    ensures Flooding(net, Started(l), r, l.numclusters, root) && Called(net, Started(l), root, l.numclusters, root)
    ensures AllDone(net, Started(l), l.numclusters) && Kept(net, l, Started(l), l.numclusters)
  {
    hide Between, Finished, Sourced, Slice, Touched, PortalsOf, Fits;
    BetweenIs(net, l, r);
    assert Shape(net, Started(l), r) && Counted(l)
      && End(Started(l), l.numclusters) == l.portalindexsize by { StartShape(net, l, r); }
    assert l.portalindexsize <= |l.portalindex|;
    StartSlice(net, l);
    StartSourced(net, l);
    net.JoinedSelf(root);
    forall x: nat | net.Free(x) && l.settings[x].cluster == 0 ensures NoneInto(net, Started(l), x, l.numclusters) {
      assert NoneInto(net, l, x, 0);
    }
  }

  lemma StartShape(net: Net, l: Layout, r: seq<Reachability>)
    requires Between(net, l, r)
    ensures l.numclusters < |l.clusters| && Shape(net, Started(l), r) && Counted(l)
  {
    hide Finished, Marked, Sourced, NoEntry;
  }

  /** Renumbering leaves all that flooding has established. */
  lemma RenumberedShape(net: Net, l0: Layout, l1: Layout, r: seq<Reachability>, c: nat)
    requires Shape(net, l0, r) && c > 0 && Renumbered(l0, l1, c)
    ensures Shape(net, l1, r)
  {
    hide Renumbered, PortalsOf;
    RenumberedRecords(net, l0, l1, c);
    RenumberedCounts(l0, l1, c);
    RenumberedCluster(l0, l1, c, 0);
    forall a: nat | a < |l1.settings| ensures IsFit(net, l1.settings[a], r, a) {
      RenumberedFit(net, l0, l1, r, c, a);
    }
  }

  lemma RenumberedFit(net: Net, l0: Layout, l1: Layout, r: seq<Reachability>, c: nat, a: nat)
    requires Renumbered(l0, l1, c) && net.Valid() && a < |l0.settings| == |l1.settings| == |net.portal|
      && IsFit(net, l0.settings[a], r, a)
    ensures IsFit(net, l1.settings[a], r, a)
  {
    assert AreaRenumbered(l0.settings[a], l1.settings[a], c);
  }

  lemma RenumberedCluster(l0: Layout, l1: Layout, c: nat, a: nat)
    requires Renumbered(l0, l1, c) && a < |l0.settings|
    ensures a < |l1.settings| && l1.settings[a].cluster == l0.settings[a].cluster
    ensures l1.settings[a].numreachableareas == l0.settings[a].numreachableareas
  {
    assert AreaRenumbered(l0.settings[a], l1.settings[a], c);
  }

  lemma RenumberedSides(l0: Layout, l1: Layout, c: nat, p: nat)
    requires Renumbered(l0, l1, c) && p < |l0.portals|
    ensures p < |l1.portals| && l1.portals[p].areanum == l0.portals[p].areanum
    ensures l1.portals[p].frontcluster == l0.portals[p].frontcluster
      && l1.portals[p].backcluster == l0.portals[p].backcluster
  {
    assert PortalRenumbered(l0.portals[p], l1.portals[p], c);
  }

  lemma RenumberedMarked(net: Net, l0: Layout, l1: Layout, c: nat, k: nat)
    requires net.Valid() && |l0.settings| == |net.portal| == |l1.settings| && PortalsOf(net, l0.portals, l0.numportals)
    requires PortalsOf(net, l1.portals, l1.numportals) && Renumbered(l0, l1, c) && Marked(net, l0, k)
    ensures Marked(net, l1, k)
  {
    hide Renumbered;
    assert l1.numportals == l0.numportals by { RenumberedCounts(l0, l1, c); }
    forall a: nat | net.Free(a) ensures 0 <= l1.settings[a].cluster <= k {
      RenumberedCluster(l0, l1, c, a);
    }
    forall p: nat | 0 < p < l1.numportals ensures MarkedPortal(l1, p, k) {
      assert MarkedPortal(l0, p, k);
      RenumberedSides(l0, l1, c, p);
      RenumberedCluster(l0, l1, c, l0.portals[p].areanum);
    }
  }

  lemma RenumberedCounts(l0: Layout, l1: Layout, c: nat)
    requires Renumbered(l0, l1, c)
    ensures l1.numportals == l0.numportals && l1.numclusters == l0.numclusters && |l1.settings| == |l0.settings|
    ensures l1.portalindexsize == l0.portalindexsize && l1.portalindex == l0.portalindex
      && |l1.clusters| == |l0.clusters|
    ensures |l1.portals| == |l0.portals|
    ensures c < |l0.clusters| && End(l1, c) == End(l0, c) && l1.clusters[c].firstportal == l0.clusters[c].firstportal
  {
  }

  lemma RenumberedSourced(net: Net, l0: Layout, l1: Layout, c: nat)
    requires net.Valid() && |l0.settings| == |net.portal| == |l1.settings| && PortalsOf(net, l0.portals, l0.numportals)
    requires PortalsOf(net, l1.portals, l1.numportals) && Renumbered(l0, l1, c) && Sourced(net, l0)
    ensures Sourced(net, l1)
  {
    hide Renumbered, PortalsOf;
    assert l1.numportals == l0.numportals <= |l0.portals| by { RenumberedCounts(l0, l1, c); Room0(net, l0); }
    Room0(net, l1);
    forall p: nat, k: nat | 0 < p < l1.numportals && 0 < k && HasSide(l1.portals[p], k)
      ensures Touched(net, l1, l1.portals[p].areanum, k)
    {
      RenumberedSides(l0, l1, c, p);
      assert Touched(net, l0, l0.portals[p].areanum, k);
      var x: nat :| Source(net, l0, x, l0.portals[p].areanum, k);
      RenumberedCluster(l0, l1, c, x);
      assert Source(net, l1, x, l0.portals[p].areanum, k);
    }
  }

  lemma Room0(net: Net, l: Layout)
    requires net.Valid() && PortalsOf(net, l.portals, l.numportals)
    ensures l.numportals <= |l.portals|
  {
  }

  lemma {:induction false} SidesSame(p0: seq<Portal>, p1: seq<Portal>, n: nat)
    requires n <= |p0| == |p1|
    requires forall p | 0 <= p < n :: p1[p].frontcluster == p0[p].frontcluster && p1[p].backcluster == p0[p].backcluster
    ensures Sides(p0, n) == Sides(p1, n)
  {
    if n > 1 { SidesSame(p0, p1, n - 1); }
  }

  lemma RenumberedCounted(l0: Layout, l1: Layout, c: nat)
    requires Renumbered(l0, l1, c) && l0.numportals <= |l0.portals| && Counted(l0)
    ensures l1.numportals <= |l1.portals| && Counted(l1)
  {
    RenumberedCounts(l0, l1, c);
    forall p | 0 <= p < l0.numportals
      ensures l1.portals[p].frontcluster == l0.portals[p].frontcluster
        && l1.portals[p].backcluster == l0.portals[p].backcluster
    {
      RenumberedSides(l0, l1, c, p);
    }
    SidesSame(l0.portals, l1.portals, l0.numportals);
  }

  lemma RenumberedSlice(l0: Layout, l1: Layout, c: nat)
    requires Renumbered(l0, l1, c) && l0.numportals <= |l0.portals| && Slice(l0, c)
    ensures l1.numportals <= |l1.portals| && Slice(l1, c)
  {
    RenumberedCounts(l0, l1, c);
    forall p: nat | 0 < p < l1.numportals && HasSide(l1.portals[p], c) ensures InSlice(l1, c, p) {
      RenumberedSides(l0, l1, c, p);
      assert InSlice(l0, c, p);
    }
  }

  lemma RenumberedNoEntry(net: Net, l0: Layout, l1: Layout, c: nat)
    requires net.Valid() && |l0.settings| == |net.portal| == |l1.settings| && Renumbered(l0, l1, c)
      && NoEntry(net, l0, 0)
    ensures NoEntry(net, l1, 0)
  {
    hide Renumbered;
    forall x: nat, t: nat | net.Free(x) && l1.settings[x].cluster == 0 && net.Reaches(x, t) && net.Free(t)
      ensures l1.settings[t].cluster == 0
    {
      RenumberedCluster(l0, l1, c, x);
      RenumberedCluster(l0, l1, c, t);
      assert NoneInto(net, l0, x, 0);
    }
  }

  lemma RenumberedDone(net: Net, l0: Layout, l1: Layout, c: nat)
    requires net.Valid() && |l0.settings| == |net.portal| == |l1.settings| && l0.numportals <= |l0.portals|
    requires Renumbered(l0, l1, c) && l1.numportals <= |l1.portals| && AllDone(net, l0, c)
    ensures AllDone(net, l1, c)
  {
    hide Renumbered;
    assert l1.numportals == l0.numportals by { RenumberedCounts(l0, l1, c); }
    forall x: nat, t: nat | net.Free(x) && l1.settings[x].cluster == c && net.Reaches(x, t)
      ensures Handled(net, l1, t, c)
    {
      RenumberedCluster(l0, l1, c, x);
      assert Done(net, l0, x, c) && Handled(net, l0, t, c);
      RenumberedCluster(l0, l1, c, t);
      if net.portal[t] {
        var p: nat :| IsBorder(l0, p, t, c);
        RenumberedSides(l0, l1, c, p);
        assert IsBorder(l1, p, t, c);
      }
    }
  }

  lemma RootedJoined(net: Net, l: Layout, c: nat, root: nat)
    requires net.Valid() && |l.settings| == |net.portal| && Rooted(net, l, c, root)
    ensures JoinedIn(net, l, c)
  {
    forall x: nat, y: nat | net.Free(x) && net.Free(y) && l.settings[x].cluster == c && l.settings[y].cluster == c
      ensures net.Joined(x, y)
    {
      net.JoinedBack(root, x);
      net.JoinedThrough(x, root, y);
    }
  }

  lemma RenumberedJoined(net: Net, l0: Layout, l1: Layout, c: nat)
    requires net.Valid() && |l0.settings| == |net.portal| == |l1.settings| && Renumbered(l0, l1, c)
      && JoinedIn(net, l0, c)
    ensures JoinedIn(net, l1, c)
  {
    hide Renumbered;
    forall x: nat | net.Free(x) ensures l1.settings[x].cluster == l0.settings[x].cluster {
      RenumberedCluster(l0, l1, c, x);
    }
  }

  /** After the cluster has been flooded and numbered there is one cluster more. */
  lemma EndsFlooding(net: Net, l0: Layout, l1: Layout, l2: Layout, r: seq<Reachability>, root: nat)
    requires Between(net, l0, r) && net.Valid() && l0.numclusters < |l0.clusters|
    requires Closing(net, Started(l0), l1, r, l0.numclusters, root) && |l1.settings| == |net.portal|
      && NoEntry(net, l1, 0)
    requires Renumbered(l1, l2, l0.numclusters) && |l2.settings| == |net.portal| && l2.numportals <= |l2.portals|
    requires Numbered(net, l2, l0.numclusters) && Kept(net, l0, Started(l0), l0.numclusters)
    requires l0.numclusters < |l0.settings|
    ensures Kept(net, l0, l2, l0.numclusters)
    ensures Between(net, l2.(numclusters := l0.numclusters + 1), r)
  {
    hide Between, Closing, Finished, Renumbered, Kept, Numbered, Tiled, NoEntry, Ready;
    var c := l0.numclusters;
    KeptToEnd(net, l0, l1, l2, r, root);
    LastFinished(net, l0, l1, l2, r, root);
    ReadySizes(net, l2, r, c);
    OldFinished(net, l0, l2, r);
    TiledMore(net, l0, l1, l2, r, root);
    MoreClusters(net, l2, r, c);
  }

  /** Cluster c is complete. */
  ghost predicate Ready(net: Net, l: Layout, r: seq<Reachability>, c: nat) {
    && Shape(net, l, r) && 0 < c == l.numclusters < |l.clusters|
    && Marked(net, l, c) && Sourced(net, l) && Counted(l) && NoEntry(net, l, 0) && Finished(net, l, c)
  }

  lemma ReadySizes(net: Net, l: Layout, r: seq<Reachability>, c: nat)
    requires Ready(net, l, r, c)
    ensures net.Valid() && |net.portal| == |l.settings| <= MOST_AREAS && 1 <= l.numportals <= |l.portals|
    ensures |l.clusters| == AAS_MAX_CLUSTERS && 0 < c == l.numclusters && PortalsOf(net, l.portals, l.numportals)
    ensures Sourced(net, l) && NoEntry(net, l, 0) && Finished(net, l, c) && Marked(net, l, c)
  {
  }

  lemma MoreClusters(net: Net, l: Layout, r: seq<Reachability>, c: nat)
    requires Ready(net, l, r, c) && c < |l.settings| && c + 1 < |l.clusters| && Tiled(l.(numclusters := c + 1))
    requires net.Valid() && |net.portal| == |l.settings| && l.numportals <= |l.portals|
    requires forall k: nat | 0 < k < c :: Finished(net, l, k)
    ensures Between(net, l.(numclusters := c + 1), r)
  {
    hide Ready, Numbered, PortalsOf, Fits, Tiled, AllDone, JoinedIn, Finished, Sourced, NoEntry;
    var m := l.(numclusters := c + 1);
    ReadySizes(net, l, r, c);
    forall k: nat | 0 < k < m.numclusters ensures Finished(net, m, k) {
      assert Finished(net, l, k);
      SameFinished(net, l, m, k);
    }
    SameSourced(net, l, m);
    SameNoEntry(net, l, m);
    SameMarked(net, l, m, c);
    assert Shape(net, m, r) && Counted(m) by { SameShape(net, l, m, r, c); }
  }

  lemma SameShape(net: Net, l: Layout, m: Layout, r: seq<Reachability>, c: nat)
    requires Ready(net, l, r, c) && m == l.(numclusters := c + 1)
    ensures Shape(net, m, r) && Counted(m)
  {
    hide Finished, Sourced, NoEntry;
  }

  lemma SameMarked(net: Net, l: Layout, m: Layout, c: nat)
    requires net.Valid() && |l.settings| == |net.portal| && PortalsOf(net, l.portals, l.numportals)
    requires m == l.(numclusters := m.numclusters) && Marked(net, l, c)
    ensures Marked(net, m, c)
  {
    forall p: nat | 0 < p < l.numportals ensures MarkedPortal(m, p, c) {
      assert MarkedPortal(l, p, c);
    }
  }

  lemma SameSourced(net: Net, l: Layout, m: Layout)
    requires net.Valid() && |l.settings| == |net.portal| && PortalsOf(net, l.portals, l.numportals)
    requires m == l.(numclusters := m.numclusters) && Sourced(net, l)
    ensures Sourced(net, m)
  {
    forall p: nat, k: nat | 0 < p < l.numportals && 0 < k && HasSide(l.portals[p], k)
      ensures Touched(net, m, l.portals[p].areanum, k)
    {
      assert Touched(net, l, l.portals[p].areanum, k);
      var x: nat :| Source(net, l, x, l.portals[p].areanum, k);
      assert Source(net, m, x, l.portals[p].areanum, k);
    }
  }

  lemma SameNoEntry(net: Net, l: Layout, m: Layout)
    requires net.Valid() && |l.settings| == |net.portal| && m == l.(numclusters := m.numclusters) && NoEntry(net, l, 0)
    ensures NoEntry(net, m, 0)
  {
    forall x: nat | net.Free(x) && m.settings[x].cluster == 0 ensures NoneInto(net, m, x, 0) {
      assert NoneInto(net, l, x, 0);
    }
  }

  lemma SameFinished(net: Net, l: Layout, m: Layout, k: nat)
    requires net.Valid() && |l.settings| == |net.portal| && l.numportals <= |l.portals| && k < |l.clusters|
    requires m == l.(numclusters := m.numclusters) && Finished(net, l, k)
    ensures Finished(net, m, k)
  {
    hide AreaFits, PortalsOf;
    forall x: nat, t: nat | net.Free(x) && m.settings[x].cluster == k && net.Reaches(x, t)
      ensures Handled(net, m, t, k)
    {
      assert Done(net, l, x, k) && Handled(net, l, t, k);
      if p: nat :| IsBorder(l, p, t, k) {
        assert IsBorder(m, p, t, k);
      }
    }
    forall p: nat | 0 < p < m.numportals && HasSide(m.portals[p], k) ensures InSlice(m, k, p) {
      assert InSlice(l, k, p);
    }
    SameNumbered(net, l, m, k);
  }

  lemma SameNumbered(net: Net, l: Layout, m: Layout, k: nat)
    requires net.Valid() && |l.settings| == |net.portal| && l.numportals <= |l.portals| && k < |l.clusters|
    requires m == l.(numclusters := m.numclusters) && Numbered(net, l, k)
    ensures Numbered(net, m, k)
  {
    forall a: nat, n: nat ensures Names(net, m, k, a, n) <==> Names(net, l, k, a, n) {
      if p: nat :| NamesPortal(l, p, k, a, n) {
        assert NamesPortal(m, p, k, a, n);
      }
      if p: nat :| NamesPortal(m, p, k, a, n) {
        assert NamesPortal(l, p, k, a, n);
      }
    }
    forall a: nat, n: nat | Names(net, m, k, a, n) ensures NumberOk(m, k, a, n) {
      assert NumberOk(l, k, a, n);
    }
    forall n: nat | n < m.clusters[k].numareas ensures IsTaken(net, m, k, n) {
      assert IsTaken(net, l, k, n);
    }
  }

  lemma KeptToEnd(net: Net, l0: Layout, l1: Layout, l2: Layout, r: seq<Reachability>, root: nat)
    requires Between(net, l0, r) && net.Valid() && l0.numclusters < |l0.clusters|
    requires Closing(net, Started(l0), l1, r, l0.numclusters, root) && Renumbered(l1, l2, l0.numclusters)
    requires Kept(net, l0, Started(l0), l0.numclusters)
    ensures Kept(net, l0, l2, l0.numclusters)
  {
    hide Between, Renumbered, Kept, Grown, Flooding, Shape;
    var c := l0.numclusters;
    ClosingIs(net, Started(l0), l1, r, c, root);
    FloodSizes(net, l1, r, c, root);
    GrownKept(net, Started(l0), l1, c);
    KeptThrough(net, l0, Started(l0), l1, c);
    RenumberedKept(net, l1, l2, c);
    KeptThrough(net, l0, l1, l2, c);
  }

  lemma LastFinished(net: Net, l0: Layout, l1: Layout, l2: Layout, r: seq<Reachability>, root: nat)
    requires Between(net, l0, r) && net.Valid() && l0.numclusters < |l0.clusters|
    requires Closing(net, Started(l0), l1, r, l0.numclusters, root) && |l1.settings| == |net.portal|
      && NoEntry(net, l1, 0)
    requires Renumbered(l1, l2, l0.numclusters) && |l2.settings| == |net.portal| && l2.numportals <= |l2.portals|
    requires Numbered(net, l2, l0.numclusters) && Kept(net, l0, l2, l0.numclusters)
    ensures |l2.clusters| == |l0.clusters| && |l2.settings| == |l0.settings| && Ready(net, l2, r, l0.numclusters)
  {
    hide Between, Sourced, PortalsOf, Fits, Renumbered, Grown, Numbered, Marked, NoEntry, AllDone, Rooted, JoinedIn,
      Slice, Sides, Kept;
    var c := l0.numclusters;
    ClosingIs(net, Started(l0), l1, r, c, root);
    KeptSizes(net, l0, l2, c);
    RenumberedShape(net, l1, l2, r, c);
    RenumberedMarked(net, l1, l2, c, c);
    RenumberedSourced(net, l1, l2, c);
    RenumberedCounts(l1, l2, c);
    RenumberedCounted(l1, l2, c);
    RenumberedNoEntry(net, l1, l2, c);
    RenumberedSlice(l1, l2, c);
    RenumberedDone(net, l1, l2, c);
    RootedJoined(net, l1, c, root);
    RenumberedJoined(net, l1, l2, c);
  }

  lemma OldFinished(net: Net, l0: Layout, l2: Layout, r: seq<Reachability>)
    requires Between(net, l0, r) && net.Valid() && Kept(net, l0, l2, l0.numclusters) && l2.numportals <= |l2.portals|
    requires |l2.settings| == |net.portal| && |l0.clusters| == |l2.clusters|
    ensures l0.numclusters < |l0.clusters| && forall k: nat | 0 < k < l0.numclusters :: Finished(net, l2, k)
  {
    hide Between, Finished, Kept, PortalsOf;
    BetweenIs(net, l0, r);
    assert Marked(net, l0, |l0.clusters|) by { MarkedMore(net, l0, l0.numclusters - 1, |l0.clusters|); }
    forall k: nat | 0 < k < l0.numclusters ensures Finished(net, l2, k) {
      FinishedKept(net, l0, l2, l0.numclusters, k);
    }
  }

  lemma MarkedMore(net: Net, l: Layout, c: nat, d: nat)
    requires net.Valid() && |l.settings| == |net.portal| && PortalsOf(net, l.portals, l.numportals)
      && Marked(net, l, c) && c <= d
    ensures Marked(net, l, d)
  {
    forall p: nat | 0 < p < l.numportals ensures MarkedPortal(l, p, d) {
      assert MarkedPortal(l, p, c);
    }
  }

  lemma TiledMore(net: Net, l0: Layout, l1: Layout, l2: Layout, r: seq<Reachability>, root: nat)
    requires Between(net, l0, r) && net.Valid() && l0.numclusters < |l0.clusters| == |l2.clusters|
    requires Closing(net, Started(l0), l1, r, l0.numclusters, root) && Renumbered(l1, l2, l0.numclusters)
    requires Kept(net, l0, l2, l0.numclusters) && l0.numclusters + 1 < |l0.clusters|
    ensures Tiled(l2.(numclusters := l0.numclusters + 1))
  {
    hide Shape, Marked, Sourced, NoEntry, Finished, Kept, AllDone, Rooted, Slice, Sides, Renumbered;
    var c := l0.numclusters;
    KeptSizes(net, l0, l2, c);
    RenumberedCounts(l1, l2, c);
    forall k: nat | 0 < k <= c ensures l2.clusters[k].firstportal == Start(l2, k) {
      assert k < c ==> l0.clusters[k].firstportal == Start(l0, k);
      assert Start(l2, k) == Start(l0, k);
    }
  }

  // ----- stopped floods and portals that separate nothing

  lemma StoppedWalled(net: Net, l0: Layout, last: Layout, r: seq<Reachability>, root: nat)
    requires Between(net, l0, r) && net.Valid() && l0.numclusters < |l0.clusters|
    requires Flooding(net, last, r, l0.numclusters, root) && Grown(net, Started(l0), last, l0.numclusters)
    requires Kept(net, l0, Started(l0), l0.numclusters)
    ensures |last.settings| == |net.portal| && last.numportals <= |last.portals| && Walled(net, last, l0.numclusters)
  {
    hide Between, Flooding, Finished, Kept, Grown, NoEntry, PortalsOf, Slice;
    var c := l0.numclusters;
    BetweenIs(net, l0, r);
    FloodSizes(net, last, r, c, root);
    GrownKept(net, Started(l0), last, c);
    KeptThrough(net, l0, Started(l0), last, c);
    KeptSizes(net, l0, last, c);
    OldFinished(net, l0, last, r);
    forall k: nat | 0 < k < c ensures AllDone(net, last, k) {
      FinishedDone(net, last, k);
    }
  }

  lemma FinishedDone(net: Net, l: Layout, k: nat)
    requires net.Valid() && |l.settings| == |net.portal| && l.numportals <= |l.portals| && k < |l.clusters|
      && Finished(net, l, k)
    ensures AllDone(net, l, k)
  {
  }

  lemma CrossedIsCrowded(net: Net, l: Layout, a: nat, c: nat)
    requires net.Valid() && |l.settings| == |net.portal| && l.numportals <= |l.portals| && Walled(net, l, c)
      && Crossed(net, l, a, c)
    ensures Crowded(net, a)
  {
    hide Walled;
    var j: nat, k: nat :| Apart(net, l, a, c, j, k);
    var x: nat :| Source(net, l, x, a, j);
    var y: nat :| Source(net, l, y, a, k);
    var z: nat :| Source(net, l, z, a, c);
    SourcesSeparate(net, l, a, c, x, y);
    SourcesSeparate(net, l, a, c, x, z);
    SourcesSeparate(net, l, a, c, y, z);
  }

  lemma SourcesSeparate(net: Net, l: Layout, a: nat, c: nat, x: nat, y: nat)
    requires net.Valid() && |l.settings| == |net.portal| && l.numportals <= |l.portals| && Walled(net, l, c)
    requires net.Free(x) && net.Free(y) && net.Reaches(x, a) && net.Reaches(y, a)
    requires 0 < l.settings[x].cluster < c && l.settings[x].cluster != l.settings[y].cluster
    ensures Separates(net, a, x, y)
  {
    hide Walled;
    if net.Joined(x, y) {
      JoinedShareCluster(net, l, c, x, y);
    }
  }

  /** Areas of a valid net that reach a portal are in a cluster the portal has. */
  lemma SourceCluster(net: Net, l: Layout, r: seq<Reachability>, p: nat, x: nat)
    requires Clustered(net, l, r) && 0 < p < l.numportals && p < |l.portals| && net.Valid()
    requires net.Free(x) && net.Reaches(x, l.portals[p].areanum) && |l.settings| == |net.portal|
    ensures 0 < l.settings[x].cluster < l.numclusters && HasSide(l.portals[p], l.settings[x].cluster)
  {
    hide Between;
    BetweenIs(net, l, r);
    assert IsFit(net, l.settings[x], r, x);
    assert Source(net, l, x, l.portals[p].areanum, l.settings[x].cluster);
    PortalClusters(net, l, r, p, l.settings[x].cluster);
  }

  /** A portal separates as many parts as it has clusters. */
  lemma SeparatesIffClusters(net: Net, l: Layout, r: seq<Reachability>, p: nat, x: nat, y: nat)
    requires Clustered(net, l, r) && 0 < p < l.numportals && p < |l.portals| && net.Valid()
      && |l.settings| == |net.portal|
    requires net.Free(x) && net.Free(y) && net.Reaches(x, l.portals[p].areanum) && net.Reaches(y, l.portals[p].areanum)
    ensures Separates(net, l.portals[p].areanum, x, y) <==> l.settings[x].cluster != l.settings[y].cluster
  {
    hide Clustered;
    SourceCluster(net, l, r, p, x);
    SourceCluster(net, l, r, p, y);
    SameClusterIffJoined(net, l, r, x, y);
  }

  lemma NotCrowded(net: Net, l: Layout, r: seq<Reachability>, p: nat)
    requires Clustered(net, l, r) && 0 < p < l.numportals && p < |l.portals| && net.Valid()
    ensures !Crowded(net, l.portals[p].areanum)
  {
    hide Clustered;
    ClusteredSizes(net, l, r);
    var a := l.portals[p].areanum;
    forall x: nat, y: nat, z: nat | Separates(net, a, x, y) && Separates(net, a, x, z)
      ensures !Separates(net, a, y, z)
    {
      SourceCluster(net, l, r, p, x);
      SourceCluster(net, l, r, p, y);
      SourceCluster(net, l, r, p, z);
      SeparatesIffClusters(net, l, r, p, x, y);
      SeparatesIffClusters(net, l, r, p, x, z);
      SeparatesIffClusters(net, l, r, p, y, z);
    }
  }

  lemma ClusteredSizes(net: Net, l: Layout, r: seq<Reachability>)
    requires Clustered(net, l, r)
    ensures net.Valid() && |l.settings| == |net.portal| && l.numportals <= |l.portals| && 1 <= l.numclusters
    ensures PortalsOf(net, l.portals, l.numportals) && Marked(net, l, l.numclusters - 1) && Sourced(net, l)
  {
    BetweenIs(net, l, r);
  }

  /** A portal with fewer than two clusters separates nothing; one with two divides two parts. */
  lemma PortalIsIdleOrDivides(net: Net, l: Layout, r: seq<Reachability>, p: nat)
    requires Clustered(net, l, r) && 0 < p < l.numportals && p < |l.portals| && net.Valid()
    ensures if l.portals[p].frontcluster == 0 || l.portals[p].backcluster == 0 then Idle(net, l.portals[p].areanum)
      else Divides(net, l.portals[p].areanum)
  {
    hide Clustered, Crowded;
    ClusteredSizes(net, l, r);
    NotCrowded(net, l, r, p);
    var q := l.portals[p];
    assert MarkedPortal(l, p, l.numclusters - 1);
    if q.frontcluster == 0 || q.backcluster == 0 {
      forall x: nat, y: nat ensures !Separates(net, q.areanum, x, y) {
        if Separates(net, q.areanum, x, y) {
          SourceCluster(net, l, r, p, x);
          SourceCluster(net, l, r, p, y);
          SeparatesIffClusters(net, l, r, p, x, y);
        }
      }
    } else {
      assert Touched(net, l, q.areanum, q.frontcluster) && Touched(net, l, q.areanum, q.backcluster);
      var x: nat :| Source(net, l, x, q.areanum, q.frontcluster);
      var y: nat :| Source(net, l, y, q.areanum, q.backcluster);
      SeparatesIffClusters(net, l, r, p, x, y);
    }
  }

  // ----- unmarking portals

  function Unmarked(net: Net, a: nat): Net
    requires a < |net.portal|
  {
    net.(portal := net.portal[a := false])
  }

  lemma SameNet(s0: seq<AreaSettings>, s1: seq<AreaSettings>, r: seq<Reachability>)
    requires FileOk(s0, r) && SameAreas(s0, s1)
    ensures FileOk(s1, r) && NetOf(s1, r) == NetOf(s0, r)
  {
    forall a | 0 <= a < |s0|
      ensures s1[a].contents == s0[a].contents && s1[a].numreachableareas == s0[a].numreachableareas
      ensures s1[a].firstreachablearea == s0[a].firstreachablearea
    {
    }
    assert NetOf(s1, r).portal == NetOf(s0, r).portal;
    assert NetOf(s1, r).reach == NetOf(s0, r).reach;
  }

  lemma DroppedFlag(x: bv32)
    ensures x & !AREACONTENTS_CLUSTERPORTAL & AREACONTENTS_CLUSTERPORTAL == 0
  {
  }

  lemma DroppedNet(s: seq<AreaSettings>, r: seq<Reachability>, a: nat)
    requires FileOk(s, r) && a < |s|
    ensures FileOk(Dropped(s, a), r) && a < |NetOf(s, r).portal| && NetOf(Dropped(s, a), r) == Unmarked(NetOf(s, r), a)
  {
    hide Targets;
    var n0, n1 := NetOf(s, r), NetOf(Dropped(s, a), r);
    forall x | 0 <= x < |s| ensures n1.reach[x] == n0.reach[x] {
      assert Dropped(s, a)[x] == s[x].(contents := Dropped(s, a)[x].contents);
      SameTargets(s[x], Dropped(s, a)[x], r);
    }
    assert n1.reach == n0.reach;
    DroppedFlag(s[a].contents);
    assert n1.portal == n0.portal[a := false];
  }

  lemma SameTargets(s0: AreaSettings, s1: AreaSettings, r: seq<Reachability>)
    requires s1.numreachableareas == s0.numreachableareas && s1.firstreachablearea == s0.firstreachablearea
    requires s0.firstreachablearea + s0.numreachableareas <= |r|
    ensures Targets(s0, r) == Targets(s1, r)
  {
  }

  /** The portal areas. */
  ghost function Marks(net: Net): set<nat> {
    set a: nat | a < |net.portal| && net.portal[a]
  }

  /** A portal mark is taken away from an area that separates three parts or none. */
  ghost predicate Superfluous(net: Net, a: nat) {
    net.Valid() && (Crowded(net, a) || Idle(net, a))
  }

  /** The net after the marks have been taken from these areas, one after the other. */
  ghost function After(net: Net, removed: seq<nat>): Net
    requires forall i | 0 <= i < |removed| :: removed[i] < |net.portal|
    ensures |After(net, removed).portal| == |net.portal|
  {
    if removed == [] then net else Unmarked(After(net, removed[..|removed| - 1]), removed[|removed| - 1])
  }

  /** Each of them was superfluous when its turn came. */
  ghost predicate Justified(net: Net, removed: seq<nat>)
    requires forall i | 0 <= i < |removed| :: removed[i] < |net.portal|
  {
    removed == [] ||
    var n := |removed| - 1;
    Justified(net, removed[..n]) && Superfluous(After(net, removed[..n]), removed[n])
  }

  ghost function AllDropped(settings: seq<AreaSettings>, removed: seq<nat>): (r: seq<AreaSettings>)
    requires forall i | 0 <= i < |removed| :: removed[i] < |settings|
    ensures |r| == |settings|
  {
    if removed == [] then settings else Dropped(AllDropped(settings, removed[..|removed| - 1]), removed[|removed| - 1])
  }

  /** One more mark taken. */
  lemma OneMoreRemoved(net: Net, settings: seq<AreaSettings>, removed: seq<nat>, a: nat, now: seq<AreaSettings>)
    requires |settings| == |net.portal| && (forall i | 0 <= i < |removed| :: removed[i] < |net.portal|)
    requires a < |net.portal| && Justified(net, removed) && Superfluous(After(net, removed), a)
    requires |now| == |settings| && SameAreas(AllDropped(settings, removed), now)
    ensures Justified(net, removed + [a]) && After(net, removed + [a]) == Unmarked(After(net, removed), a)
    ensures SameAreas(AllDropped(settings, removed + [a]), Dropped(now, a))
    ensures Marks(After(net, removed + [a])) < Marks(After(net, removed))
  {
    hide Superfluous, SameAreas, Dropped, Marks;
    var more := removed + [a];
    assert more[..|more| - 1] == removed;
    SameDropped(AllDropped(settings, removed), now, a);
    SuperfluousIsMarked(After(net, removed), a);
    FewerMarks(After(net, removed), a);
  }

  lemma FewerMarks(net: Net, a: nat)
    requires a in Marks(net)
    ensures a < |net.portal| && Marks(Unmarked(net, a)) < Marks(net)
  {
    assert a !in Marks(Unmarked(net, a));
    assert Marks(Unmarked(net, a)) <= Marks(net);
  }

  lemma SuperfluousIsMarked(net: Net, a: nat)
    requires Superfluous(net, a)
    ensures a in Marks(net)
  {
  }

  // ----- steps of the methods

  lemma NumberingStarts(net: Net, l: Layout, l0: Layout, r: seq<Reachability>, c: nat, root: nat)
    requires Flooding(net, l, r, c, root) && c < |l.clusters|
    requires l0 == l.(clusters := l.clusters[c := l.clusters[c].(numareas := 0, numreachabilityareas := 0)])
    ensures Renumbered(l, l0, c) && Numbering(net, l0, l0, c, [])
  {
    hide Flooding, PortalsOf, AreaFits;
    FloodSizes(net, l, r, c, root);
    assert Slice(l, c) by { FloodSlice(net, l, r, c, root); }
    RenumberedSlice(l, l0, c);
    forall a: nat | 0 < a < |l0.settings| && l0.settings[a].cluster == c ensures net.Free(a) {
      FlagIsPortal(net, l, r, a, c, root);
      OnlyFree(net, l, r, a, c);
    }
  }

  lemma OnlyFree(net: Net, l: Layout, r: seq<Reachability>, a: nat, c: nat)
    requires net.Valid() && |l.settings| == |net.portal| && AreaFits(net, l, r, a, c) && l.settings[a].cluster == c > 0
    ensures net.Free(a)
  {
  }

  lemma FloodSlice(net: Net, l: Layout, r: seq<Reachability>, c: nat, root: nat)
    requires Flooding(net, l, r, c, root)
    ensures Slice(l, c)
  {
  }

  /** The four passes number different areas. */
  lemma PassesApart(net: Net, l0: Layout, c: nat)
    requires Numbering(net, l0, l0, c, [])
    ensures var n, m := |l0.settings|, l0.clusters[c].numportals;
      var at, af := AreasBelow(net, l0, c, n, true), AreasBelow(net, l0, c, n, false);
      var pt, pf := PortalsBelow(l0, c, m, true), PortalsBelow(l0, c, m, false);
      && Elements<nat>([]) == {} && at !! pt && at !! af && at !! pf && pt !! af && pt !! pf && af !! pf
  {
    hide InOrder, Renumbered;
    var n, m := |l0.settings|, l0.clusters[c].numportals;
    forall a, reachable | a in AreasBelow(net, l0, c, n, reachable) ensures net.Free(a) {
    }
    forall a, reachable | a in PortalsBelow(l0, c, m, reachable) ensures !net.Free(a) {
      var i: nat :| i < m && PortalAt(l0, c, i) == a;
    }
  }

  lemma NumberingEnds(net: Net, l: Layout, l0: Layout, l1: Layout, c: nat, order: seq<nat>)
    requires Numbering(net, l0, l1, c, order) && Renumbered(l, l0, c)
    requires var n, m := |l0.settings|, l0.clusters[c].numportals;
      Elements(order) == AreasBelow(net, l0, c, n, true) + PortalsBelow(l0, c, m, true)
        + AreasBelow(net, l0, c, n, false) + PortalsBelow(l0, c, m, false)
    ensures Renumbered(l, l1, c) && |l1.settings| == |net.portal| && l1.numportals <= |l1.portals|
      && Numbered(net, l1, c)
  {
    hide InOrder, Elements, AreasBelow, PortalsBelow, Slice, Numbered;
    RenumberedRecords(net, l0, l1, c);
    RenumberedThrough(l, l0, l1, c);
    AllNumbered(net, l0, l1, c, order);
  }

  lemma ClosingOn(net: Net, l0: Layout, l1: Layout, l2: Layout, r: seq<Reachability>, c: nat, root: nat)
    requires net.Valid() && Closing(net, l0, l1, r, c, root) && Closing(net, l1, l2, r, c, root)
    ensures Closing(net, l0, l2, r, c, root) && Grown(net, l1, l2, c)
  {
    hide Flooding, Grown, AllDone;
    ClosingIs(net, l0, l1, r, c, root);
    ClosingIs(net, l1, l2, r, c, root);
    GrownThrough(net, l0, l1, l2, c);
  }

  lemma GrownSizes(net: Net, l0: Layout, l1: Layout, c: nat)
    requires net.Valid() && Grown(net, l0, l1, c)
    ensures l1.numclusters == l0.numclusters && |l1.clusters| == |l0.clusters| && |l1.settings| == |l0.settings|
  {
  }

  lemma RootColoured(net: Net, l1: Layout, l2: Layout, l3: Layout, root: nat, c: nat)
    requires net.Valid() && c > 0 && Grown(net, l1, l2, c) && Renumbered(l2, l3, c) && net.Free(root)
    requires |l1.settings| == |net.portal| && l1.settings[root].cluster == c
    ensures root < |l3.settings| && l3.settings[root].cluster == c
  {
    StaysColoured(net, l1, l2, root, c);
    RenumberedCluster(l2, l3, c, root);
  }

  /** Clusters and numbers aside, the areas are as before, but a portal that separates three parts is unmarked. */
  ghost predicate UnmarkedCrowded(net: Net, s0: seq<AreaSettings>, s1: seq<AreaSettings>) {
    net.Valid() && |s0| == |net.portal| && exists a: nat :: IsUnmarkedCrowded(net, s0, s1, a)
  }

  ghost predicate IsUnmarkedCrowded(net: Net, s0: seq<AreaSettings>, s1: seq<AreaSettings>, a: nat)
    requires net.Valid() && |s0| == |net.portal|
  {
    Crowded(net, a) && SameAreas(Dropped(s0, a), s1)
  }

  lemma StoppedIsUnmarked(net: Net, l0: Layout, last: Layout, now: Layout, r: seq<Reachability>, root: nat)
    requires Between(net, l0, r) && net.Valid() && l0.numclusters < |l0.clusters|
      && Kept(net, l0, Started(l0), l0.numclusters)
    requires Stopped(net, Started(l0), last, now, r, l0.numclusters, root)
    ensures UnmarkedCrowded(net, l0.settings, now.settings) && Sized(now)
  {
    hide Between, Shape, Kept, Flooding, Grown, Walled, Crossed, Crowded;
    var c := l0.numclusters;
    StoppedWalled(net, l0, last, r, root);
    BetweenIs(net, l0, r);
    var a: nat :| IsStop(net, last, now, a, c);
    FloodSized(net, last, r, c, root);
    CrossedIsCrowded(net, last, a, c);
    CrowdedIsArea(net, a);
    assert SameAreas(l0.settings, last.settings) by { GrownSame(net, Started(l0), last, c); }
    SameDropped(l0.settings, last.settings, a);
    assert IsUnmarkedCrowded(net, l0.settings, now.settings, a);
  }

  lemma FloodSized(net: Net, l: Layout, r: seq<Reachability>, c: nat, root: nat)
    requires Flooding(net, l, r, c, root)
    ensures Sized(l)
  {
  }

  lemma ClusteredSized(net: Net, l: Layout, r: seq<Reachability>)
    requires Clustered(net, l, r)
    ensures Sized(l)
  {
  }

  lemma CrowdedIsArea(net: Net, a: nat)
    requires net.Valid() && Crowded(net, a)
    ensures a < |net.portal|
  {
  }

  lemma GrownSame(net: Net, l0: Layout, l1: Layout, c: nat)
    requires net.Valid() && Grown(net, l0, l1, c)
    ensures SameAreas(l0.settings, l1.settings)
  {
    forall a: nat | a < |l0.settings| ensures l1.settings[a] ==
      l0.settings[a].(cluster := l1.settings[a].cluster, clusterareanum := l1.settings[a].clusterareanum)
    {
      assert AreaGrown(net.Free(a), l0.settings[a], l1.settings[a], c);
    }
  }

  lemma SameDropped(s0: seq<AreaSettings>, s1: seq<AreaSettings>, a: nat)
    requires SameAreas(s0, s1) && a < |s0|
    ensures SameAreas(Dropped(s0, a), Dropped(s1, a))
  {
  }

  lemma UnmarkedLater(net: Net, s0: seq<AreaSettings>, s1: seq<AreaSettings>, s2: seq<AreaSettings>)
    requires SameAreas(s0, s1) && UnmarkedCrowded(net, s1, s2)
    ensures UnmarkedCrowded(net, s0, s2)
  {
    hide Crowded;
    var a: nat :| IsUnmarkedCrowded(net, s1, s2, a);
    CrowdedIsArea(net, a);
    SameDropped(s0, s1, a);
    assert IsUnmarkedCrowded(net, s0, s2, a);
  }

  /** Portals have been created and no clusters found yet. */
  ghost predicate Unclustered(net: Net, l: Layout, r: seq<Reachability>) {
    && Shape(net, l, r) && l.numclusters == 1 && l.portalindexsize == 0
    && (forall p | 0 < p < l.numportals :: l.portals[p].frontcluster == 0 && l.portals[p].backcluster == 0)
  }

  lemma UnclusteredIs(net: Net, l: Layout, r: seq<Reachability>)
    requires Unclustered(net, l, r)
    ensures net.Valid() && l.settings != [] && l.settings[0].cluster == 0
  {
  }

  lemma {:induction false} NoSides(portals: seq<Portal>, n: nat)
    requires n <= |portals| && forall p | 0 < p < n :: portals[p].frontcluster == 0 && portals[p].backcluster == 0
    ensures Sides(portals, n) == 0
  {
    if n > 1 { NoSides(portals, n - 1); }
  }

  lemma FirstBetween(net: Net, l: Layout, l1: Layout, r: seq<Reachability>)
    requires Unclustered(net, l, r) && l1 == l.(settings := l1.settings) && SameAreas(l.settings, l1.settings)
    requires forall a | 0 <= a < |l1.settings| :: l1.settings[a].cluster == 0
    ensures Between(net, l1, r) && Seeded(net, l1, 1) && Live(net, l1) && l1.numclusters == 1
      && |l1.settings| == |net.portal|
  {
    hide PortalsOf, Slice, Numbered;
    forall a: nat | a < |l1.settings| ensures IsFit(net, l1.settings[a], r, a) {
      assert IsFit(net, l.settings[a], r, a);
    }
    Room0(net, l);
    NoSides(l.portals, l.numportals);
    assert Shape(net, l1, r);
    FirstMarked(net, l1, r);
  }

  lemma FirstMarked(net: Net, l: Layout, r: seq<Reachability>)
    requires Unclustered(net, l, r) && forall a | 0 <= a < |l.settings| :: l.settings[a].cluster == 0
    ensures Marked(net, l, 0) && Sourced(net, l) && NoEntry(net, l, 0)
  {
    forall p: nat | 0 < p < l.numportals ensures MarkedPortal(l, p, 0) {
    }
  }

  lemma KeptSame(net: Net, l0: Layout, l1: Layout, c: nat, before: seq<AreaSettings>)
    requires net.Valid() && Kept(net, l0, l1, c) && SameAreas(before, l0.settings)
    ensures SameAreas(before, l1.settings)
  {
    forall a: nat | a < |l0.settings| ensures l1.settings[a] ==
      l0.settings[a].(cluster := l1.settings[a].cluster, clusterareanum := l1.settings[a].clusterareanum)
    {
      assert AreaKept(net.Free(a), l0.settings[a], l1.settings[a], c);
    }
  }

  lemma KeptSeeded(net: Net, l0: Layout, l1: Layout, l2: Layout, c: nat, i: nat)
    requires net.Valid() && c > 0 && Kept(net, l0, l1, c) && l2 == l1.(numclusters := l2.numclusters)
    requires |l0.settings| == |l2.settings| == |net.portal| && Seeded(net, l0, i) && i < |l1.settings|
      && l1.settings[i].cluster != 0
    ensures Seeded(net, l2, i + 1)
  {
    forall x: nat | x < i && net.Free(x) && l1.settings[x].numreachableareas > 0 ensures l1.settings[x].cluster != 0 {
      assert AreaKept(true, l0.settings[x], l1.settings[x], c);
    }
  }

  /** The areas of a new cluster are joined to the one it was started from, which has reachabilities. */
  lemma KeptLive(net: Net, l0: Layout, l1: Layout, l2: Layout, c: nat, i: nat)
    requires net.Valid() && c > 0 && Kept(net, l0, l1, c) && l2 == l1.(numclusters := l2.numclusters) && Live(net, l0)
    requires |l2.settings| == |net.portal| && l2.numportals <= |l2.portals| && c < |l2.clusters| && Finished(net, l2, c)
    requires net.Free(i) && l0.settings[i].cluster == 0 && l1.settings[i].cluster != 0 && net.reach[i] != []
    ensures Live(net, l2)
  {
    hide Slice, Numbered, AllDone;
    assert AreaKept(true, l0.settings[i], l1.settings[i], c);
    forall x: nat | net.Free(x) && l2.settings[x].cluster != 0 ensures net.Attached(x) {
      assert AreaKept(true, l0.settings[x], l1.settings[x], c);
      if l0.settings[x].cluster == 0 && x != i {
        assert net.Joined(x, i);
        net.JoinedAttached(x, i);
      }
    }
  }

  lemma SeededMore(net: Net, l: Layout, i: nat)
    requires i < |l.settings| == |net.portal| && Seeded(net, l, i)
    requires net.Free(i) ==> l.settings[i].cluster != 0 || l.settings[i].numreachableareas == 0
    ensures Seeded(net, l, i + 1)
  {
  }

  /** Portals have been created for the portal areas below i. */
  ghost predicate Created(net: Net, portals: seq<Portal>, n: nat, i: nat)
    requires net.Valid() && n <= |portals|
  {
    && (forall p | 0 < p < n ::
      net.IsArea(portals[p].areanum) && portals[p].areanum < i && net.portal[portals[p].areanum])
    && (|portals| > 0 ==> Unused(portals[0]))
    && (forall p | 0 < p < n :: portals[p].frontcluster == 0 && portals[p].backcluster == 0)
    && (forall p, q | 0 < p < q < n :: portals[p].areanum < portals[q].areanum)
    && (forall a: nat | net.IsArea(a) && net.portal[a] && a < i :: HasRecord(portals, n, a))
  }

  lemma CreatedPortal(net: Net, portals: seq<Portal>, n: nat, i: nat)
    requires net.Valid() && 1 <= n < |portals| && Created(net, portals, n, i) && net.IsArea(i) && net.portal[i]
    ensures Created(net, portals[n := portals[n].(areanum := i, frontcluster := 0, backcluster := 0)], n + 1, i + 1)
  {
    var more := portals[n := portals[n].(areanum := i, frontcluster := 0, backcluster := 0)];
    forall a: nat | net.IsArea(a) && net.portal[a] && a < i + 1 ensures HasRecord(more, n + 1, a) {
      if a < i {
        assert HasRecord(portals, n, a);
        var p: nat :| IsRecord(portals, n, p, a);
        assert IsRecord(more, n + 1, p, a);
      } else {
        assert IsRecord(more, n + 1, n, a);
      }
    }
  }

  lemma NoneCreated(net: Net, portals: seq<Portal>)
    requires net.Valid() && |portals| > 0 && Unused(portals[0])
    ensures Created(net, portals, 1, 1)
  {
  }

  lemma AllCreated(net: Net, portals: seq<Portal>, n: nat)
    requires net.Valid() && 1 <= n <= |portals| == AAS_MAX_PORTALS && n <= |net.portal|
      && Created(net, portals, n, |net.portal|)
    ensures PortalsOf(net, portals, n)
    ensures forall p | 0 < p < n :: portals[p].frontcluster == 0 && portals[p].backcluster == 0
  {
  }

  lemma CreatedNone(net: Net, portals: seq<Portal>, n: nat, i: nat)
    requires net.Valid() && 1 <= n <= |portals| && Created(net, portals, n, i) && net.IsArea(i) && !net.portal[i]
    ensures Created(net, portals, n, i + 1)
  {
  }

  /** The clusters are found, and every portal lies between two of them. */
  ghost predicate Settled(net: Net, l: Layout, r: seq<Reachability>) {
    && Clustered(net, l, r)
    && forall p | 0 < p < l.numportals && p < |l.portals| ::
      l.portals[p].frontcluster != 0 && l.portals[p].backcluster != 0
  }

  /** Then every portal area divides exactly two parts. */
  lemma PortalsDivide(net: Net, l: Layout, r: seq<Reachability>, a: nat)
    requires Settled(net, l, r) && net.IsArea(a) && net.portal[a]
    ensures net.Valid() && Divides(net, a)
  {
    hide Clustered;
    ClusteredSizes(net, l, r);
    assert HasRecord(l.portals, l.numportals, a);
    var p: nat :| IsRecord(l.portals, l.numportals, p, a);
    PortalIsIdleOrDivides(net, l, r, p);
  }

  lemma CrowdedArea(net: Net, s0: seq<AreaSettings>, s1: seq<AreaSettings>) returns (a: nat)
    requires UnmarkedCrowded(net, s0, s1) && |s0| > 0 && s0[0].cluster == 0
    ensures a < |s0| && Superfluous(net, a) && SameAreas(Dropped(s0, a), s1)
  {
    a :| IsUnmarkedCrowded(net, s0, s1, a);
  }

  lemma IdleIsSuperfluous(net: Net, a: nat)
    requires net.Valid() && Idle(net, a)
    ensures Superfluous(net, a)
  {
  }

  lemma PortalAreasExist(net: Net, l: Layout)
    requires net.Valid() && |l.settings| == |net.portal| && PortalsOf(net, l.portals, l.numportals)
    ensures l.numportals <= |l.portals| && forall p | 0 < p < l.numportals :: l.portals[p].areanum < |l.settings|
  {
  }

  lemma NothingRemoved(net: Net, settings: seq<AreaSettings>)
    ensures Justified(net, []) && After(net, []) == net && AllDropped(settings, []) == settings
      && SameAreas(settings, settings)
  {
  }

  lemma SameAsBefore(s0: seq<AreaSettings>, s1: seq<AreaSettings>, s2: seq<AreaSettings>, r: seq<Reachability>)
    requires SameAreas(s0, s1) && SameAreas(s1, s2)
    ensures SameAreas(s0, s2)
    ensures FileOk(s1, r) ==> FileOk(s2, r) && NetOf(s2, r) == NetOf(s1, r)
  {
    if FileOk(s1, r) {
      SameNet(s1, s2, r);
    }
  }

  lemma RemovedNet(s0: seq<AreaSettings>, s1: seq<AreaSettings>, r: seq<Reachability>, a: nat)
    requires FileOk(s0, r) && a < |s0| && SameAreas(Dropped(s0, a), s1)
    ensures FileOk(s1, r) && a < |NetOf(s0, r).portal| && NetOf(s1, r) == Unmarked(NetOf(s0, r), a)
  {
    DroppedNet(s0, r, a);
    SameNet(Dropped(s0, a), s1, r);
  }

  /** Portal p lacked a cluster and has been unmarked. */
  ghost predicate IsLacking(l: Layout, now: Layout, p: nat) {
    && 0 < p < l.numportals && p < |l.portals| && (l.portals[p].frontcluster == 0 || l.portals[p].backcluster == 0)
    && l.portals[p].areanum < |l.settings| && now == l.(settings := Dropped(l.settings, l.portals[p].areanum))
  }
}
