/** When the world set up for a clustered file is one the routing code can work with. */
module SettledWorld {
  import opened AasFile
  import opened ClusterNet
  import opened ClusterLayout
  import opened ClusterMeaning
  import opened ClusteredWorld
  import opened RouteWorld
  import opened RouteSetup

  // ----- the condition, in terms of areas and reachabilities

  /** x reaches a, and is joined to y. */
  ghost predicate ReachesFrom(net: Net, x: nat, a: nat, y: nat)
    requires net.Valid()
  {
    net.Free(x) && net.Reaches(x, a) && net.Joined(x, y)
  }

  /** a is reached from the part y is in. */
  ghost predicate PartReaches(net: Net, y: nat, a: nat)
    requires net.Valid()
  {
    exists x: nat :: ReachesFrom(net, x, a, y)
  }

  /** Where b is, or what lies beside it if it is a portal, reaches a too. */
  ghost predicate LeadsHome(net: Net, a: nat, b: nat)
    requires net.Valid()
  {
    && (net.Attached(b) ==> PartReaches(net, b, a))
    && (net.IsArea(b) && net.portal[b] ==> forall y: nat | net.Free(y) && net.Reaches(y, b) :: PartReaches(net, y, a))
  }

  /** Portal areas lead only into parts that reach them, by the reachabilities that get a reversed link. */
  ghost predicate PortalsLeadHome(net: Net)
    requires net.Valid()
  {
    forall a: nat, j: nat | net.IsArea(a) && net.portal[a] && j < |net.reach[a]| && j < 128 ::
      LeadsHome(net, a, net.reach[a][j])
  }

  // ----- what it says of the clusters

  lemma SideIffPart(net: Net, l: Layout, r: seq<Reachability>, p: nat, y: nat)
    requires Settled(net, l, r) && 0 < p < l.numportals && net.Free(y) && y < |l.settings| && l.settings[y].cluster > 0
    ensures net.Valid() && p < |l.portals|
    ensures HasSide(l.portals[p], l.settings[y].cluster) <==> PartReaches(net, y, l.portals[p].areanum)
  {
    hide Between, Seeded, Live;
    SettledSizes(net, l, r);
    var c, a := l.settings[y].cluster, l.portals[p].areanum;
    PortalClusters(net, l, r, p, c);
    if x: nat :| Source(net, l, x, a, c) {
      SameClusterIffJoined(net, l, r, x, y);
      assert ReachesFrom(net, x, a, y);
    }
    if x: nat :| ReachesFrom(net, x, a, y) {
      ReachingHasCluster(net, l, r, x, a);
      SameClusterIffJoined(net, l, r, x, y);
      assert Source(net, l, x, a, c);
    }
  }

  lemma ReachingHasCluster(net: Net, l: Layout, r: seq<Reachability>, x: nat, a: nat)
    requires Settled(net, l, r) && net.Valid() && net.Free(x) && net.Reaches(x, a)
    ensures x < |l.settings| && l.settings[x].cluster > 0
  {
    hide Between, Seeded, Live;
    SettledSizes(net, l, r);
    WithoutCluster(net, l, r, x);
  }

  /** Area b is in cluster c, or a portal of it. */
  ghost predicate Belongs(l: Layout, b: nat, c: nat) {
    && 0 < b < |l.settings| && c > 0
    && var k := l.settings[b].cluster;
       k == c || (k < 0 && -k < |l.portals| && HasSide(l.portals[-k], c))
  }

  /** Portal a leads home to b exactly if it belongs to the clusters b belongs to. */
  lemma LeadsHomeIff(net: Net, l: Layout, r: seq<Reachability>, a: nat, b: nat)
    requires Settled(net, l, r) && net.Valid() && net.IsArea(a) && net.portal[a]
    ensures LeadsHome(net, a, b) <==> forall c: nat | Belongs(l, b, c) :: Belongs(l, a, c)
  {
    hide Settled, PartReaches, PortalsOf, Marked;
    SettledSizes(net, l, r);
    PortalHasRecord(net, l, r, a);
    if net.Free(b) {
      LeadsHomeFree(net, l, r, a, b);
    } else if net.IsArea(b) {
      PortalHasRecord(net, l, r, b);
      LeadsHomePortal(net, l, r, a, b);
    }
  }

  lemma PortalHasRecord(net: Net, l: Layout, r: seq<Reachability>, a: nat)
    requires Settled(net, l, r) && net.IsArea(a) && net.portal[a]
    ensures a < |l.settings| && l.settings[a].cluster < 0 && -l.settings[a].cluster < l.numportals <= |l.portals|
    ensures l.portals[-l.settings[a].cluster].areanum == a
  {
    hide Settled, Marked;
    SettledSizes(net, l, r);
    assert HasRecord(l.portals, l.numportals, a);
    var p: nat :| IsRecord(l.portals, l.numportals, p, a);
    PortalRecord(net, l, r, p);
  }

  lemma LeadsHomeFree(net: Net, l: Layout, r: seq<Reachability>, a: nat, b: nat)
    requires Settled(net, l, r) && net.Valid() && net.IsArea(a) && net.portal[a] && net.Free(b)
    ensures LeadsHome(net, a, b) <==> forall c: nat | Belongs(l, b, c) :: Belongs(l, a, c)
  {
    hide Clustered, PartReaches, PortalsOf, Marked;
    SettledSizes(net, l, r);
    PortalHasRecord(net, l, r, a);
    FreeHasNoPortal(net, l, r, b);
    WithoutCluster(net, l, r, b);
    if l.settings[b].cluster > 0 {
      SideIffPart(net, l, r, -l.settings[a].cluster, b);
      assert Belongs(l, b, l.settings[b].cluster);
    }
  }

  lemma LeadsHomePortal(net: Net, l: Layout, r: seq<Reachability>, a: nat, b: nat)
    requires Settled(net, l, r) && net.Valid() && net.IsArea(a) && net.portal[a] && net.IsArea(b) && net.portal[b]
    ensures LeadsHome(net, a, b) <==> forall c: nat | Belongs(l, b, c) :: Belongs(l, a, c)
  {
    hide Clustered, PartReaches, PortalsOf, Marked;
    SettledSizes(net, l, r);
    PortalHasRecord(net, l, r, a);
    PortalHasRecord(net, l, r, b);
    var p, q := -l.settings[a].cluster, -l.settings[b].cluster;
    forall y: nat | net.Free(y) && net.Reaches(y, b)
      ensures l.settings[y].cluster > 0 && Belongs(l, b, l.settings[y].cluster)
      ensures PartReaches(net, y, a) <==> Belongs(l, a, l.settings[y].cluster)
    {
      ReachingHasCluster(net, l, r, y, b);
      PortalClusters(net, l, r, q, l.settings[y].cluster);
      assert Source(net, l, y, b, l.settings[y].cluster);
      SideIffPart(net, l, r, p, y);
    }
    forall c: nat | Belongs(l, b, c) ensures exists y: nat :: Source(net, l, y, b, c) {
      PortalClusters(net, l, r, q, c);
      assert Touched(net, l, b, c);
    }
  }

  // ----- the world

  /** The world of a settled layout, with its reversed links. */
  ghost predicate Linked(net: Net, l: Layout, w: World) {
    && Settled(net, l, w.reachability)
    && l.numportals <= |l.portals| && l.portalindexsize <= |l.portalindex| && l.numclusters <= |l.clusters|
    && Holds(w, l) && w.SizesOk() && w.LinksOk()
    && forall a: nat, n: nat | w.IsArea(a) && n < w.settings[a].numreachableareas && n < 128 :: w.IsListed(a, n)
  }

  /** The clusters are closed under links exactly if portal areas lead home. */
  lemma ClosedIff(net: Net, l: Layout, w: World)
    requires Linked(net, l, w)
    ensures net.Valid() && ((forall c | 0 < c < |w.clusters| :: w.ClosedUnderLinks(c)) <==> PortalsLeadHome(net))
  {
    hide Settled, LeadsHome, World.ClosedUnderLinks, World.LinksOk, World.SizesOk, Linked;
    SettledNet(net, l, w);
    if forall c | 0 < c < |w.clusters| :: w.ClosedUnderLinks(c) {
      forall a: nat, j: nat | net.IsArea(a) && net.portal[a] && j < |net.reach[a]| && j < 128
        ensures LeadsHome(net, a, net.reach[a][j])
      {
        ClosedLeadsHome(net, l, w, a, j);
      }
    }
    if PortalsLeadHome(net) {
      forall c | 0 < c < |w.clusters| ensures w.ClosedUnderLinks(c) {
        HomeIsClosed(net, l, w, c);
      }
    }
  }

  lemma SettledNet(net: Net, l: Layout, w: World)
    requires Linked(net, l, w)
    ensures net.Valid() && w.SizesOk() && w.LinksOk() && |l.settings| == |net.portal| && Settled(net, l, w.reachability)
    ensures forall a: nat | a < |l.settings| :: IsFit(net, l.settings[a], w.reachability, a)
  {
    hide Between, World.SizesOk, World.LinksOk;
    BetweenIs(net, l, w.reachability);
  }

  /** To belong to a cluster of the layout is to be a member of it in the world. */
  lemma BelongsIsMember(net: Net, l: Layout, w: World, a: nat, c: nat)
    requires Linked(net, l, w)
    ensures w.SizesOk() && (Belongs(l, a, c) <==> w.Member(c, a))
  {
    hide Settled, World.LinksOk;
  }

  lemma ClosedLeadsHome(net: Net, l: Layout, w: World, a: nat, j: nat)
    requires Linked(net, l, w) && net.Valid() && net.IsArea(a) && net.portal[a] && j < |net.reach[a]| && j < 128
    requires w.SizesOk() && w.LinksOk() && forall c | 0 < c < |w.clusters| :: w.ClosedUnderLinks(c)
    ensures LeadsHome(net, a, net.reach[a][j])
  {
    hide Settled, LeadsHome, World.LinksOk, World.SizesOk, Belongs, World.Member;
    SettledNet(net, l, w);
    var b := net.reach[a][j];
    LeadsHomeIff(net, l, w.reachability, a, b);
    forall c: nat | Belongs(l, b, c) ensures Belongs(l, a, c) {
      BelongsIsMember(net, l, w, a, c);
      BelongsIsMember(net, l, w, b, c);
      ListedIsMember(net, l, w, a, j, b, c);
    }
  }

  lemma ListedIsMember(net: Net, l: Layout, w: World, a: nat, j: nat, b: nat, c: nat)
    requires Linked(net, l, w) && net.Valid() && net.IsArea(a) && net.portal[a] && j < |net.reach[a]| && j < 128
      && b == net.reach[a][j]
    requires w.SizesOk() && w.LinksOk() && w.Member(c, b) && forall d | 0 < d < |w.clusters| :: w.ClosedUnderLinks(d)
    ensures w.Member(c, a)
  {
    hide Settled, World.LinksOk;
    SettledNet(net, l, w);
    PortalHasRecord(net, l, w.reachability, a);
    assert IsFit(net, l.settings[a], w.reachability, a);
    assert w.IsListed(a, j);
    var i :| 0 <= i < |w.reversed[b]| && w.reversed[b][i] == ReversedLink(w.settings[a].firstreachablearea + j, a);
    assert w.ClosedUnderLinks(c);
  }

  lemma HomeIsClosed(net: Net, l: Layout, w: World, c: nat)
    requires Linked(net, l, w) && net.Valid() && PortalsLeadHome(net) && w.SizesOk() && w.LinksOk()
      && 0 < c < |w.clusters|
    ensures w.ClosedUnderLinks(c)
  {
    hide Settled, LeadsHome, Belongs;
    SettledNet(net, l, w);
    forall b: nat, i: nat | w.Member(c, b) && i < |w.reversed[b]|
      ensures w.LinkOk(b, i)
        && (w.settings[w.reversed[b][i].areanum].cluster <= 0 ==> w.Member(c, w.reversed[b][i].areanum))
    {
      assert w.LinkOk(b, i);
      var a := w.reversed[b][i].areanum;
      if w.settings[a].cluster <= 0 {
        LinkedIsMember(net, l, w, a, w.reversed[b][i].linknum - w.settings[a].firstreachablearea, b, c);
      }
    }
  }

  lemma LinkedIsMember(net: Net, l: Layout, w: World, a: nat, j: nat, b: nat, c: nat)
    requires Linked(net, l, w) && net.Valid() && PortalsLeadHome(net) && w.SizesOk() && w.Member(c, b) && w.IsArea(a)
    requires j < w.settings[a].numreachableareas && j < 128 && w.settings[a].cluster <= 0
    requires w.settings[a].firstreachablearea + j < |w.reachability|
      && w.reachability[w.settings[a].firstreachablearea + j].areanum == b
    ensures w.Member(c, a)
  {
    hide Settled, LeadsHome, World.LinksOk, World.SizesOk, Belongs, World.Member;
    SettledNet(net, l, w);
    assert IsFit(net, l.settings[a], w.reachability, a);
    ReachabilitiesHaveCluster(net, l, w.reachability, a);
    if net.Free(a) {
      FreeHasNoPortal(net, l, w.reachability, a);
      assert false;
    }
    assert LeadsHome(net, a, net.reach[a][j]);
    LeadsHomeIff(net, l, w.reachability, a, b);
    BelongsIsMember(net, l, w, a, c);
    BelongsIsMember(net, l, w, b, c);
  }

  // ----- all that routing needs

  ghost predicate NoZeroCrossing(w: World) {
    forall b, e, i | 0 <= b < |w.areatraveltimes| && 0 <= e < |w.areatraveltimes[b]| && 0
      <= i < |w.areatraveltimes[b][e]| ::
      w.areatraveltimes[b][e][i] != 0
  }

  /** The tables a world has beside those of its layout. */
  ghost predicate TablesFit(w: World) {
    && |w.reversed| == |w.areatraveltimes| == |w.areacontentstravelflags| == |w.settings|
    && |w.travelflagfortype| == MAX_TRAVELTYPES && |w.portalmaxtraveltimes| == |w.portals|
  }

  lemma SettledIsSized(net: Net, l: Layout, w: World)
    requires Settled(net, l, w.reachability) && TablesFit(w)
    requires l.numportals <= |l.portals| && l.portalindexsize <= |l.portalindex| && l.numclusters <= |l.clusters|
      && Holds(w, l)
    ensures w.SizesOk()
  {
    hide Settled;
    SettledSizes(net, l, w.reachability);
    SettledZero(net, l, w.reachability);
    forall p: nat | 0 < p < |w.portals|
      ensures w.portals[p].frontcluster < |w.clusters| && w.portals[p].backcluster < |w.clusters|
    {
      PortalRecord(net, l, w.reachability, p);
    }
    forall a: nat | a < |w.settings| ensures -|w.portals| < w.settings[a].cluster < |w.clusters| {
      if net.IsArea(a) && net.portal[a] {
        PortalHasRecord(net, l, w.reachability, a);
      }
    }
  }

  lemma SettledZero(net: Net, l: Layout, r: seq<Reachability>)
    requires Settled(net, l, r)
    ensures |l.settings| > 0 && l.settings[0].cluster == 0
  {
    hide Marked, Sourced, Counted, Tiled, NoEntry;
  }

  /** A world set up for a settled layout is one for routing exactly if portal areas lead home and no crossing time
      has been cut off to 0. */
  lemma WorldIsValid(net: Net, l: Layout, w: World, gait: seq<Gait>, length: Vec3 -> real)
    requires Settled(net, l, w.reachability) && SetUp(w, gait, length)
    requires l.numportals <= |l.portals| && l.portalindexsize <= |l.portalindex| && l.numclusters <= |l.clusters|
      && Holds(w, l)
    ensures net.Valid() && Linked(net, l, w) && (w.Valid() <==> PortalsLeadHome(net) && NoZeroCrossing(w))
  {
    hide Settled, SetUp, World.SizesOk, World.LinksOk, World.PortalsOk, World.CrossingsOk, World.NumberedOk,
      World.SliceOk,
      World.ClosedUnderLinks, World.IsListed, PortalsLeadHome;
    SetUpSizes(w, gait, length);
    SetUpLinks(w, gait, length);
    SettledSizes(net, l, w.reachability);
    ClosedIff(net, l, w);
    PortalsAreOk(net, l, w.reachability, w);
    CrossingsIff(w, gait, length);
    forall c | 0 < c < |w.clusters| ensures w.NumberedOk(c) && w.SliceOk(c) {
      NumbersAreOk(net, l, w.reachability, w, c);
      SliceIsOk(net, l, w.reachability, w, c);
    }
    forall a: nat | w.IsArea(a) && w.settings[a].numreachableareas > 0 ensures w.settings[a].cluster != 0 {
      ReachabilitiesHaveCluster(net, l, w.reachability, a);
    }
  }

  lemma CrossingsIff(w: World, gait: seq<Gait>, length: Vec3 -> real)
    requires SetUp(w, gait, length)
    ensures w.SizesOk() && ((forall b | 0 <= b < |w.settings| :: w.CrossingsOk(b)) <==> NoZeroCrossing(w))
  {
    hide SetUp, World.SizesOk, World.CrossingsOk;
    TimesSized(w, gait, length);
    forall b: nat | b < |w.settings| ensures w.CrossingsOk(b) <==>
      forall e, i | 0 <= e < |w.areatraveltimes[b]| && 0 <= i < |w.areatraveltimes[b][e]| ::
        w.areatraveltimes[b][e][i] != 0
    {
      SetUpCrossings(w, gait, length, b);
    }
  }

  lemma TimesSized(w: World, gait: seq<Gait>, length: Vec3 -> real)
    requires SetUp(w, gait, length)
    ensures w.SizesOk() && |w.areatraveltimes| == |w.settings|
  {
    hide SlicesOk, IsLength, TableDone, Links;
  }
}
