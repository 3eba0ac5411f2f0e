/** From a loaded file to a world: clustering first, then the tables of the routing code. */
module WorldSetup {
  import opened AasFile
  import opened ClusterNet
  import opened ClusterLayout
  import opened ClusterMeaning
  import opened Clustering
  import opened ClusteredWorld
  import opened SettledWorld
  import opened RouteWorld
  import opened RouteSetup

  // ----- what clustering leaves of the file

  /** The slices of the reachabilities are the same. */
  ghost predicate SameSlices(s0: seq<AreaSettings>, s1: seq<AreaSettings>) {
    |s0| == |s1| && forall a | 0 <= a < |s0| ::
      s1[a].firstreachablearea == s0[a].firstreachablearea && s1[a].numreachableareas == s0[a].numreachableareas
  }

  lemma {:induction false} DroppedSlices(settings: seq<AreaSettings>, removed: seq<nat>)
    requires forall i | 0 <= i < |removed| :: removed[i] < |settings|
    ensures SameSlices(settings, AllDropped(settings, removed))
  {
    if removed != [] {
      DroppedSlices(settings, removed[..|removed| - 1]);
    }
  }

  lemma SlicesStay(s0: seq<AreaSettings>, s1: seq<AreaSettings>, r: seq<Reachability>)
    requires SlicesOk(s0, r) && SameSlices(s0, s1)
    ensures SlicesOk(s1, r)
  {
    forall a: nat | a < |s1| ensures SliceOk(s1, r, a) {
      assert SliceOk(s0, r, a);
    }
    forall a: nat, b: nat | a < b < |s1| ensures Apart(s1, a, b) {
      assert Apart(s0, a, b);
    }
  }

  lemma ClusteredSlices(s0: seq<AreaSettings>, s1: seq<AreaSettings>, removed: seq<nat>, r: seq<Reachability>)
    requires SlicesOk(s0, r) && (forall i | 0 <= i < |removed| :: removed[i] < |s0|)
    requires SameAreas(AllDropped(s0, removed), s1)
    ensures SlicesOk(s1, r)
  {
    DroppedSlices(s0, removed);
    SlicesStay(s0, s1, r);
  }

  lemma {:induction false} FirstWasSuperfluous(net: Net, removed: seq<nat>)
    requires (forall i | 0 <= i < |removed| :: removed[i] < |net.portal|) && Justified(net, removed) && removed != []
    ensures Superfluous(net, removed[0])
  {
    var n := |removed| - 1;
    if n > 0 {
      FirstWasSuperfluous(net, removed[..n]);
    } else {
      assert removed[..0] == [];
    }
  }

  lemma SuperfluousDivides(net: Net, a: nat)
    requires Superfluous(net, a)
    ensures a < |net.portal| && net.portal[a] && !Divides(net, a)
  {
  }

  /** If every portal area divides two parts, none is unmarked. */
  lemma NoneRemoved(net: Net, removed: seq<nat>)
    requires net.Valid() && (forall i | 0 <= i < |removed| :: removed[i] < |net.portal|) && Justified(net, removed)
    requires forall a: nat | a < |net.portal| && net.portal[a] :: Divides(net, a)
    ensures removed == [] && After(net, removed) == net
  {
    if removed != [] {
      FirstWasSuperfluous(net, removed);
      SuperfluousDivides(net, removed[0]);
    }
  }

  // ----- the set-up

  /** The longest times through the portal areas. */
  method PortalMaxTravelTimes(portals: seq<Portal>, areatraveltimes: seq<seq<seq<nat>>>,
                              reversed: seq<seq<ReversedLink>>)
    returns (maxtimes: seq<nat>)
    requires forall p | 0 <= p < |portals| :: portals[p].areanum < |areatraveltimes| == |reversed|
    requires forall i, l | 0 <= i < |areatraveltimes| == |reversed| && 0 <= l < |areatraveltimes[i]| ::
      |areatraveltimes[i][l]| == |reversed[i]|
    ensures |maxtimes| == |portals|
    ensures forall p | 0 <= p < |portals| ::
      IsLongest(areatraveltimes[portals[p].areanum], |reversed[portals[p].areanum]|, maxtimes[p])
  {
    maxtimes := [];
    var p := 0;
    while p < |portals|
      invariant 0 <= p == |maxtimes| <= |portals|
      invariant forall q | 0 <= q < p ::
        IsLongest(areatraveltimes[portals[q].areanum], |reversed[portals[q].areanum]|, maxtimes[q])
    {
      var a := portals[p].areanum;
      var maxt := PortalMaxTravelTime(areatraveltimes[a], |reversed[a]|);
      maxtimes := maxtimes + [maxt];
      p := p + 1;
    }
  }

  /** Cluster the file and set up the tables of the routing code for it. */
  method SetUpWorld(settings: seq<AreaSettings>, reachability: seq<Reachability>, gait: seq<Gait>, length: Vec3 -> real,
                    travelflagfortype: seq<bv32>, areacontentstravelflags: seq<bv32>)
    returns (w: World, ghost removed: seq<nat>)
    requires ClusterNet.FileOk(settings, reachability) && SlicesOk(settings, reachability)
    requires |settings| <= MOST_AREAS && settings[0].cluster == 0
    requires |gait| == |settings| == |areacontentstravelflags| && |travelflagfortype| == MAX_TRAVELTYPES
      && IsLength(length)
    ensures w.reachability == reachability && ClusterNet.FileOk(w.settings, reachability) && SetUp(w, gait, length)
    ensures (forall i | 0 <= i < |removed| ::
      removed[i] < |settings|) && Justified(NetOf(settings, reachability), removed)
    ensures NetOf(w.settings, reachability) == After(NetOf(settings, reachability), removed)
    ensures w.SizesOk() && w.LinksOk()
    ensures forall p | 0 <= p < |w.portals| ::
      && w.portals[p].areanum < |w.settings|
      && IsLongest(w.areatraveltimes[w.portals[p].areanum], |w.reversed[w.portals[p].areanum]|,
        w.portalmaxtraveltimes[p])
    ensures (forall c | 0 < c < |w.clusters| :: w.ClosedUnderLinks(c)) <==>
      PortalsLeadHome(NetOf(w.settings, reachability))
    ensures w.Valid() <==> PortalsLeadHome(NetOf(w.settings, reachability)) && NoZeroCrossing(w)
  {
    hide ClusterNet.FileOk, SlicesOk, SameAreas, Justified, IsLength, Settled, NetOf, SetUp, TableDone, Links,
      World.Valid, World.SizesOk,
      World.LinksOk, World.ClosedUnderLinks, PortalsLeadHome, NoZeroCrossing, Linked, IsLongest;
    var builder := new ClusterBuilder(settings, reachability);
    removed := builder.InitClustering();
    ghost var l := builder.Now();
    ghost var net := NetOf(builder.areasettings, reachability);
    ClusteredSlices(settings, builder.areasettings, removed, reachability);
    SettledTables(net, l, reachability);
    var reversed := CreateReversedReachability(builder.areasettings, reachability);
    LinksExist(builder.areasettings, reachability, reversed);
    var areatraveltimes := CalculateAreaTravelTimes(builder.areasettings, reachability, reversed, gait, length);
    var portals := builder.portals[..builder.numportals];
    TimesFit(builder.areasettings, reachability, reversed, gait, length, areatraveltimes);
    var portalmaxtraveltimes := PortalMaxTravelTimes(portals, areatraveltimes, reversed);
    w := World(builder.areasettings, reachability, portals, builder.portalindex[..builder.portalindexsize],
      builder.clusters[..builder.numclusters], travelflagfortype, areacontentstravelflags, reversed,
      areatraveltimes, portalmaxtraveltimes);
    SettledIsSized(net, l, w);
    assert SetUp(w, gait, length) by { ThatIsSetUp(w, gait, length); }
    WorldIsValid(net, l, w, gait, length);
    SettledNet(net, l, w);
    ClosedIff(net, l, w);
  }

  lemma ThatIsSetUp(w: World, gait: seq<Gait>, length: Vec3 -> real)
    requires SlicesOk(w.settings, w.reachability) && w.SizesOk() && |gait| == |w.settings| && IsLength(length)
    requires |w.reversed| == |w.areatraveltimes| == |w.settings|
    requires forall b | 0 <= b < |w.settings| :: w.reversed[b] == Links(w.settings, w.reachability, b, |w.settings|, 0)
    requires forall i | 0 <= i < |w.settings| ::
      TableDone(w.settings, w.reachability, w.reversed, gait, length, i, w.areatraveltimes[i])
    ensures SetUp(w, gait, length)
  {
  }

  lemma SettledTables(net: Net, l: Layout, r: seq<Reachability>)
    requires Settled(net, l, r)
    ensures |l.settings| == |net.portal| && 1 <= l.numportals <= |l.portals| && l.portalindexsize <= |l.portalindex|
    ensures l.numclusters <= |l.clusters| && forall p | 0 <= p < l.numportals :: l.portals[p].areanum < |l.settings|
  {
    hide Settled;
    SettledSizes(net, l, r);
  }

  lemma LinksExist(settings: seq<AreaSettings>, r: seq<Reachability>, reversed: seq<seq<ReversedLink>>)
    requires SlicesOk(settings, r) && |reversed| == |settings|
    requires forall b | 0 <= b < |settings| :: reversed[b] == Links(settings, r, b, |settings|, 0)
    ensures forall b, i | 0 <= b < |reversed| && 0 <= i < |reversed[b]| :: reversed[b][i].linknum < |r|
  {
    hide SlicesOk, Links;
    assert |settings| > 0 by { SlicesExist(settings, r); }
    forall b: nat, i: nat | b < |reversed| && i < |reversed[b]| ensures reversed[b][i].linknum < |r| {
      assert reversed[b][i] in reversed[b];
      LinksAre(settings, r, b, |settings|, 0, reversed[b][i]);
    }
  }

  lemma TimesFit(settings: seq<AreaSettings>, r: seq<Reachability>, reversed: seq<seq<ReversedLink>>,
                 gait: seq<Gait>, length: Vec3 -> real, times: seq<seq<seq<nat>>>)
    requires |settings| == |reversed| == |gait| == |times|
    requires forall i | 0 <= i < |settings| :: TableDone(settings, r, reversed, gait, length, i, times[i])
    ensures forall i, l | 0 <= i < |times| && 0 <= l < |times[i]| :: |times[i][l]| == |reversed[i]|
  {
    hide RowsDone;
    forall i: nat, l: nat | i < |times| && l < |times[i]| ensures |times[i][l]| == |reversed[i]| {
      assert TableDone(settings, r, reversed, gait, length, i, times[i]);
    }
  }

  // ----- two files

  /** From no end to no start is it so far that the time would be cut off. */
  ghost predicate Short(length: Vec3 -> real, r: seq<Reachability>) {
    forall g, i, j | 0 <= i < |r| && 0 <= j < |r| :: length(Minus(r[i].end, r[j].start)) * Factor(g) < 65536.0
  }

  /** Crossing times are not cut off where all ways through areas are short. */
  lemma ShortCrossings(w: World, gait: seq<Gait>, length: Vec3 -> real)
    requires SetUp(w, gait, length)
    requires Short(length, w.reachability)
    ensures NoZeroCrossing(w)
  {
    hide SlicesOk, Links, World.SizesOk, AreaTravelTime, IsLength;
    forall b: nat, e: nat, i: nat | b < |w.areatraveltimes| && e < |w.areatraveltimes[b]|
        && i < |w.areatraveltimes[b][e]|
      ensures w.areatraveltimes[b][e][i] != 0
    {
      TimesSized(w, gait, length);
      SetUpSizes(w, gait, length);
      assert TableDone(w.settings, w.reachability, w.reversed, gait, length, b, w.areatraveltimes[b]);
      assert IsCrossing(w.settings, w.reachability, w.reversed, gait, length, b, e, i, w.areatraveltimes[b][e][i]);
      var n, m := w.reversed[b][i].linknum, w.settings[b].firstreachablearea + e;
      assert length(Minus(w.reachability[n].end, w.reachability[m].start)) * Factor(gait[b]) < 65536.0;
      TravelTimeIsPositive(length, gait[b], w.reachability[n].end, w.reachability[m].start);
    }
  }

  const ORIGIN: Vec3 := Vec3(0.0, 0.0, 0.0)

  /** A reachability to area a, everything being in one place. */
  function Link(a: nat): Reachability { Reachability(a, 0, 0, ORIGIN, ORIGIN, 2, 1) }

  function Setting(contents: bv32, n: nat, first: nat): AreaSettings { AreaSettings(contents, 0, 0, 0, n, first) }

  lemma SquareIsPositive(d: real)
    requires d > 0.0
    ensures d * d > 0.0
  {
  }

  lemma OnePlace(length: Vec3 -> real, r: seq<Reachability>)
    requires IsLength(length) && forall i | 0 <= i < |r| :: r[i].start == r[i].end == ORIGIN
    ensures Short(length, r)
  {
    var d := length(ORIGIN);
    assert d * d == 0.0 && d >= 0.0;
    if d > 0.0 {
      SquareIsPositive(d);
    }
    assert Minus(ORIGIN, ORIGIN) == ORIGIN;
  }

  /** Portal area 3 between areas 1 and 2, from which it can be reached and which it leads to. */
  function Between12(): (seq<AreaSettings>, seq<Reachability>) {
    ([Setting(0, 0, 0), Setting(0, 1, 0), Setting(0, 1, 1), Setting(AREACONTENTS_CLUSTERPORTAL, 2, 2)],
      [Link(3), Link(3), Link(1), Link(2)])
  }

  lemma Between12Net(net: Net)
    requires net == Net([false, false, false, true], [[], [3], [3], [1, 2]])
    ensures net.Valid() && Divides(net, 3) && PortalsLeadHome(net)
  {
    assert net.reach[1][0] == 3 && net.reach[2][0] == 3;
    forall x: nat, y: nat | net.Joined(x, y) ensures x == y {
      OnlyItself(net, x, y);
    }
    net.JoinedSelf(1);
    net.JoinedSelf(2);
    assert Separates(net, 3, 1, 2);
    forall x: nat, y: nat | Separates(net, 3, x, y) ensures x != y && 1 <= x <= 2 && 1 <= y <= 2 {
      net.JoinedSelf(x);
    }
    assert ReachesFrom(net, 1, 3, 1) && ReachesFrom(net, 2, 3, 2);
  }

  lemma Between12File()
    ensures ClusterNet.FileOk(Between12().0, Between12().1) && SlicesOk(Between12().0, Between12().1)
    ensures NetOf(Between12().0, Between12().1) == Net([false, false, false, true], [[], [3], [3], [1, 2]])
  {
    var s, r := Between12().0, Between12().1;
    assert forall a | 0 <= a < 4 :: SliceOk(s, r, a);
    assert forall a, b | 0 <= a < b < 4 :: Apart(s, a, b);
    assert Targets(s[3], r) == [1, 2] && Targets(s[1], r) == [3] && Targets(s[2], r) == [3] && Targets(s[0], r) == [];
  }

  /** A world for routing. */
  method SmallWorld(length: Vec3 -> real) returns (w: World)
    requires IsLength(length)
    ensures w.Valid() && w.reachability == Between12().1
  {
    hide World.Valid, SetUp, IsLength, NoZeroCrossing, ClusterNet.FileOk, SlicesOk, World.SizesOk, World.LinksOk,
      NetOf, Justified, Divides,
      PortalsLeadHome, World.ClosedUnderLinks, Short;
    var (settings, r) := Between12();
    Between12File();
    Between12Net(NetOf(settings, r));
    ghost var removed;
    w, removed := SetUpWorld(settings, r, seq(4, _ => Walk), length, seq(MAX_TRAVELTYPES, _ => 0), seq(4, _ => 0));
    NoneRemoved(NetOf(settings, r), removed);
    OnePlace(length, r);
    ShortCrossings(w, seq(4, _ => Walk), length);
  }

  /** Portal area 3 between areas 1 and 2, leading to area 4, which neither of them is joined to. */
  function Elsewhere(): (seq<AreaSettings>, seq<Reachability>) {
    ([Setting(0, 0, 0), Setting(0, 1, 0), Setting(0, 1, 1), Setting(AREACONTENTS_CLUSTERPORTAL, 1, 2),
      Setting(0, 1, 3)],
     [Link(3), Link(3), Link(4), Link(4)])
  }

  lemma ElsewhereNet(net: Net)
    requires net == Net([false, false, false, true, false], [[], [3], [3], [4], [4]])
    ensures net.Valid() && Divides(net, 3) && !PortalsLeadHome(net)
  {
    PortalMayLeadElsewhere(net);
    assert net.reach[3][0] == 4;
    assert net.Attached(4);
    assert !PartReaches(net, 4, 3);
    assert !LeadsHome(net, 3, 4);
  }

  lemma ElsewhereFile()
    ensures ClusterNet.FileOk(Elsewhere().0, Elsewhere().1) && SlicesOk(Elsewhere().0, Elsewhere().1)
    ensures NetOf(Elsewhere().0, Elsewhere().1) == Net([false, false, false, true, false], [[], [3], [3], [4], [4]])
  {
    var s, r := Elsewhere().0, Elsewhere().1;
    assert forall a | 0 <= a < 5 :: SliceOk(s, r, a);
    assert forall a, b | 0 <= a < b < 5 :: Apart(s, a, b);
    assert Targets(s[3], r) == Targets(s[4], r) == [4] && Targets(s[1], r) == Targets(s[2], r) == [3]
      && Targets(s[0], r) == [];
  }

  /** A settled world that is none for routing. */
  method ElsewhereWorld(length: Vec3 -> real) returns (w: World)
    requires IsLength(length)
    ensures w.reachability == Elsewhere().1 && w.SizesOk() && w.LinksOk()
    ensures !w.Valid() && exists c :: 0 < c < |w.clusters| && !w.ClosedUnderLinks(c)
  {
    hide World.Valid, SetUp, IsLength, NoZeroCrossing, ClusterNet.FileOk, SlicesOk, World.SizesOk, World.LinksOk,
      NetOf, Justified, Divides,
      PortalsLeadHome, World.ClosedUnderLinks;
    var (settings, r) := Elsewhere();
    ElsewhereFile();
    ElsewhereNet(NetOf(settings, r));
    ghost var removed;
    w, removed := SetUpWorld(settings, r, seq(5, _ => Walk), length, seq(MAX_TRAVELTYPES, _ => 0), seq(5, _ => 0));
    NoneRemoved(NetOf(settings, r), removed);
  }
}
