/** Splitting the areas into clusters separated by portal areas. */
module Clustering {
  import opened AasFile
  import opened ClusterNet
  import opened ClusterLayout
  import opened ClusterParts
  import opened ClusterFlood
  import opened ClusterMeaning
  import opened Counting

  class ClusterBuilder {
    var areasettings: seq<AreaSettings>
    const reachability: seq<Reachability>
    var portals: seq<Portal>
    var numportals: nat
    var portalindex: seq<nat>
    var portalindexsize: nat
    var clusters: seq<Cluster>
    var numclusters: nat

    /** The loaded file, before anything of it is clustered. */
    constructor (areasettings: seq<AreaSettings>, reachability: seq<Reachability>)
      ensures this.areasettings == areasettings && this.reachability == reachability
    {
      this.areasettings, this.reachability := areasettings, reachability;
      portals, numportals, portalindex, portalindexsize, clusters, numclusters := [], 0, [], 0, [], 0;
    }

    ghost function Now(): Layout
      reads this
    {
      Layout(areasettings, portals, numportals, portalindex, portalindexsize, clusters, numclusters)
    }

    /** The portal of a portal area. */
    method PortalOfArea(areanum: nat, ghost net: Net) returns (portalnum: nat)
      requires net.Valid() && PortalsOf(net, portals, numportals) && net.IsArea(areanum) && net.portal[areanum]
      ensures IsRecord(portals, numportals, portalnum, areanum)
    {
      RecordOf(net, portals, numportals, areanum);
      portalnum := 1;
      while portalnum < numportals && portals[portalnum].areanum != areanum
        invariant 1 <= portalnum <= numportals
        invariant forall p | 0 < p < portalnum :: portals[p].areanum != areanum
      {
        portalnum := portalnum + 1;
      }
      // portalnum < numportals: every portal area has a portal
    }

    /** Make the cluster the portal's next one and list the portal in the cluster. */
    method AddPortalCluster(areanum: nat, portalnum: nat, clusternum: nat)
      requires numportals <= |portals| && IsRecord(portals, numportals, portalnum, areanum) && areanum < |areasettings|
      requires clusternum < |clusters|
        && End(Now(), clusternum) == portalindexsize < |portalindex| == AAS_MAX_PORTALINDEXSIZE
      modifies this
      ensures Now() == Bordered(old(Now()), portalnum, clusternum)
      ensures |areasettings| == old(|areasettings|) && numportals == old(numportals) && |portals| == old(|portals|)
    {
      if portals[portalnum].frontcluster == 0 {
        portals := portals[portalnum := portals[portalnum].(frontcluster := clusternum)];
      } else {
        portals := portals[portalnum := portals[portalnum].(backcluster := clusternum)];
      }
      assert portalindexsize < AAS_MAX_PORTALINDEXSIZE; // the index never runs full
      areasettings := areasettings[areanum := areasettings[areanum].(cluster := 0 - portalnum)];
      var cluster := clusters[clusternum];
      portalindex := portalindex[cluster.firstportal + cluster.numportals := portalnum];
      portalindexsize := portalindexsize + 1;
      clusters := clusters[clusternum := cluster.(numportals := cluster.numportals + 1)];
    }

    /** Take the portal mark from an area. */
    method Unmark(areanum: nat)
      requires areanum < |areasettings|
      modifies this
      ensures Now() == old(Now()).(settings := Dropped(old(areasettings), areanum))
      ensures |areasettings| == old(|areasettings|) && numportals == old(numportals) && portals == old(portals)
    {
      areasettings := areasettings[areanum :=
        areasettings[areanum].(contents := areasettings[areanum].contents & !AREACONTENTS_CLUSTERPORTAL)];
    }

    /** Record the cluster at the portal of an area it has reached; false if it is one too many. */
    method UpdatePortal(areanum: nat, clusternum: nat, ghost net: Net, ghost root: nat)
      returns (ok: bool, ghost last: Layout)
      requires Flooding(net, Now(), reachability, clusternum, root)
      requires net.Valid() && |areasettings| == |net.portal| && net.IsArea(areanum) && net.portal[areanum]
      requires Touched(net, Now(), areanum, clusternum)
      modifies this
      ensures ok ==> Flooded(net, old(Now()), Now(), reachability, clusternum, root)
      ensures |areasettings| == |net.portal| && numportals <= |portals|
        && (ok ==> Handled(net, Now(), areanum, clusternum))
      ensures !ok ==> Stopped(net, old(Now()), last, Now(), reachability, clusternum, root)
    {
      hide Flooding, Flooded, Stopped, Grown, Touched, PortalsOf, Fits, Slice, Marked, Sourced, NoEntry, Rooted,
        Bordered, Dropped;
      last := Now();
      FloodSizes(net, last, reachability, clusternum, root);
      FloodEnd(net, last, reachability, clusternum, root);
      var portalnum := PortalOfArea(areanum, net);
      var portal := portals[portalnum];
      if portal.frontcluster == clusternum || portal.backcluster == clusternum {
        FloodedSelf(net, last, reachability, clusternum, root);
        assert IsBorder(Now(), portalnum, areanum, clusternum);
        ok := true;
      } else if portal.frontcluster != 0 && portal.backcluster != 0 {
        CrossedPortal(net, last, reachability, portalnum, clusternum, root);
        Unmark(areanum);
        Stop(net, last, Now(), reachability, areanum, clusternum, root);
        ok := false;
      } else {
        FloodedBordered(net, last, reachability, portalnum, clusternum, root);
        IndexSize(net, last, reachability, clusternum, root);
        AddPortalCluster(areanum, portalnum, clusternum);
        ok := true;
      }
    }

    /** Put an area in the cluster and go on with all it reaches; portals are the border. */
    method FloodClusterAreas(areanum: nat, clusternum: nat, ghost net: Net, ghost root: nat)
      returns (ok: bool, ghost last: Layout)
      requires Flooding(net, Now(), reachability, clusternum, root)
      requires net.Valid() && |areasettings| == |net.portal| && Called(net, Now(), areanum, clusternum, root)
      modifies this
      ensures ok ==> Flooded(net, old(Now()), Now(), reachability, clusternum, root)
      ensures |areasettings| == |net.portal| && numportals <= |portals|
        && (ok ==> Handled(net, Now(), areanum, clusternum))
      ensures !ok ==> Stopped(net, old(Now()), last, Now(), reachability, clusternum, root)
      decreases Unset(net, areasettings)
    {
      hide Flooding, Flooded, Stopped, Grown, Touched, PortalsOf, Fits, Slice, Marked, Sourced, NoEntry, Rooted;
      last := Now();
      ghost var l0 := Now();
      FloodSizes(net, l0, reachability, clusternum, root);
      FloodedSelf(net, l0, reachability, clusternum, root);
      assert AreaFits(net, l0, reachability, areanum, clusternum) by {
        FlagIsPortal(net, l0, reachability, areanum, clusternum, root);
      }
      if areasettings[areanum].cluster > 0 {
        // never another one: clusters do not touch
        assert areasettings[areanum].cluster == clusternum;
        return true, last;
      }
      if areasettings[areanum].contents & AREACONTENTS_CLUSTERPORTAL != 0 {
        ok, last := UpdatePortal(areanum, clusternum, net, root);
        return;
      }
      areasettings := areasettings[areanum :=
        areasettings[areanum].(cluster := clusternum, clusterareanum := clusters[clusternum].numareas)];
      clusters := clusters[clusternum := clusters[clusternum].(numareas := clusters[clusternum].numareas + 1)];
      ghost var l1 := Now();
      assert l1 == Coloured(l0, areanum, clusternum);
      ColouredOk(net, l0, reachability, areanum, clusternum, root);
      UnsetColoured(net, l0, areanum, clusternum);
      FloodedSelf(net, l1, reachability, clusternum, root);
      ghost var count := |net.reach[areanum]|;
      var i := 0;
      while i < areasettings[areanum].numreachableareas
        invariant 0 <= i <= count && |areasettings| == |net.portal| && numportals <= |portals|
        invariant areasettings[areanum].numreachableareas == count && areasettings[areanum].cluster == clusternum
        invariant areasettings[areanum].firstreachablearea == l0.settings[areanum].firstreachablearea
        invariant Flooded(net, l1, Now(), reachability, clusternum, root)
        invariant Reached(net, Now(), areanum, i, clusternum)
      {
        ghost var l := Now();
        FloodedIs(net, l1, l, reachability, clusternum, root);
        FloodSizes(net, l, reachability, clusternum, root);
        var target := reachability[areasettings[areanum].firstreachablearea + i].areanum;
        if target != 0 {
          TargetCalled(net, l, reachability, areanum, i, clusternum, root);
          UnsetShrinks(net, l1, l, clusternum);
          ok, last := FloodClusterAreas(target, clusternum, net, root);
          if !ok {
            StoppedBefore(net, l1, l, last, Now(), reachability, clusternum, root);
            StoppedBefore(net, l0, l1, last, Now(), reachability, clusternum, root);
            return;
          }
        } else {
          FloodedSelf(net, l, reachability, clusternum, root);
        }
        NextTarget(net, l1, l, Now(), reachability, areanum, i, clusternum, root);
        FloodedArea(net, l, Now(), reachability, areanum, clusternum, root);
        i := i + 1;
      }
      FloodedColoured(net, l0, areanum, Now(), reachability, clusternum, root);
      ok := true;
    }

    /** Does a reachability of the area lead to an area that has a cluster and is no portal? */
    method ReachesCluster(areanum: nat, ghost net: Net) returns (found: bool)
      requires net.Valid() && Fits(net, areasettings, reachability) && net.IsArea(areanum)
      requires areasettings[0].cluster == 0
      ensures found ==> exists t: nat :: net.Reaches(areanum, t) && net.Free(t) && areasettings[t].cluster != 0
      ensures !found ==> NoneInto(net, Now(), areanum, 0)
    {
      assert IsFit(net, areasettings[areanum], reachability, areanum);
      var j := 0;
      while j < areasettings[areanum].numreachableareas
        invariant 0 <= j <= |net.reach[areanum]|
        invariant forall i | 0 <= i < j :: net.Free(net.reach[areanum][i]) ==>
          areasettings[net.reach[areanum][i]].cluster == 0
      {
        var target := reachability[areasettings[areanum].firstreachablearea + j].areanum;
        assert target == net.reach[areanum][j] && IsFit(net, areasettings[target], reachability, target);
        if areasettings[target].contents & AREACONTENTS_CLUSTERPORTAL == 0 && areasettings[target].cluster != 0 {
          assert net.Reaches(areanum, target);
          return true;
        }
        j := j + 1;
      }
      found := false;
    }

    /** Flood from every area without cluster that reaches the cluster, until there is none left. */
    method FloodClusterAreasUsingReachabilities(clusternum: nat, ghost net: Net, ghost root: nat)
      returns (ok: bool, ghost last: Layout)
      requires Flooding(net, Now(), reachability, clusternum, root)
      requires net.Valid() && |areasettings| == |net.portal| && numportals <= |portals|
        && AllDone(net, Now(), clusternum)
      modifies this
      ensures ok ==> Closing(net, old(Now()), Now(), reachability, clusternum, root)
      ensures |areasettings| == |net.portal| && (ok ==> NoEntry(net, Now(), 0))
      ensures !ok ==> Stopped(net, old(Now()), last, Now(), reachability, clusternum, root)
    {
      hide Flooding, Flooded, Closing, Stopped, Grown, Touched, PortalsOf, Slice, Marked, Sourced, NoEntry, Rooted,
        NoneInto, Handled, NewDone, AllDone;
      ghost var l0 := Now();
      last := l0;
      FloodSizes(net, l0, reachability, clusternum, root);
      ClosingSelf(net, l0, reachability, clusternum, root);
      var i := 1;
      while i < |areasettings|
        invariant 1 <= i <= |areasettings| == |net.portal|
        invariant Closing(net, l0, Now(), reachability, clusternum, root)
        invariant forall x: nat | x < i :: Quiet(net, Now(), x)
        decreases Unset(net, areasettings), |net.portal| - i
      {
        ghost var l := Now();
        ClosingIs(net, l0, l, reachability, clusternum, root);
        FloodSizes(net, l, reachability, clusternum, root);
        assert AreaFits(net, l, reachability, i, clusternum) by {
          FlagIsPortal(net, l, reachability, i, clusternum, root);
        }
        if areasettings[i].cluster == 0 && areasettings[i].contents & AREACONTENTS_CLUSTERPORTAL == 0 {
          var found := ReachesCluster(i, net);
          if found {
            BackCalled(net, l, reachability, i, clusternum, root);
            ok, last := FloodClusterAreas(i, clusternum, net, root);
            if !ok {
              StoppedBefore(net, l0, l, last, Now(), reachability, clusternum, root);
              return;
            }
            ClosingThrough(net, l0, l, Now(), reachability, clusternum, root);
            UnsetOf(net, l, Now(), reachability, i, clusternum, root);
            i := 0;
          }
        }
        i := i + 1;
      }
      AllQuiet(net, Now());
      ok := true;
    }

    /** Number the areas of the cluster with, or those without, reachabilities. */
    method NumberAreas(clusternum: nat, reachable: bool, ghost net: Net, ghost l0: Layout, ghost order: seq<nat>)
      returns (ghost next: seq<nat>)
      requires Numbering(net, l0, Now(), clusternum, order)
      requires Elements(order) !! AreasBelow(net, l0, clusternum, |l0.settings|, reachable)
      requires reachable ==> clusters[clusternum].numreachabilityareas == clusters[clusternum].numareas
      modifies this
      ensures Numbering(net, l0, Now(), clusternum, next)
      ensures Elements(next) == Elements(order) + AreasBelow(net, l0, clusternum, |l0.settings|, reachable)
      ensures reachable ==> clusters[clusternum].numreachabilityareas == clusters[clusternum].numareas
    {
      hide InOrder, Renumbered, Elements, AreasBelow, PortalsOf, Slice;
      next := order;
      NoneBelow(net, l0, clusternum, reachable, order);
      var i: nat := 1;
      while i < |areasettings|
        invariant 1 <= i <= |areasettings| == |l0.settings|
        invariant Numbering(net, l0, Now(), clusternum, next)
        invariant Elements(next) == Elements(order) + AreasBelow(net, l0, clusternum, i, reachable)
        invariant reachable ==> clusters[clusternum].numreachabilityareas == clusters[clusternum].numareas
      {
        OneMore(net, l0, Now(), clusternum, i, reachable, order, next);
        if areasettings[i].cluster == clusternum && (areasettings[i].numreachableareas > 0) == reachable {
          AreaNumbering(net, l0, Now(), clusternum, i, next);
          ghost var l := Now();
          areasettings := areasettings[i := areasettings[i].(clusterareanum := clusters[clusternum].numareas)];
          CountArea(clusternum, reachable);
          assert Now() == AreaNumbered(l, i, clusternum);
          ElementsAppend(next, i);
          next := next + [i];
        }
        i := i + 1;
      }
    }

    method CountArea(clusternum: nat, reachable: bool)
      requires clusternum < |clusters|
      modifies this
      ensures Now()
        == old(Now()).(clusters := old(clusters)[clusternum := Counts(old(clusters)[clusternum], reachable)])
    {
      clusters := clusters[clusternum := clusters[clusternum].(numareas := clusters[clusternum].numareas + 1)];
      if reachable {
        var cluster := clusters[clusternum];
        clusters := clusters[clusternum := cluster.(numreachabilityareas := cluster.numreachabilityareas + 1)];
      }
    }

    /** Number the portals of the cluster with, or those without, reachabilities. */
    method NumberPortals(clusternum: nat, reachable: bool, ghost net: Net, ghost l0: Layout, ghost order: seq<nat>)
      returns (ghost next: seq<nat>)
      requires Numbering(net, l0, Now(), clusternum, order)
      requires Elements(order) !! PortalsBelow(l0, clusternum, l0.clusters[clusternum].numportals, reachable)
      requires reachable ==> clusters[clusternum].numreachabilityareas == clusters[clusternum].numareas
      modifies this
      ensures Numbering(net, l0, Now(), clusternum, next)
      ensures Elements(next) == Elements(order)
        + PortalsBelow(l0, clusternum, l0.clusters[clusternum].numportals, reachable)
      ensures reachable ==> clusters[clusternum].numreachabilityareas == clusters[clusternum].numareas
    {
      hide InOrder, Renumbered, Elements, PortalsBelow, PortalsOf, Slice;
      next := order;
      NoPortalBelow(net, l0, Now(), clusternum, reachable, order);
      SameSlice(l0, Now(), clusternum);
      var i: nat := 0;
      while i < clusters[clusternum].numportals
        invariant Numbering(net, l0, Now(), clusternum, next)
        invariant 0 <= i <= clusters[clusternum].numportals == l0.clusters[clusternum].numportals
        invariant Elements(next) == Elements(order) + PortalsBelow(l0, clusternum, i, reachable)
        invariant reachable ==> clusters[clusternum].numreachabilityareas == clusters[clusternum].numareas
      {
        OneMorePortal(net, l0, Now(), clusternum, i, reachable, order, next);
        var portalnum := portalindex[clusters[clusternum].firstportal + i];
        if (areasettings[portals[portalnum].areanum].numreachableareas > 0) == reachable {
          PortalNumbering(net, l0, Now(), clusternum, portalnum, next);
          ghost var l := Now();
          ElementsAppend(next, portals[portalnum].areanum);
          next := next + [portals[portalnum].areanum];
          NumberPortal(portalnum, clusternum, reachable);
        }
        SameSlice(l0, Now(), clusternum);
        i := i + 1;
      }
    }

    method NumberPortal(portalnum: nat, clusternum: nat, reachable: bool)
      requires portalnum < |portals| && clusternum < |clusters| && portals[portalnum].areanum < |areasettings|
      requires reachable == (areasettings[portals[portalnum].areanum].numreachableareas > 0)
      modifies this
      ensures Now() == PortalNumbered(old(Now()), portalnum, clusternum)
    {
      var n, portal := clusters[clusternum].numareas, portals[portalnum];
      if portal.frontcluster == clusternum {
        portals := portals[portalnum := portal.(clusterareanum := (n, portal.clusterareanum.1))];
      } else {
        portals := portals[portalnum := portal.(clusterareanum := (portal.clusterareanum.0, n))];
      }
      CountArea(clusternum, reachable);
    }

    /** Number the members of the cluster: areas and portals with reachabilities first, then those without. */
    method NumberClusterAreas(clusternum: nat, ghost net: Net, ghost root: nat)
      requires Flooding(net, Now(), reachability, clusternum, root)
      modifies this
      ensures Renumbered(old(Now()), Now(), clusternum)
      ensures |areasettings| == |net.portal| && numportals <= |portals| && Numbered(net, Now(), clusternum)
    {
      hide Flooding, Numbering, Elements, AreasBelow, PortalsBelow, Renumbered, Numbered, Slice;
      ghost var l := Now();
      FloodSizes(net, l, reachability, clusternum, root);
      clusters := clusters[clusternum := clusters[clusternum].(numareas := 0, numreachabilityareas := 0)];
      ghost var l0 := Now();
      NumberingStarts(net, l, l0, reachability, clusternum, root);
      PassesApart(net, l0, clusternum);
      ghost var order := NumberAreas(clusternum, true, net, l0, []);
      order := NumberPortals(clusternum, true, net, l0, order);
      order := NumberAreas(clusternum, false, net, l0, order);
      order := NumberPortals(clusternum, false, net, l0, order);
      NumberingEnds(net, l, l0, Now(), clusternum, order);
    }

    /** Flood the next cluster from an area without one, and number it. */
    method FindCluster(areanum: nat, ghost net: Net) returns (ok: bool)
      requires Between(net, Now(), reachability) && net.Free(areanum) && areanum < |areasettings|
        && areasettings[areanum].cluster == 0
      requires numclusters < |areasettings|
      modifies this
      ensures ok ==>
        Between(net, Now(), reachability) && numclusters == old(numclusters) + 1 && |areasettings| == |net.portal|
      ensures ok ==> net.Valid() && Kept(net, old(Now()), Now().(numclusters := old(numclusters)), old(numclusters))
      ensures ok ==> areasettings[areanum].cluster != 0
      ensures !ok ==> UnmarkedCrowded(net, old(areasettings), areasettings) && Sized(Now())
    {
      hide Between, Flooding, Flooded, Stopped, Closing, Called, Grown, Kept, Renumbered, NoEntry, AllDone, NewDone,
        Numbered, UnmarkedCrowded;
      ghost var l0 := Now();
      StartsFlooding(net, l0, reachability, areanum);
      clusters := clusters[numclusters := Cluster(0, 0, 0, portalindexsize)];
      assert Now() == Started(l0);
      ghost var last;
      ok, last := FloodClusterAreas(areanum, numclusters, net, areanum);
      if !ok {
        StoppedIsUnmarked(net, l0, last, Now(), reachability, areanum);
        return;
      }
      ghost var l1 := Now();
      ClosingSelf(net, Started(l0), reachability, l0.numclusters, areanum);
      ClosingThrough(net, Started(l0), Started(l0), l1, reachability, l0.numclusters, areanum);
      ClosingIs(net, Started(l0), l1, reachability, l0.numclusters, areanum);
      GrownSizes(net, Started(l0), l1, l0.numclusters);
      ok, last := FloodClusterAreasUsingReachabilities(numclusters, net, areanum);
      if !ok {
        StoppedBefore(net, Started(l0), l1, last, Now(), reachability, l0.numclusters, areanum);
        StoppedIsUnmarked(net, l0, last, Now(), reachability, areanum);
        return;
      }
      ghost var l2 := Now();
      ClosingOn(net, Started(l0), l1, l2, reachability, l0.numclusters, areanum);
      ClosingIs(net, Started(l0), l2, reachability, l0.numclusters, areanum);
      GrownSizes(net, Started(l0), l2, l0.numclusters);
      NumberClusterAreas(numclusters, net, areanum);
      RenumberedCounts(l2, Now(), l0.numclusters);
      EndsFlooding(net, l0, l2, Now(), reachability, areanum);
      RootColoured(net, l1, l2, Now(), areanum, l0.numclusters);
      numclusters := numclusters + 1;
    }

    method RemoveClusterAreas()
      requires |areasettings| > 0 && areasettings[0].cluster == 0
      modifies this
      ensures SameAreas(old(areasettings), areasettings)
      ensures Now() == old(Now()).(settings := areasettings)
      ensures forall a | 0 <= a < |areasettings| :: areasettings[a].cluster == 0
    {
      ghost var before := areasettings;
      var i := 1;
      while i < |areasettings|
        invariant 1 <= i <= |areasettings| == |before|
        invariant Now() == old(Now()).(settings := areasettings)
        invariant forall a | 0 <= a < i :: areasettings[a].cluster == 0
        invariant forall a | 0 <= a < |before| :: areasettings[a] == before[a].(cluster := areasettings[a].cluster)
      {
        areasettings := areasettings[i := areasettings[i].(cluster := 0)];
        i := i + 1;
      }
    }

    /** Find the clusters; false if a portal separates more than two of them. */
    method FindClusters(ghost net: Net) returns (ok: bool)
      requires Unclustered(net, Now(), reachability)
      modifies this
      ensures ok ==> Clustered(net, Now(), reachability) && SameAreas(old(areasettings), areasettings)
      ensures !ok ==> UnmarkedCrowded(net, old(areasettings), areasettings) && Sized(Now())
    {
      hide Between, Unclustered, SameAreas, UnmarkedCrowded, Kept, Seeded, Live;
      UnclusteredIs(net, Now(), reachability);
      ghost var before := areasettings;
      RemoveClusterAreas();
      FirstBetween(net, old(Now()), Now(), reachability);
      var i := 1;
      while i < |areasettings|
        invariant net.Valid() && 1 <= i <= |areasettings| == |net.portal| && numclusters <= i
        invariant Between(net, Now(), reachability) && SameAreas(before, areasettings) && Seeded(net, Now(), i)
          && Live(net, Now())
      {
        ghost var l := Now();
        BetweenIs(net, l, reachability);
        assert IsFit(net, areasettings[i], reachability, i);
        if areasettings[i].cluster == 0 && areasettings[i].numreachableareas > 0
          && areasettings[i].contents & AREACONTENTS_CLUSTERPORTAL == 0
        {
          assert numclusters < AAS_MAX_CLUSTERS; // the table of clusters never runs full
          ok := FindCluster(i, net);
          if !ok {
            UnmarkedLater(net, before, l.settings, areasettings);
            return;
          }
          KeptSame(net, l, Now().(numclusters := l.numclusters), l.numclusters, before);
          KeptSeeded(net, l, Now().(numclusters := l.numclusters), Now(), l.numclusters, i);
          BetweenIs(net, Now(), reachability);
          KeptLive(net, l, Now().(numclusters := l.numclusters), Now(), l.numclusters, i);
        } else {
          SeededMore(net, l, i);
        }
        i := i + 1;
      }
      ok := true;
    }

    /** A portal for every portal area, without clusters yet. */
    method CreatePortals(ghost net: Net)
      requires Fits(net, areasettings, reachability) && |areasettings| <= MOST_AREAS
      requires numportals == 1 && |portals| == AAS_MAX_PORTALS && Unused(portals[0])
      modifies this
      ensures Now() == old(Now()).(portals := portals, numportals := numportals)
      ensures PortalsOf(net, portals, numportals)
      ensures forall p | 0 < p < numportals :: portals[p].frontcluster == 0 && portals[p].backcluster == 0
    {
      hide Created, PortalsOf;
      var i: nat := 1;
      NoneCreated(net, portals);
      while i < |areasettings|
        invariant 1 <= i <= |areasettings|
        invariant Now() == old(Now()).(portals := portals, numportals := numportals)
        invariant |portals| == AAS_MAX_PORTALS && 1 <= numportals <= i && Created(net, portals, numportals, i)
      {
        assert IsFit(net, areasettings[i], reachability, i);
        if areasettings[i].contents & AREACONTENTS_CLUSTERPORTAL != 0 {
          assert numportals < AAS_MAX_PORTALS; // the table of portals never runs full
          CreatedPortal(net, portals, numportals, i);
          portals := portals[numportals := portals[numportals].(areanum := i, frontcluster := 0, backcluster := 0)];
          numportals := numportals + 1;
        } else {
          CreatedNone(net, portals, numportals, i);
        }
        i := i + 1;
      }
      AllCreated(net, portals, numportals);
    }

    /** Does every portal have two clusters? If not, the first that has not is unmarked. */
    method TestPortals() returns (ok: bool)
      requires numportals <= |portals| && forall p | 0 < p < numportals :: portals[p].areanum < |areasettings|
      modifies this
      ensures ok ==> Now() == old(Now()) && forall p | 0 < p < numportals ::
        portals[p].frontcluster != 0 && portals[p].backcluster != 0
      ensures !ok ==> exists p: nat :: IsLacking(old(Now()), Now(), p)
    {
      var i: nat := 1;
      while i < numportals
        invariant 1 <= i && Now() == old(Now())
        invariant forall p | 0 < p < i && p < numportals :: portals[p].frontcluster != 0 && portals[p].backcluster != 0
      {
        if portals[i].frontcluster == 0 {
          Unmark(portals[i].areanum);
          assert IsLacking(old(Now()), Now(), i);
          return false;
        }
        if portals[i].backcluster == 0 {
          Unmark(portals[i].areanum);
          assert IsLacking(old(Now()), Now(), i);
          return false;
        }
        i := i + 1;
      }
      ok := true;
    }

    /** One attempt: create portals, find clusters, test the portals; if it fails, a superfluous portal has been
        unmarked. */
    method Attempt(ghost net: Net) returns (ok: bool, ghost a: nat)
      requires Fits(net, areasettings, reachability) && Sized(Now())
      modifies this
      ensures ok ==> Settled(net, Now(), reachability) && SameAreas(old(areasettings), areasettings)
      ensures !ok ==>
        Superfluous(net, a) && a < |old(areasettings)| && SameAreas(Dropped(old(areasettings), a), areasettings)
      ensures !ok ==> Sized(Now())
    {
      hide Clustered, SameAreas, Superfluous, PortalsOf, UnmarkedCrowded;
      ghost var before := areasettings;
      numportals := 1;
      portalindexsize := 0;
      numclusters := 1;
      CreatePortals(net);
      ok := FindClusters(net);
      if !ok {
        a := CrowdedArea(net, before, areasettings);
        return;
      }
      ghost var l := Now();
      ClusteredSizes(net, l, reachability);
      ClusteredSized(net, l, reachability);
      a := 0;
      PortalAreasExist(net, l);
      ok := TestPortals();
      if !ok {
        ghost var p: nat :| IsLacking(l, Now(), p);
        a := portals[p].areanum;
        PortalIsIdleOrDivides(net, l, reachability, p);
        assert Superfluous(net, a) by { IdleIsSuperfluous(net, a); }
        SameDropped(before, l.settings, a);
      }
    }

    /** Try until every portal lies between two clusters. */
    method InitClustering() returns (ghost removed: seq<nat>)
      requires FileOk(areasettings, reachability) && |areasettings| <= MOST_AREAS && areasettings[0].cluster == 0
      modifies this
      ensures FileOk(areasettings, reachability) && Settled(NetOf(areasettings, reachability), Now(), reachability)
      ensures forall i | 0 <= i < |removed| :: removed[i] < |old(areasettings)|
      ensures Justified(NetOf(old(areasettings), reachability), removed)
      ensures NetOf(areasettings, reachability) == After(NetOf(old(areasettings), reachability), removed)
      ensures SameAreas(AllDropped(old(areasettings), removed), areasettings)
    {
      hide SameAreas, Justified, Settled, Superfluous, NetOf, FileOk;
      ghost var before := areasettings;
      portals := seq(AAS_MAX_PORTALS, _ => Portal(0, 0, 0, (0, 0)));
      portalindex := seq(AAS_MAX_PORTALINDEXSIZE, _ => 0);
      clusters := seq(AAS_MAX_CLUSTERS, _ => Cluster(0, 0, 0, 0));
      removed := [];
      ghost var net := NetOf(before, reachability);
      NothingRemoved(net, before);
      var done := false;
      while !done
        invariant FileOk(areasettings, reachability) && |areasettings| == |before| && |net.portal| == |before|
        invariant forall i | 0 <= i < |removed| :: removed[i] < |before|
        invariant Justified(net, removed) && NetOf(areasettings, reachability) == After(net, removed)
        invariant SameAreas(AllDropped(before, removed), areasettings)
        invariant done ==> Settled(After(net, removed), Now(), reachability)
        invariant !done ==> Sized(Now())
        decreases Marks(After(net, removed)), !done
      {
        ghost var now, current := areasettings, NetOf(areasettings, reachability);
        ghost var a;
        done, a := Attempt(current);
        if done {
          SameAsBefore(AllDropped(before, removed), now, areasettings, reachability);
        } else {
          OneMoreRemoved(net, before, removed, a, now);
          RemovedNet(now, areasettings, reachability, a);
          SameAsBefore(AllDropped(before, removed + [a]), Dropped(now, a), areasettings, reachability);
          removed := removed + [a];
        }
      }
    }
  }
}
