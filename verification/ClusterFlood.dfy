/** Flooding a cluster: over the reachabilities of an area, and back from areas that reach the cluster. */
module ClusterFlood {
  import opened AasFile
  import opened ClusterNet
  import opened ClusterLayout
  import opened ClusterParts

  /** Area a may be flooded next: it is reached from cluster c, or hangs together with its root. */
  ghost predicate Called(net: Net, l: Layout, a: nat, c: nat, root: nat)
    requires net.Valid() && |l.settings| == |net.portal|
  {
    && net.IsArea(a)
    && (net.Free(a) ==> net.Joined(root, a) && (l.settings[a].cluster == 0 || l.settings[a].cluster == c))
    && (net.portal[a] ==> Touched(net, l, a, c))
  }

  /** Portal area a is touched by c and two more clusters. */
  ghost predicate Crossed(net: Net, l: Layout, a: nat, c: nat)
    requires net.Valid() && |l.settings| == |net.portal|
  {
    && net.IsArea(a) && net.portal[a] && Touched(net, l, a, c)
    && exists j: nat, k: nat :: Apart(net, l, a, c, j, k)
  }

  ghost predicate Apart(net: Net, l: Layout, a: nat, c: nat, j: nat, k: nat)
    requires net.Valid() && |l.settings| == |net.portal|
  {
    0 < j < c && 0 < k < c && j != k && Touched(net, l, a, j) && Touched(net, l, a, k)
  }

  function Dropped(settings: seq<AreaSettings>, a: nat): seq<AreaSettings>
    requires a < |settings|
  {
    settings[a := settings[a].(contents := settings[a].contents & !AREACONTENTS_CLUSTERPORTAL)]
  }

  /** The tables have their sizes, and the dummy area has no cluster. */
  ghost predicate Sized(l: Layout) {
    && 0 < |l.settings| <= MOST_AREAS && l.settings[0].cluster == 0
    && |l.portals| == AAS_MAX_PORTALS && |l.portalindex| == AAS_MAX_PORTALINDEXSIZE && |l.clusters| == AAS_MAX_CLUSTERS
    && Unused(l.portals[0])
  }

  /** The flood has stopped at a portal with too many clusters, and unmarked it. */
  ghost predicate Stopped(net: Net, l0: Layout, last: Layout, now: Layout, r: seq<Reachability>, c: nat, root: nat)
    requires net.Valid()
  {
    && Flooding(net, last, r, c, root) && Grown(net, l0, last, c)
    && exists a: nat :: IsStop(net, last, now, a, c)
  }

  ghost predicate IsStop(net: Net, last: Layout, now: Layout, a: nat, c: nat)
    requires net.Valid() && |last.settings| == |net.portal|
  {
    Crossed(net, last, a, c) && now == last.(settings := Dropped(last.settings, a))
  }

  /** The flood has gone through. */
  ghost predicate Flooded(net: Net, l0: Layout, l1: Layout, r: seq<Reachability>, c: nat, root: nat)
    requires net.Valid()
  {
    Flooding(net, l1, r, c, root) && Grown(net, l0, l1, c) && NewDone(net, l0, l1, c)
  }

  ghost function Unset(net: Net, settings: seq<AreaSettings>): set<nat>
    requires |settings| == |net.portal|
  {
    set a: nat | a < |settings| && net.Free(a) && settings[a].cluster == 0
  }

  lemma UnsetShrinks(net: Net, l0: Layout, l1: Layout, c: nat)
    requires net.Valid() && c > 0 && Grown(net, l0, l1, c)
    ensures Unset(net, l1.settings) <= Unset(net, l0.settings)
  {
    forall a | a in Unset(net, l1.settings) ensures a in Unset(net, l0.settings) {
      assert AreaGrown(true, l0.settings[a], l1.settings[a], c);
    }
  }

  lemma UnsetColoured(net: Net, l: Layout, a: nat, c: nat)
    requires |l.settings| == |net.portal| && net.Free(a) && l.settings[a].cluster == 0 && 0 < c < |l.clusters|
    ensures Unset(net, Coloured(l, a, c).settings) < Unset(net, l.settings)
  {
    assert a in Unset(net, l.settings) && a !in Unset(net, Coloured(l, a, c).settings);
  }

  /** The first n targets of area a have been dealt with. */
  ghost predicate Reached(net: Net, l: Layout, a: nat, n: nat, c: nat)
    requires net.Valid() && |l.settings| == |net.portal| && l.numportals <= |l.portals|
  {
    net.IsArea(a) && n <= |net.reach[a]| && forall j | 0 <= j < n :: Handled(net, l, net.reach[a][j], c)
  }

  /** Going on with the next target. */
  lemma NextTarget(net: Net, l1: Layout, l: Layout, l2: Layout, r: seq<Reachability>, a: nat, n: nat, c: nat, root: nat)
    requires net.Valid() && Flooded(net, l1, l, r, c, root) && Flooded(net, l, l2, r, c, root)
      && l1.numportals <= |l1.portals|
    requires Reached(net, l, a, n, c) && n < |net.reach[a]| && Handled(net, l2, net.reach[a][n], c)
    ensures Flooded(net, l1, l2, r, c, root) && Reached(net, l2, a, n + 1, c)
  {
    hide Flooding, Grown, NewDone;
    FloodSizes(net, l, r, c, root);
    FloodSizes(net, l2, r, c, root);
    GrownThrough(net, l1, l, l2, c);
    NewDoneThrough(net, l1, l, l2, c);
    forall j | 0 <= j < n + 1 ensures Handled(net, l2, net.reach[a][j], c) {
      if j < n {
        HandledGrown(net, l, l2, net.reach[a][j], c);
      }
    }
  }

  lemma FloodSizes(net: Net, l: Layout, r: seq<Reachability>, c: nat, root: nat)
    requires Flooding(net, l, r, c, root)
    ensures net.Valid() && |l.settings| == |net.portal| && 1 <= l.numportals <= |l.portals| && 0 < c < |l.clusters|
    ensures PortalsOf(net, l.portals, l.numportals) && Fits(net, l.settings, r) && l.portalindexsize <= |l.portalindex|
    ensures Marked(net, l, c) && Rooted(net, l, c, root) && NoEntry(net, l, c) && Sourced(net, l)
  {
  }

  /** Target n of an area of cluster c can be flooded. */
  lemma TargetCalled(net: Net, l: Layout, r: seq<Reachability>, a: nat, n: nat, c: nat, root: nat)
    requires Flooding(net, l, r, c, root) && net.Valid() && |l.settings| == |net.portal|
    requires net.Free(a) && l.settings[a].cluster == c && n < |net.reach[a]| && net.reach[a][n] != 0
    ensures Called(net, l, net.reach[a][n], c, root)
  {
    hide Flooding, Grown, Sourced, PortalsOf, Marked;
    FloodSizes(net, l, r, c, root);
    var t := net.reach[a][n];
    assert net.Reaches(a, t);
    if net.Free(t) {
      net.JoinedNext(root, a, t);
      assert NoneInto(net, l, a, c);
    } else {
      assert Source(net, l, a, t, c);
    }
  }

  lemma FloodedColoured(net: Net, l0: Layout, a: nat, l2: Layout, r: seq<Reachability>, c: nat, root: nat)
    requires Flooding(net, l0, r, c, root) && net.Valid() && |l0.settings| == |net.portal| && c < |l0.clusters|
    requires net.Free(a) && l0.settings[a].cluster == 0 && net.Joined(root, a)
    requires Flooded(net, Coloured(l0, a, c), l2, r, c, root)
    requires |l2.settings| == |net.portal| && l2.numportals <= |l2.portals| && Reached(net, l2, a, |net.reach[a]|, c)
    ensures Flooded(net, l0, l2, r, c, root) && l2.settings[a].cluster == c
  {
    hide Flooding, Grown, NewDone, Handled;
    FloodSizes(net, l0, r, c, root);
    ColouredOk(net, l0, r, a, c, root);
    GrownThrough(net, l0, Coloured(l0, a, c), l2, c);
    forall t: nat | net.Reaches(a, t) ensures Handled(net, l2, t, c) {
      var j :| 0 <= j < |net.reach[a]| && net.reach[a][j] == t;
    }
    NewDoneColoured(net, l0, a, l2, c);
    StaysColoured(net, Coloured(l0, a, c), l2, a, c);
  }

  lemma StaysColoured(net: Net, l0: Layout, l1: Layout, a: nat, c: nat)
    requires net.Valid() && c > 0 && Grown(net, l0, l1, c) && net.Free(a) && l0.settings[a].cluster == c
    ensures l1.settings[a].cluster == c
  {
    assert AreaGrown(true, l0.settings[a], l1.settings[a], c);
  }

  lemma StoppedBefore(net: Net, l0: Layout, l1: Layout, last: Layout, now: Layout, r: seq<Reachability>, c: nat,
                      root: nat)
    requires net.Valid() && c > 0 && Grown(net, l0, l1, c) && Stopped(net, l1, last, now, r, c, root)
    ensures Stopped(net, l0, last, now, r, c, root)
  {
    hide Flooding, Grown, IsStop;
    GrownThrough(net, l0, l1, last, c);
  }

  lemma FloodedSelf(net: Net, l: Layout, r: seq<Reachability>, c: nat, root: nat)
    requires Flooding(net, l, r, c, root)
    ensures net.Valid() && Flooded(net, l, l, r, c, root)
  {
  }

  /** The cluster is recorded at a portal. */
  lemma FloodedBordered(net: Net, l: Layout, r: seq<Reachability>, p: nat, c: nat, root: nat)
    requires Flooding(net, l, r, c, root) && 0 < p < l.numportals <= |l.portals|
    requires !HasSide(l.portals[p], c) && (l.portals[p].frontcluster == 0 || l.portals[p].backcluster == 0)
    requires net.Valid() && |l.settings| == |net.portal| && l.portals[p].areanum < |l.settings|
    requires net.portal[l.portals[p].areanum] && Touched(net, l, l.portals[p].areanum, c)
    ensures l.portalindexsize < |l.portalindex| && End(l, c) == l.portalindexsize
    ensures Flooded(net, l, Bordered(l, p, c), r, c, root) && Handled(net, Bordered(l, p, c), l.portals[p].areanum, c)
  {
    hide Flooding, Grown, Done;
    assert End(l, c) == l.portalindexsize && c > 0 by { FloodEnd(net, l, r, c, root); }
    BorderedOk(net, l, r, p, c, root);
    assert IsBorder(Bordered(l, p, c), p, l.portals[p].areanum, c);
  }

  lemma FloodEnd(net: Net, l: Layout, r: seq<Reachability>, c: nat, root: nat)
    requires Flooding(net, l, r, c, root)
    ensures 0 < c == l.numclusters < |l.clusters| && End(l, c) == l.portalindexsize
  {
  }

  /** A portal with two other clusters already. */
  lemma CrossedPortal(net: Net, l: Layout, r: seq<Reachability>, p: nat, c: nat, root: nat)
    requires Flooding(net, l, r, c, root) && 0 < p < l.numportals <= |l.portals|
    requires !HasSide(l.portals[p], c) && l.portals[p].frontcluster != 0 && l.portals[p].backcluster != 0
    requires net.Valid() && |l.settings| == |net.portal| && Touched(net, l, l.portals[p].areanum, c)
    requires net.IsArea(l.portals[p].areanum) && net.portal[l.portals[p].areanum]
    ensures Crossed(net, l, l.portals[p].areanum, c)
  {
    hide Shape, Fits, NoEntry, Rooted, Slice, Touched;
    assert MarkedPortal(l, p, c);
    var q := l.portals[p];
    assert Touched(net, l, q.areanum, q.frontcluster) && Touched(net, l, q.areanum, q.backcluster);
    assert Apart(net, l, q.areanum, c, q.frontcluster, q.backcluster);
  }

  // ----- steps of the methods

  ghost predicate AreaFits(net: Net, l: Layout, r: seq<Reachability>, a: nat, c: nat)
    requires net.Valid() && |l.settings| == |net.portal|
  {
    && net.IsArea(a) && IsFit(net, l.settings[a], r, a)
    && (net.portal[a] ==> l.settings[a].cluster <= 0) && (net.Free(a) ==> l.settings[a].cluster >= 0)
  }

  lemma FlagIsPortal(net: Net, l: Layout, r: seq<Reachability>, a: nat, c: nat, root: nat)
    requires Flooding(net, l, r, c, root) && net.Valid() && |l.settings| == |net.portal| && net.IsArea(a)
    ensures AreaFits(net, l, r, a, c)
  {
    if net.portal[a] {
      assert HasRecord(l.portals, l.numportals, a);
      var p: nat :| IsRecord(l.portals, l.numportals, p, a);
      assert MarkedPortal(l, p, c);
    }
  }

  lemma RecordOf(net: Net, portals: seq<Portal>, n: nat, a: nat)
    requires net.Valid() && PortalsOf(net, portals, n) && net.IsArea(a) && net.portal[a]
    ensures exists p :: 0 < p < n && portals[p].areanum == a
  {
    assert HasRecord(portals, n, a);
  }

  lemma IndexSize(net: Net, l: Layout, r: seq<Reachability>, c: nat, root: nat)
    requires Flooding(net, l, r, c, root)
    ensures |l.portalindex| == AAS_MAX_PORTALINDEXSIZE
  {
  }

  lemma Stop(net: Net, l: Layout, now: Layout, r: seq<Reachability>, a: nat, c: nat, root: nat)
    requires Flooding(net, l, r, c, root) && net.Valid() && |l.settings| == |net.portal| && a < |l.settings|
    requires Crossed(net, l, a, c) && now == l.(settings := Dropped(l.settings, a))
    ensures Stopped(net, l, l, now, r, c, root)
  {
    hide Flooding, Crossed, Grown;
    FloodSizes(net, l, r, c, root);
    GrownSelf(net, l, c);
    assert IsStop(net, l, now, a, c);
  }

  lemma FloodedIs(net: Net, l0: Layout, l1: Layout, r: seq<Reachability>, c: nat, root: nat)
    requires net.Valid() && Flooded(net, l0, l1, r, c, root)
    ensures Flooding(net, l1, r, c, root) && Grown(net, l0, l1, c)
  {
  }

  lemma FloodedArea(net: Net, l0: Layout, l1: Layout, r: seq<Reachability>, a: nat, c: nat, root: nat)
    requires net.Valid() && Flooded(net, l0, l1, r, c, root) && net.Free(a) && a < |l0.settings| == |l1.settings|
      && l0.settings[a].cluster == c
    ensures l1.settings[a].cluster == c
    ensures l1.settings[a].numreachableareas == l0.settings[a].numreachableareas
    ensures l1.settings[a].firstreachablearea == l0.settings[a].firstreachablearea
  {
    assert AreaGrown(true, l0.settings[a], l1.settings[a], c);
  }

  /** Everything in the cluster is done. */
  ghost predicate Closing(net: Net, l0: Layout, l: Layout, r: seq<Reachability>, c: nat, root: nat)
    requires net.Valid()
  {
    Flooding(net, l, r, c, root) && Grown(net, l0, l, c) && AllDone(net, l, c)
  }

  ghost predicate Quiet(net: Net, l: Layout, x: nat)
    requires net.Valid() && |l.settings| == |net.portal|
  {
    net.Free(x) && l.settings[x].cluster == 0 ==> NoneInto(net, l, x, 0)
  }

  lemma AllQuiet(net: Net, l: Layout)
    requires net.Valid() && |l.settings| == |net.portal|
    requires forall x: nat | x < |l.settings| :: Quiet(net, l, x)
    ensures NoEntry(net, l, 0)
  {
    forall x: nat | net.Free(x) && l.settings[x].cluster == 0 ensures NoneInto(net, l, x, 0) {
      assert Quiet(net, l, x);
    }
  }

  lemma ClosingSelf(net: Net, l: Layout, r: seq<Reachability>, c: nat, root: nat)
    requires Flooding(net, l, r, c, root) && net.Valid() && |l.settings| == |net.portal| && l.numportals <= |l.portals|
      && AllDone(net, l, c)
    ensures Closing(net, l, l, r, c, root) && (forall x: nat | x < 1 :: Quiet(net, l, x))
  {
    hide Flooding, Grown, AllDone;
    FloodSizes(net, l, r, c, root);
    GrownSelf(net, l, c);
  }

  lemma ClosingIs(net: Net, l0: Layout, l: Layout, r: seq<Reachability>, c: nat, root: nat)
    requires net.Valid() && Closing(net, l0, l, r, c, root)
    ensures Flooding(net, l, r, c, root) && Grown(net, l0, l, c) && l.settings != [] && l.settings[0].cluster == 0
      && c > 0
    ensures |l.settings| == |net.portal| && l.numportals <= |l.portals| && AllDone(net, l, c)
  {
  }

  lemma ClosingThrough(net: Net, l0: Layout, l1: Layout, l2: Layout, r: seq<Reachability>, c: nat, root: nat)
    requires net.Valid() && Closing(net, l0, l1, r, c, root) && Flooded(net, l1, l2, r, c, root)
    ensures Closing(net, l0, l2, r, c, root)
  {
    hide Flooding, Grown, AllDone, NewDone;
    ClosingIs(net, l0, l1, r, c, root);
    FloodSizes(net, l2, r, c, root);
    GrownThrough(net, l0, l1, l2, c);
    AllDoneThrough(net, l1, l2, c);
  }

  lemma UnsetOf(net: Net, l0: Layout, l1: Layout, r: seq<Reachability>, a: nat, c: nat, root: nat)
    requires net.Valid() && Flooded(net, l0, l1, r, c, root) && net.Free(a)
      && |l0.settings| == |l1.settings| == |net.portal|
    requires l1.numportals <= |l1.portals| && Handled(net, l1, a, c) && l0.settings[a].cluster == 0
    ensures Unset(net, l1.settings) < Unset(net, l0.settings)
  {
    UnsetShrinks(net, l0, l1, c);
    assert a in Unset(net, l0.settings) && a !in Unset(net, l1.settings);
  }

  /** An area that reaches the cluster hangs together with its root. */
  lemma BackCalled(net: Net, l: Layout, r: seq<Reachability>, a: nat, c: nat, root: nat)
    requires Flooding(net, l, r, c, root) && net.Valid() && |l.settings| == |net.portal|
    requires net.Free(a) && l.settings[a].cluster == 0
    requires exists t: nat :: net.Reaches(a, t) && net.Free(t) && l.settings[t].cluster != 0
    ensures Called(net, l, a, c, root)
  {
    hide Flooding;
    FloodSizes(net, l, r, c, root);
    var t: nat :| net.Reaches(a, t) && net.Free(t) && l.settings[t].cluster != 0;
    assert NoneInto(net, l, a, c);
    net.JoinedNext(root, t, a);
  }
}
