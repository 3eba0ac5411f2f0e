/** The records the clustering code fills in, what each of its steps keeps, and what they amount to. */
module ClusterLayout {
  import opened AasFile
  import opened ClusterNet

  const AAS_MAX_PORTALS: nat := 65536
  const AAS_MAX_PORTALINDEXSIZE: nat := 65536
  const AAS_MAX_CLUSTERS: nat := 65536
  /** Up to this many areas none of the tables can run full. */
  const MOST_AREAS: nat := 32767

  datatype Layout = Layout(
    settings: seq<AreaSettings>, portals: seq<Portal>, numportals: nat,
    portalindex: seq<nat>, portalindexsize: nat, clusters: seq<Cluster>, numclusters: nat)

  // ----- portal records

  predicate HasSide(q: Portal, k: nat) { q.frontcluster == k || q.backcluster == k }

  /** Record 0 stands for no portal. */
  predicate Unused(q: Portal) { q.areanum == 0 && q.frontcluster == 0 && q.backcluster == 0 }

  /** The portal records: one for every portal area, in the order of the areas. */
  ghost predicate PortalsOf(net: Net, portals: seq<Portal>, n: nat)
    requires net.Valid()
  {
    && 1 <= n <= |portals| == AAS_MAX_PORTALS && n <= |net.portal| && Unused(portals[0])
    && (forall p | 0 < p < n :: net.IsArea(portals[p].areanum) && net.portal[portals[p].areanum])
    && (forall p, q | 0 < p < q < n :: portals[p].areanum < portals[q].areanum)
    && (forall a: nat | net.IsArea(a) && net.portal[a] :: HasRecord(portals, n, a))
  }

  ghost predicate IsRecord(portals: seq<Portal>, n: nat, p: nat, a: nat)
    requires n <= |portals|
  {
    0 < p < n && portals[p].areanum == a
  }

  ghost predicate HasRecord(portals: seq<Portal>, n: nat, a: nat)
    requires n <= |portals|
  {
    exists p: nat :: IsRecord(portals, n, p, a)
  }

  ghost predicate Shape(net: Net, l: Layout, r: seq<Reachability>) {
    && Fits(net, l.settings, r) && |l.settings| <= MOST_AREAS && l.settings[0].cluster == 0
    && PortalsOf(net, l.portals, l.numportals)
    && |l.portalindex| == AAS_MAX_PORTALINDEXSIZE && |l.clusters| == AAS_MAX_CLUSTERS
    && 1 <= l.numclusters
  }

  /** Cluster numbers of free areas go up to c; a portal area has number -p once portal p has a cluster. */
  ghost predicate Marked(net: Net, l: Layout, c: nat)
    requires net.Valid() && |l.settings| == |net.portal| && PortalsOf(net, l.portals, l.numportals)
  {
    && (forall a: nat | net.Free(a) :: 0 <= l.settings[a].cluster <= c)
    && (forall p: nat | 0 < p < l.numportals :: MarkedPortal(l, p, c))
  }

  ghost predicate MarkedPortal(l: Layout, p: nat, c: nat)
    requires p < |l.portals| && l.portals[p].areanum < |l.settings|
  {
    var q := l.portals[p];
    && q.frontcluster <= c && q.backcluster <= c
    && (q.backcluster != 0 ==> q.frontcluster != 0 && q.frontcluster != q.backcluster)
    && l.settings[q.areanum].cluster == if q.frontcluster == 0 then 0 else 0 - p
  }

  /** x is a free area of cluster k with a reachability to t. */
  ghost predicate Source(net: Net, l: Layout, x: nat, t: nat, k: nat)
    requires net.Valid() && |l.settings| == |net.portal|
  {
    net.Free(x) && l.settings[x].cluster == k && net.Reaches(x, t)
  }

  ghost predicate Touched(net: Net, l: Layout, t: nat, k: nat)
    requires net.Valid() && |l.settings| == |net.portal|
  {
    exists x: nat :: Source(net, l, x, t, k)
  }

  /** Every cluster a portal has touches it. */
  ghost predicate Sourced(net: Net, l: Layout)
    requires net.Valid() && |l.settings| == |net.portal| && PortalsOf(net, l.portals, l.numportals)
  {
    forall p: nat, k: nat | 0 < p < l.numportals && 0 < k && HasSide(l.portals[p], k) ::
      Touched(net, l, l.portals[p].areanum, k)
  }

  /** The slice of the portal index of cluster k: its portals, each once. */
  ghost predicate Slice(l: Layout, k: nat)
    requires k < |l.clusters| && l.numportals <= |l.portals|
  {
    var first, n := l.clusters[k].firstportal, l.clusters[k].numportals;
    && first + n <= |l.portalindex|
    && (forall i | first <= i < first + n ::
      0 < l.portalindex[i] < l.numportals && HasSide(l.portals[l.portalindex[i]], k))
    && (forall i, j | first <= i < j < first + n :: l.portalindex[i] != l.portalindex[j])
    && (forall p: nat | 0 < p < l.numportals && HasSide(l.portals[p], k) :: InSlice(l, k, p))
  }

  ghost predicate InSlice(l: Layout, k: nat, p: nat)
    requires k < |l.clusters| && l.clusters[k].firstportal + l.clusters[k].numportals <= |l.portalindex|
  {
    exists i ::
      l.clusters[k].firstportal <= i < l.clusters[k].firstportal + l.clusters[k].numportals && l.portalindex[i] == p
  }

  /** Clusters the portals up to n have, counted with repetition. */
  ghost function Sides(portals: seq<Portal>, n: nat): (sum: nat)
    requires n <= |portals|
    ensures sum <= 2 * n
  {
    if n <= 1 then 0
    else
      Sides(portals, n - 1)
      + (if portals[n - 1].frontcluster == 0 then 0 else 1) + (if portals[n - 1].backcluster == 0 then 0 else 1)
  }

  ghost predicate Counted(l: Layout)
    requires l.numportals <= |l.portals|
  {
    l.portalindexsize == Sides(l.portals, l.numportals) <= |l.portalindex|
  }

  /** Everything in cluster c hangs together with the area it was started from. */
  ghost predicate Rooted(net: Net, l: Layout, c: nat, root: nat)
    requires net.Valid() && |l.settings| == |net.portal|
  {
    forall x: nat | net.Free(x) && l.settings[x].cluster == c :: net.Joined(root, x)
  }

  /** A free area without cluster, or of cluster c, has no reachability into another cluster. */
  ghost predicate NoEntry(net: Net, l: Layout, c: nat)
    requires net.Valid() && |l.settings| == |net.portal|
  {
    forall x: nat | net.Free(x) && (l.settings[x].cluster == 0 || l.settings[x].cluster == c) :: NoneInto(net, l, x, c)
  }

  ghost predicate NoneInto(net: Net, l: Layout, x: nat, c: nat)
    requires net.Valid() && |l.settings| == |net.portal|
  {
    forall t: nat | net.Reaches(x, t) && net.Free(t) :: l.settings[t].cluster == 0 || l.settings[t].cluster == c
  }

  /** What holds while cluster c is being flooded from area `root`. */
  ghost predicate Flooding(net: Net, l: Layout, r: seq<Reachability>, c: nat, root: nat) {
    && Shape(net, l, r) && 0 < c == l.numclusters < |l.clusters|
    && Marked(net, l, c) && Sourced(net, l)
    && Slice(l, c) && l.clusters[c].firstportal + l.clusters[c].numportals == l.portalindexsize && Counted(l)
    && Rooted(net, l, c, root) && NoEntry(net, l, c)
  }

  /** The layout with area a added to cluster c. */
  ghost function Coloured(l: Layout, a: nat, c: nat): Layout
    requires a < |l.settings| && c < |l.clusters|
  {
    l.(settings := l.settings[a := l.settings[a].(cluster := c, clusterareanum := l.clusters[c].numareas)],
       clusters := l.clusters[c := l.clusters[c].(numareas := l.clusters[c].numareas + 1)])
  }

  function WithSide(q: Portal, c: nat): Portal {
    if q.frontcluster == 0 then q.(frontcluster := c) else q.(backcluster := c)
  }

  /** The layout with cluster c recorded as the next cluster of portal p. */
  ghost function Bordered(l: Layout, p: nat, c: nat): Layout
    requires p < |l.portals| && c < |l.clusters| && l.portals[p].areanum < |l.settings|
    requires l.clusters[c].firstportal + l.clusters[c].numportals < |l.portalindex|
  {
    var a := l.portals[p].areanum;
    l.(settings := l.settings[a := l.settings[a].(cluster := 0 - p)],
       portals := l.portals[p := WithSide(l.portals[p], c)],
       portalindex := l.portalindex[l.clusters[c].firstportal + l.clusters[c].numportals := p],
       portalindexsize := l.portalindexsize + 1,
       clusters := l.clusters[c := l.clusters[c].(numportals := l.clusters[c].numportals + 1)])
  }

  // ----- what flooding cluster c leaves alone

  ghost predicate AreaGrown(free: bool, s0: AreaSettings, s1: AreaSettings, c: nat) {
    || s1 == s0
    || (free && s0.cluster == 0 && s1 == s0.(cluster := c, clusterareanum := s1.clusterareanum))
    || (!free && s1 == s0.(cluster := s1.cluster))
  }

  ghost predicate PortalGrown(q0: Portal, q1: Portal, c: nat) {
    || q1 == q0
    || (q1 == WithSide(q0, c) && (q0.frontcluster == 0 || q0.backcluster == 0) && !HasSide(q0, c))
  }

  /** Areas join cluster c, portals get it as another cluster, its slice of the index grows; nothing else changes. */
  ghost predicate Grown(net: Net, l0: Layout, l1: Layout, c: nat)
    requires net.Valid()
  {
    && |l0.settings| == |l1.settings| == |net.portal| && |l0.portals| == |l1.portals| && l0.numportals == l1.numportals
    && |l0.clusters| == |l1.clusters| && l0.numclusters == l1.numclusters
    && |l0.portalindex| == |l1.portalindex| && l0.portalindexsize <= l1.portalindexsize <= |l0.portalindex|
    && (forall a: nat | a < |l0.settings| :: AreaGrown(net.Free(a), l0.settings[a], l1.settings[a], c))
    && l0.settings[0].cluster == l1.settings[0].cluster
    && (forall p: nat | p < |l0.portals| :: PortalGrown(l0.portals[p], l1.portals[p], c))
    && (|l0.portals| > 0 ==> l1.portals[0] == l0.portals[0])
    && (forall i | 0 <= i < l0.portalindexsize :: l1.portalindex[i] == l0.portalindex[i])
    && (forall k | 0 <= k < |l0.clusters| && k != c :: l1.clusters[k] == l0.clusters[k])
    && (c < |l0.clusters| ==> l1.clusters[c].firstportal == l0.clusters[c].firstportal)
  }

  lemma GrownSelf(net: Net, l: Layout, c: nat)
    requires net.Valid() && |l.settings| == |net.portal| && l.portalindexsize <= |l.portalindex|
    ensures Grown(net, l, l, c)
  {
  }

  lemma GrownThrough(net: Net, l0: Layout, l1: Layout, l2: Layout, c: nat)
    requires net.Valid() && c > 0 && Grown(net, l0, l1, c) && Grown(net, l1, l2, c)
    ensures Grown(net, l0, l2, c)
  {
  }

  lemma GrownShape(net: Net, l0: Layout, l1: Layout, r: seq<Reachability>, c: nat)
    requires Shape(net, l0, r) && Grown(net, l0, l1, c)
    ensures Shape(net, l1, r)
  {
    forall a | 0 <= a < |l1.settings| ensures IsFit(net, l1.settings[a], r, a) {
      assert IsFit(net, l0.settings[a], r, a) && AreaGrown(net.Free(a), l0.settings[a], l1.settings[a], c);
    }
    GrownRecords(net, l0, l1, c);
    SameRecords(net, l0.portals, l1.portals, l0.numportals);
  }

  lemma SameRecords(net: Net, p0: seq<Portal>, p1: seq<Portal>, n: nat)
    requires net.Valid() && PortalsOf(net, p0, n) && |p0| == |p1|
    requires forall p | 0 <= p < |p0| :: p1[p].areanum == p0[p].areanum
    requires Unused(p0[0]) ==> Unused(p1[0])
    ensures PortalsOf(net, p1, n)
  {
    forall a: nat | net.IsArea(a) && net.portal[a] ensures HasRecord(p1, n, a) {
      assert HasRecord(p0, n, a);
      var p: nat :| IsRecord(p0, n, p, a);
      assert IsRecord(p1, n, p, a);
    }
  }

  lemma GrownRecords(net: Net, l0: Layout, l1: Layout, c: nat)
    requires net.Valid() && Grown(net, l0, l1, c)
    ensures forall p | 0 <= p < |l0.portals| :: l1.portals[p].areanum == l0.portals[p].areanum
  {
    forall p: nat | p < |l0.portals| ensures l1.portals[p].areanum == l0.portals[p].areanum {
      assert PortalGrown(l0.portals[p], l1.portals[p], c);
    }
  }

  lemma GrownNoEntry(net: Net, l0: Layout, l1: Layout, c: nat)
    requires net.Valid() && Grown(net, l0, l1, c) && NoEntry(net, l0, c)
    ensures NoEntry(net, l1, c)
  {
    forall x: nat | net.Free(x) && (l1.settings[x].cluster == 0 || l1.settings[x].cluster == c)
      ensures NoneInto(net, l1, x, c)
    {
      assert AreaGrown(true, l0.settings[x], l1.settings[x], c);
      assert NoneInto(net, l0, x, c);
    }
  }

  /** Different portals have different areas. */
  lemma RecordsDiffer(net: Net, l: Layout, p: nat, q: nat)
    requires net.Valid() && PortalsOf(net, l.portals, l.numportals)
    requires 0 < p < l.numportals && 0 < q < l.numportals && p != q
    ensures l.portals[p].areanum != l.portals[q].areanum
  {
  }

  // ----- adding an area to the cluster

  lemma ColouredGrown(net: Net, l: Layout, a: nat, c: nat)
    requires net.Valid() && |l.settings| == |net.portal| && l.portalindexsize <= |l.portalindex|
    requires net.Free(a) && l.settings[a].cluster == 0 && c < |l.clusters|
    ensures Grown(net, l, Coloured(l, a, c), c)
  {
  }

  lemma ColouredMarked(net: Net, l: Layout, a: nat, c: nat)
    requires net.Valid() && |l.settings| == |net.portal| && PortalsOf(net, l.portals, l.numportals) && Marked(net, l, c)
    requires net.Free(a) && c < |l.clusters|
    ensures Marked(net, Coloured(l, a, c), c)
  {
    forall p: nat | 0 < p < l.numportals ensures MarkedPortal(Coloured(l, a, c), p, c) {
      assert MarkedPortal(l, p, c);
    }
  }

  lemma ColouredSourced(net: Net, l: Layout, a: nat, c: nat)
    requires net.Valid() && |l.settings| == |net.portal| && PortalsOf(net, l.portals, l.numportals) && Sourced(net, l)
    requires net.Free(a) && l.settings[a].cluster == 0 && c < |l.clusters|
    ensures Sourced(net, Coloured(l, a, c))
  {
    var l1 := Coloured(l, a, c);
    forall p: nat, k: nat | 0 < p < l.numportals && 0 < k && HasSide(l.portals[p], k)
      ensures Touched(net, l1, l.portals[p].areanum, k)
    {
      assert Touched(net, l, l.portals[p].areanum, k);
      var x: nat :| Source(net, l, x, l.portals[p].areanum, k);
      assert Source(net, l1, x, l.portals[p].areanum, k);
    }
  }

  lemma ColouredSlice(l: Layout, a: nat, c: nat)
    requires a < |l.settings| && c < |l.clusters| && l.numportals <= |l.portals| && Slice(l, c)
    ensures Slice(Coloured(l, a, c), c)
  {
    var l1 := Coloured(l, a, c);
    forall p: nat | 0 < p < l.numportals && HasSide(l.portals[p], c) ensures InSlice(l1, c, p) {
      assert InSlice(l, c, p);
    }
  }

  lemma ColouredRooted(net: Net, l: Layout, a: nat, c: nat, root: nat)
    requires net.Valid() && |l.settings| == |net.portal| && Rooted(net, l, c, root)
    requires a < |l.settings| && c < |l.clusters| && net.Joined(root, a)
    ensures Rooted(net, Coloured(l, a, c), c, root)
  {
  }

  lemma ColouredOk(net: Net, l: Layout, r: seq<Reachability>, a: nat, c: nat, root: nat)
    requires Flooding(net, l, r, c, root)
    requires net.Free(a) && l.settings[a].cluster == 0 && net.Joined(root, a)
    ensures Flooding(net, Coloured(l, a, c), r, c, root) && Grown(net, l, Coloured(l, a, c), c)
  {
    hide Grown, Shape, Marked, Sourced, Slice, Rooted, NoEntry, Fits;
    assert Fits(net, l.settings, r) && l.portalindexsize <= |l.portalindex| by { Sizes(net, l, r); }
    assert |l.settings| == |net.portal| && PortalsOf(net, l.portals, l.numportals) by { Sizes(net, l, r); }
    ColouredGrown(net, l, a, c);
    GrownShape(net, l, Coloured(l, a, c), r, c);
    ColouredMarked(net, l, a, c);
    ColouredSourced(net, l, a, c);
    ColouredSlice(l, a, c);
    ColouredRooted(net, l, a, c, root);
    GrownNoEntry(net, l, Coloured(l, a, c), c);
  }

  lemma Sizes(net: Net, l: Layout, r: seq<Reachability>)
    requires Shape(net, l, r) && Counted(l)
    ensures Fits(net, l.settings, r) && net.Valid() && |l.settings| == |net.portal|
      && PortalsOf(net, l.portals, l.numportals)
    ensures l.portalindexsize <= |l.portalindex|
  {
  }

  // ----- recording the cluster at a portal

  /** The index never runs full: a portal is in it twice at most. */
  lemma {:induction false} SidesBound(portals: seq<Portal>, n: nat)
    requires 0 < n <= |portals|
    ensures Sides(portals, n) <= 2 * (n - 1)
  {
    if n > 1 { SidesBound(portals, n - 1); }
  }

  lemma {:induction false} SidesBordered(portals: seq<Portal>, n: nat, p: nat, c: nat)
    requires n <= |portals| && 0 < p < |portals| && c > 0
      && (portals[p].frontcluster == 0 || portals[p].backcluster == 0)
    ensures Sides(portals[p := WithSide(portals[p], c)], n) == Sides(portals, n) + (if p < n then 1 else 0)
  {
    if n > 1 { SidesBordered(portals, n - 1, p, c); }
  }

  lemma BorderedGrown(net: Net, l: Layout, p: nat, c: nat)
    requires net.Valid() && |l.settings| == |net.portal| && PortalsOf(net, l.portals, l.numportals)
      && 0 < p < l.numportals && c < |l.clusters|
    requires l.clusters[c].firstportal + l.clusters[c].numportals == l.portalindexsize < |l.portalindex|
    requires !HasSide(l.portals[p], c) && (l.portals[p].frontcluster == 0 || l.portals[p].backcluster == 0)
    ensures Grown(net, l, Bordered(l, p, c), c)
  {
  }

  lemma BorderedMarked(net: Net, l: Layout, p: nat, c: nat)
    requires net.Valid() && |l.settings| == |net.portal| && PortalsOf(net, l.portals, l.numportals) && Marked(net, l, c)
    requires 0 < p < l.numportals && 0 < c < |l.clusters|
    requires l.clusters[c].firstportal + l.clusters[c].numportals < |l.portalindex|
    requires !HasSide(l.portals[p], c) && (l.portals[p].frontcluster == 0 || l.portals[p].backcluster == 0)
    ensures PortalsOf(net, Bordered(l, p, c).portals, l.numportals) && Marked(net, Bordered(l, p, c), c)
  {
    var l1 := Bordered(l, p, c);
    forall q: nat | 0 < q < l.numportals ensures MarkedPortal(l1, q, c) {
      assert MarkedPortal(l, q, c);
    }
    SameRecords(net, l.portals, l1.portals, l.numportals);
  }

  lemma BorderedSourced(net: Net, l: Layout, p: nat, c: nat)
    requires net.Valid() && |l.settings| == |net.portal| && PortalsOf(net, l.portals, l.numportals) && Sourced(net, l)
    requires 0 < p < l.numportals && c < |l.clusters|
    requires l.clusters[c].firstportal + l.clusters[c].numportals < |l.portalindex|
    requires PortalsOf(net, Bordered(l, p, c).portals, l.numportals) && Touched(net, l, l.portals[p].areanum, c)
    ensures Sourced(net, Bordered(l, p, c))
  {
    var l1 := Bordered(l, p, c);
    forall q: nat, k: nat | 0 < q < l.numportals && 0 < k && HasSide(l1.portals[q], k)
      ensures Touched(net, l1, l.portals[q].areanum, k)
    {
      assert Touched(net, l, l.portals[q].areanum, k);
      var x: nat :| Source(net, l, x, l.portals[q].areanum, k);
      assert Source(net, l1, x, l.portals[q].areanum, k);
    }
  }

  lemma BorderedSlice(l: Layout, p: nat, c: nat)
    requires l.numportals <= |l.portals| && 0 < p < l.numportals && 0 < c < |l.clusters|
      && l.portals[p].areanum < |l.settings|
    requires Slice(l, c) && l.clusters[c].firstportal + l.clusters[c].numportals < |l.portalindex|
    requires !HasSide(l.portals[p], c)
    ensures Slice(Bordered(l, p, c), c)
  {
    var l1 := Bordered(l, p, c);
    var first, n := l.clusters[c].firstportal, l.clusters[c].numportals;
    forall q: nat | 0 < q < l.numportals && HasSide(l1.portals[q], c) ensures InSlice(l1, c, q) {
      if q == p {
        assert l1.portalindex[first + n] == p;
      } else {
        assert InSlice(l, c, q);
        var i :| first <= i < first + n && l.portalindex[i] == q;
        assert l1.portalindex[i] == q;
      }
    }
  }

  lemma BorderedRooted(net: Net, l: Layout, p: nat, c: nat, root: nat)
    requires net.Valid() && |l.settings| == |net.portal| && PortalsOf(net, l.portals, l.numportals)
      && Rooted(net, l, c, root)
    requires 0 < p < l.numportals && c < |l.clusters|
    requires l.clusters[c].firstportal + l.clusters[c].numportals < |l.portalindex|
    ensures Rooted(net, Bordered(l, p, c), c, root)
  {
  }

  lemma BorderedOk(net: Net, l: Layout, r: seq<Reachability>, p: nat, c: nat, root: nat)
    requires Flooding(net, l, r, c, root) && 0 < p < l.numportals
    requires !HasSide(l.portals[p], c) && (l.portals[p].frontcluster == 0 || l.portals[p].backcluster == 0)
    requires l.portals[p].areanum < |l.settings| && Touched(net, l, l.portals[p].areanum, c)
    ensures l.portalindexsize < |l.portalindex|
    ensures Flooding(net, Bordered(l, p, c), r, c, root) && Grown(net, l, Bordered(l, p, c), c)
    ensures HasSide(Bordered(l, p, c).portals[p], c)
  {
    hide Grown, Shape, Marked, Sourced, Slice, Rooted, NoEntry, Fits, PortalsOf, Sides, Touched;
    Sizes(net, l, r);
    assert l.portalindexsize < |l.portalindex| by { Room(net, l, r); }
    BorderedGrown(net, l, p, c);
    GrownShape(net, l, Bordered(l, p, c), r, c);
    BorderedMarked(net, l, p, c);
    BorderedSourced(net, l, p, c);
    BorderedSlice(l, p, c);
    SidesBordered(l.portals, l.numportals, p, c);
    BorderedRooted(net, l, p, c, root);
    GrownNoEntry(net, l, Bordered(l, p, c), c);
  }

  lemma Room(net: Net, l: Layout, r: seq<Reachability>)
    requires Shape(net, l, r) && Counted(l)
    ensures l.portalindexsize < |l.portalindex|
  {
    SidesBound(l.portals, l.numportals);
  }

  // ----- what a finished flood has dealt with

  /** Area t belongs to cluster c, or is a portal that has it. */
  ghost predicate Handled(net: Net, l: Layout, t: nat, c: nat)
    requires |l.settings| == |net.portal| && l.numportals <= |l.portals|
  {
    && (net.Free(t) ==> l.settings[t].cluster == c)
    && (net.IsArea(t) && net.portal[t] ==> Borders(l, t, c))
  }

  ghost predicate IsBorder(l: Layout, p: nat, t: nat, c: nat)
    requires l.numportals <= |l.portals|
  {
    IsRecord(l.portals, l.numportals, p, t) && HasSide(l.portals[p], c)
  }

  ghost predicate Borders(l: Layout, t: nat, c: nat)
    requires l.numportals <= |l.portals|
  {
    exists p: nat :: IsBorder(l, p, t, c)
  }

  ghost predicate Done(net: Net, l: Layout, x: nat, c: nat)
    requires net.Valid() && |l.settings| == |net.portal| && l.numportals <= |l.portals|
  {
    forall t: nat | net.Reaches(x, t) :: Handled(net, l, t, c)
  }

  /** Every area that has joined cluster c since l0 is done. */
  ghost predicate NewDone(net: Net, l0: Layout, l1: Layout, c: nat)
    requires net.Valid() && |l0.settings| == |l1.settings| == |net.portal| && l1.numportals <= |l1.portals|
  {
    forall x: nat | net.Free(x) && l0.settings[x].cluster == 0 && l1.settings[x].cluster == c :: Done(net, l1, x, c)
  }

  ghost predicate AllDone(net: Net, l: Layout, c: nat)
    requires net.Valid() && |l.settings| == |net.portal| && l.numportals <= |l.portals|
  {
    forall x: nat | net.Free(x) && l.settings[x].cluster == c :: Done(net, l, x, c)
  }

  lemma HandledGrown(net: Net, l0: Layout, l1: Layout, t: nat, c: nat)
    requires net.Valid() && c > 0 && Grown(net, l0, l1, c) && l0.numportals <= |l0.portals| && Handled(net, l0, t, c)
    ensures Handled(net, l1, t, c)
  {
    if net.IsArea(t) {
      assert AreaGrown(net.Free(t), l0.settings[t], l1.settings[t], c);
      if net.portal[t] {
        var p: nat :| IsBorder(l0, p, t, c);
        assert PortalGrown(l0.portals[p], l1.portals[p], c);
        assert IsBorder(l1, p, t, c);
      }
    }
  }

  lemma DoneGrown(net: Net, l0: Layout, l1: Layout, x: nat, c: nat)
    requires net.Valid() && c > 0 && Grown(net, l0, l1, c) && l0.numportals <= |l0.portals| && Done(net, l0, x, c)
    ensures Done(net, l1, x, c)
  {
    forall t: nat | net.Reaches(x, t) ensures Handled(net, l1, t, c) {
      HandledGrown(net, l0, l1, t, c);
    }
  }

  /** Two floods after each other. */
  lemma NewDoneThrough(net: Net, l0: Layout, l1: Layout, l2: Layout, c: nat)
    requires net.Valid() && c > 0 && Grown(net, l0, l1, c) && Grown(net, l1, l2, c) && l0.numportals <= |l0.portals|
    requires NewDone(net, l0, l1, c) && NewDone(net, l1, l2, c)
    ensures NewDone(net, l0, l2, c)
  {
    forall x: nat | net.Free(x) && l0.settings[x].cluster == 0 && l2.settings[x].cluster == c
      ensures Done(net, l2, x, c)
    {
      assert AreaGrown(true, l0.settings[x], l1.settings[x], c) && AreaGrown(true, l1.settings[x], l2.settings[x], c);
      if l1.settings[x].cluster == c {
        DoneGrown(net, l1, l2, x, c);
      }
    }
  }

  /** Flooding from a newly coloured area is over when all it reaches has been dealt with. */
  lemma NewDoneColoured(net: Net, l0: Layout, a: nat, l2: Layout, c: nat)
    requires net.Valid() && c > 0 && |l0.settings| == |net.portal| && l0.numportals <= |l0.portals|
    requires net.Free(a) && c < |l0.clusters| && Grown(net, Coloured(l0, a, c), l2, c)
    requires NewDone(net, Coloured(l0, a, c), l2, c) && Done(net, l2, a, c)
    ensures NewDone(net, l0, l2, c)
  {
  }

  lemma AllDoneThrough(net: Net, l0: Layout, l1: Layout, c: nat)
    requires net.Valid() && c > 0 && Grown(net, l0, l1, c) && l0.numportals <= |l0.portals|
    requires AllDone(net, l0, c) && NewDone(net, l0, l1, c)
    ensures AllDone(net, l1, c)
  {
    forall x: nat | net.Free(x) && l1.settings[x].cluster == c ensures Done(net, l1, x, c) {
      assert AreaGrown(true, l0.settings[x], l1.settings[x], c);
      if l0.settings[x].cluster == c {
        DoneGrown(net, l0, l1, x, c);
      }
    }
  }
}
