/** Numbering the members of a cluster, and what the clusters found so far amount to. */
module ClusterParts {
  import opened AasFile
  import opened ClusterNet
  import opened ClusterLayout
  import opened Counting

  // ----- numbers of the members

  function PortalNumber(q: Portal, k: nat): nat {
    if q.frontcluster == k then q.clusterareanum.0 else q.clusterareanum.1
  }

  ghost predicate NamesPortal(l: Layout, p: nat, k: nat, a: nat, n: nat)
    requires l.numportals <= |l.portals|
  {
    IsBorder(l, p, a, k) && PortalNumber(l.portals[p], k) == n
  }

  /** Area a, a free area of cluster k or a portal that has it, is number n there. */
  ghost predicate Names(net: Net, l: Layout, k: nat, a: nat, n: nat)
    requires |l.settings| == |net.portal| && l.numportals <= |l.portals|
  {
    || (net.Free(a) && l.settings[a].cluster == k && l.settings[a].clusterareanum == n)
    || (exists p: nat :: NamesPortal(l, p, k, a, n))
  }

  ghost predicate IsTaken(net: Net, l: Layout, k: nat, n: nat)
    requires |l.settings| == |net.portal| && l.numportals <= |l.portals|
  {
    exists a: nat :: Names(net, l, k, a, n)
  }

  /** The members of cluster k are numbered 0..numareas-1 without repetition, those with reachabilities first. */
  ghost predicate Numbered(net: Net, l: Layout, k: nat)
    requires |l.settings| == |net.portal| && l.numportals <= |l.portals| && k < |l.clusters|
  {
    && (forall a: nat, n: nat | Names(net, l, k, a, n) :: NumberOk(l, k, a, n))
    && (forall a: nat, b: nat, n: nat | Names(net, l, k, a, n) && Names(net, l, k, b, n) :: a == b)
    && (forall n: nat | n < l.clusters[k].numareas :: IsTaken(net, l, k, n))
    && l.clusters[k].numreachabilityareas <= l.clusters[k].numareas
  }

  ghost predicate NumberOk(l: Layout, k: nat, a: nat, n: nat)
    requires k < |l.clusters|
  {
    && a < |l.settings| && n < l.clusters[k].numareas
    && (n < l.clusters[k].numreachabilityareas <==> l.settings[a].numreachableareas > 0)
  }

  /** An area has one number in a cluster. */
  lemma NamesOne(net: Net, l: Layout, k: nat, a: nat, n: nat, m: nat)
    requires net.Valid() && |l.settings| == |net.portal| && PortalsOf(net, l.portals, l.numportals)
    requires Names(net, l, k, a, n) && Names(net, l, k, a, m)
    ensures n == m
  {
  }

  // ----- numbering

  ghost predicate AreaRenumbered(s0: AreaSettings, s1: AreaSettings, c: nat) {
    s1 == s0 || (s0.cluster == c && s1 == s0.(clusterareanum := s1.clusterareanum))
  }

  ghost predicate PortalRenumbered(q0: Portal, q1: Portal, c: nat) {
    || q1 == q0
    || (q0.frontcluster == c && q1 == q0.(clusterareanum := (q1.clusterareanum.0, q0.clusterareanum.1)))
    || (q0.frontcluster != c && q0.backcluster == c
        && q1 == q0.(clusterareanum := (q0.clusterareanum.0, q1.clusterareanum.1)))
  }

  /** Only numbers in cluster c, and its counts of areas, differ. */
  ghost predicate Renumbered(l0: Layout, l1: Layout, c: nat) {
    && |l1.settings| == |l0.settings| && |l1.portals| == |l0.portals| && |l1.clusters| == |l0.clusters|
    && l1.numportals == l0.numportals && l1.numclusters == l0.numclusters
    && l1.portalindex == l0.portalindex && l1.portalindexsize == l0.portalindexsize
    && (forall a: nat | a < |l0.settings| :: AreaRenumbered(l0.settings[a], l1.settings[a], c))
    && (forall p: nat | p < |l0.portals| :: PortalRenumbered(l0.portals[p], l1.portals[p], c))
    && c < |l0.clusters|
    && l1.clusters == l0.clusters[c := l0.clusters[c].(numareas := l1.clusters[c].numareas,
                                                         numreachabilityareas := l1.clusters[c].numreachabilityareas)]
  }

  lemma RenumberedThrough(l0: Layout, l1: Layout, l2: Layout, c: nat)
    requires Renumbered(l0, l1, c) && Renumbered(l1, l2, c)
    ensures Renumbered(l0, l2, c)
  {
  }

  /** order lists the areas numbered so far, those with reachabilities first. */
  ghost predicate InOrder(net: Net, l: Layout, c: nat, order: seq<nat>)
    requires |l.settings| == |net.portal| && l.numportals <= |l.portals| && c < |l.clusters|
  {
    && |order| == l.clusters[c].numareas && l.clusters[c].numreachabilityareas <= |order|
    && (forall n: nat | n < |order| :: Names(net, l, c, order[n], n) && NumberOk(l, c, order[n], n))
  }

  ghost function Counts(g: Cluster, reachable: bool): Cluster {
    g.(numareas := g.numareas + 1, numreachabilityareas := g.numreachabilityareas + if reachable then 1 else 0)
  }

  /** Free area a gets the next number. */
  ghost function AreaNumbered(l: Layout, a: nat, c: nat): Layout
    requires a < |l.settings| && c < |l.clusters|
  {
    l.(settings := l.settings[a := l.settings[a].(clusterareanum := l.clusters[c].numareas)],
       clusters := l.clusters[c := Counts(l.clusters[c], l.settings[a].numreachableareas > 0)])
  }

  function WithNumber(q: Portal, c: nat, n: nat): Portal {
    if q.frontcluster == c then q.(clusterareanum := (n, q.clusterareanum.1))
    else q.(clusterareanum := (q.clusterareanum.0, n))
  }

  /** Portal p gets the next number. */
  ghost function PortalNumbered(l: Layout, p: nat, c: nat): Layout
    requires p < |l.portals| && c < |l.clusters| && l.portals[p].areanum < |l.settings|
  {
    l.(portals := l.portals[p := WithNumber(l.portals[p], c, l.clusters[c].numareas)],
       clusters := l.clusters[c := Counts(l.clusters[c], l.settings[l.portals[p].areanum].numreachableareas > 0)])
  }

  /** With a next number given to an area that has none yet; those without reachabilities come last. */
  lemma AreaInOrder(net: Net, l: Layout, a: nat, c: nat, order: seq<nat>)
    requires net.Valid() && |l.settings| == |net.portal| && PortalsOf(net, l.portals, l.numportals) && c < |l.clusters|
    requires InOrder(net, l, c, order) && net.Free(a) && l.settings[a].cluster == c && a !in order
    requires l.settings[a].numreachableareas > 0 ==> l.clusters[c].numreachabilityareas == l.clusters[c].numareas
    ensures InOrder(net, AreaNumbered(l, a, c), c, order + [a]) && Renumbered(l, AreaNumbered(l, a, c), c)
  {
    var l1, o1 := AreaNumbered(l, a, c), order + [a];
    forall n: nat | n < |o1| ensures Names(net, l1, c, o1[n], n) && NumberOk(l1, c, o1[n], n) {
      if n < |order| {
        assert order[n] in order;
        assert Names(net, l, c, order[n], n) && NumberOk(l, c, order[n], n);
        if p: nat :| NamesPortal(l, p, c, order[n], n) {
          assert NamesPortal(l1, p, c, order[n], n);
        }
      }
    }
  }

  lemma PortalInOrder(net: Net, l: Layout, p: nat, c: nat, order: seq<nat>)
    requires net.Valid() && |l.settings| == |net.portal| && PortalsOf(net, l.portals, l.numportals) && c < |l.clusters|
    requires InOrder(net, l, c, order) && 0 < p < l.numportals && HasSide(l.portals[p], c)
      && l.portals[p].areanum !in order
    requires l.portals[p].areanum < |l.settings|
    requires l.settings[l.portals[p].areanum].numreachableareas > 0 ==>
      l.clusters[c].numreachabilityareas == l.clusters[c].numareas
    ensures InOrder(net, PortalNumbered(l, p, c), c, order + [l.portals[p].areanum])
    ensures Renumbered(l, PortalNumbered(l, p, c), c)
  {
    var a := l.portals[p].areanum;
    var l1, o1 := PortalNumbered(l, p, c), order + [a];
    forall n: nat | n < |o1| ensures Names(net, l1, c, o1[n], n) && NumberOk(l1, c, o1[n], n) {
      if n < |order| {
        assert order[n] in order;
        assert Names(net, l, c, order[n], n) && NumberOk(l, c, order[n], n);
        if q: nat :| NamesPortal(l, q, c, order[n], n) {
          assert NamesPortal(l1, q, c, order[n], n);
        }
      } else {
        assert NamesPortal(l1, p, c, a, n);
      }
    }
  }

  /** Free areas of cluster c below i, with or without reachabilities. */
  ghost function AreasBelow(net: Net, l: Layout, c: nat, i: nat, reachable: bool): set<nat>
    requires i <= |l.settings| == |net.portal|
  {
    set a: nat | 0 < a < i && l.settings[a].cluster == c && (l.settings[a].numreachableareas > 0) == reachable
  }

  ghost function PortalAt(l: Layout, c: nat, j: nat): (a: nat)
    requires c < |l.clusters| && l.numportals <= |l.portals| && Slice(l, c) && j < l.clusters[c].numportals
  {
    l.portals[l.portalindex[l.clusters[c].firstportal + j]].areanum
  }

  /** Areas of the first j portals of cluster c, with or without reachabilities. */
  ghost function PortalsBelow(l: Layout, c: nat, j: nat, reachable: bool): set<nat>
    requires c < |l.clusters| && l.numportals <= |l.portals| && Slice(l, c) && j <= l.clusters[c].numportals
  {
    set i: nat | i < j && PortalAt(l, c, i) < |l.settings|
      && (l.settings[PortalAt(l, c, i)].numreachableareas > 0) == reachable :: PortalAt(l, c, i)
  }

  /** All of them: the areas of the cluster, and its portals. */
  ghost predicate Complete(net: Net, l: Layout, c: nat, order: seq<nat>)
    requires net.Valid() && |l.settings| == |net.portal| && PortalsOf(net, l.portals, l.numportals)
    requires c < |l.clusters| && Slice(l, c)
  {
    var n, m := |l.settings|, l.clusters[c].numportals;
    Elements(order) == AreasBelow(net, l, c, n, true) + PortalsBelow(l, c, m, true) + AreasBelow(net, l, c, n, false)
      + PortalsBelow(l, c, m, false)
  }

  /** Once every member has been listed the numbering is one. */
  lemma AllNumbered(net: Net, l0: Layout, l: Layout, c: nat, order: seq<nat>)
    requires net.Valid() && |l0.settings| == |net.portal| && PortalsOf(net, l0.portals, l0.numportals)
    requires 0 < c < |l0.clusters| && Slice(l0, c) && Complete(net, l0, c, order)
    requires Renumbered(l0, l, c) && InOrder(net, l, c, order) && PortalsOf(net, l.portals, l.numportals)
    ensures Numbered(net, l, c)
  {
    hide Slice, PortalNumber, NumberOk;
    forall a: nat, n: nat | Names(net, l, c, a, n) ensures n < |order| && order[n] == a && NumberOk(l, c, a, n) {
      NumberedIsListed(net, l0, l, c, order, a, n);
      assert a in Elements(order);
      var m: nat :| m < |order| && order[m] == a;
      assert Names(net, l, c, order[m], m) && NumberOk(l, c, order[m], m) by { OrderNames(net, l, c, order, m); }
      NamesOne(net, l, c, a, n, m);
    }
    assert |order| == l.clusters[c].numareas
      && l.clusters[c].numreachabilityareas <= |order| by { OrderSize(net, l, c, order); }
    forall n: nat | n < l.clusters[c].numareas ensures IsTaken(net, l, c, n) {
      OrderNames(net, l, c, order, n);
    }
  }

  lemma OrderNames(net: Net, l: Layout, c: nat, order: seq<nat>, n: nat)
    requires |l.settings| == |net.portal| && l.numportals <= |l.portals| && c < |l.clusters|
    requires InOrder(net, l, c, order) && n < |order|
    ensures Names(net, l, c, order[n], n) && NumberOk(l, c, order[n], n)
  {
  }

  lemma OrderSize(net: Net, l: Layout, c: nat, order: seq<nat>)
    requires |l.settings| == |net.portal| && l.numportals <= |l.portals| && c < |l.clusters|
    requires InOrder(net, l, c, order)
    ensures |order| == l.clusters[c].numareas && l.clusters[c].numreachabilityareas <= |order|
  {
  }

  lemma NumberedIsListed(net: Net, l0: Layout, l: Layout, c: nat, order: seq<nat>, a: nat, n: nat)
    requires net.Valid() && |l0.settings| == |net.portal| && PortalsOf(net, l0.portals, l0.numportals)
    requires 0 < c < |l0.clusters| && Slice(l0, c) && Complete(net, l0, c, order)
    requires Renumbered(l0, l, c) && l.numportals <= |l.portals| && Names(net, l, c, a, n)
    ensures a in Elements(order)
  {
    if net.Free(a) && l.settings[a].cluster == c {
      assert AreaRenumbered(l0.settings[a], l.settings[a], c);
      var reachable := l0.settings[a].numreachableareas > 0;
      assert a in AreasBelow(net, l0, c, |l0.settings|, reachable);
    } else {
      var p: nat :| NamesPortal(l, p, c, a, n);
      assert PortalRenumbered(l0.portals[p], l.portals[p], c);
      BorderIsBelow(net, l0, c, p);
    }
  }

  lemma BorderIsBelow(net: Net, l: Layout, c: nat, p: nat)
    requires net.Valid() && |l.settings| == |net.portal| && PortalsOf(net, l.portals, l.numportals)
    requires c < |l.clusters| && Slice(l, c) && 0 < p < l.numportals && HasSide(l.portals[p], c)
    ensures var a := l.portals[p].areanum;
      && a < |l.settings| && a in PortalsBelow(l, c, l.clusters[c].numportals, l.settings[a].numreachableareas > 0)
  {
    assert InSlice(l, c, p);
    var first := l.clusters[c].firstportal;
    var i :| first <= i < first + l.clusters[c].numportals && l.portalindex[i] == p;
    assert PortalAt(l, c, i - first) == l.portals[p].areanum;
  }

  /** Part of the members of cluster c have numbers, in the order listed; l0 is what numbering started from. */
  ghost predicate Numbering(net: Net, l0: Layout, l: Layout, c: nat, order: seq<nat>) {
    && net.Valid() && |l0.settings| == |net.portal| == |l.settings| && PortalsOf(net, l0.portals, l0.numportals)
    && 0 < c < |l0.clusters| == |l.clusters| && Slice(l0, c)
    && l0.numportals == l.numportals <= |l0.portals| == |l.portals|
    && Renumbered(l0, l, c) && InOrder(net, l, c, order)
    && (forall a: nat | 0 < a < |l0.settings| && l0.settings[a].cluster == c :: net.Free(a))
  }

  lemma NoneBelow(net: Net, l0: Layout, c: nat, reachable: bool, order: seq<nat>)
    requires 1 <= |l0.settings| == |net.portal|
    ensures Elements(order) == Elements(order) + AreasBelow(net, l0, c, 1, reachable)
  {
  }

  /** The next area of the loop, in or out. */
  lemma OneMore(net: Net, l0: Layout, l: Layout, c: nat, i: nat, reachable: bool, order: seq<nat>, next: seq<nat>)
    requires Numbering(net, l0, l, c, next) && 0 < i < |l0.settings|
    requires Elements(next) == Elements(order) + AreasBelow(net, l0, c, i, reachable)
    requires Elements(order) !! AreasBelow(net, l0, c, |l0.settings|, reachable)
    ensures var now := l.settings[i].cluster == c && (l.settings[i].numreachableareas > 0) == reachable;
      && (now ==> i !in Elements(next))
      && Elements(order) + AreasBelow(net, l0, c, i + 1, reachable) == Elements(next) + (if now then {i} else {})
  {
    hide InOrder, Slice, PortalsOf;
    assert AreaRenumbered(l0.settings[i], l.settings[i], c);
    var now := l.settings[i].cluster == c && (l.settings[i].numreachableareas > 0) == reachable;
    assert AreasBelow(net, l0, c, i + 1, reachable) == AreasBelow(net, l0, c, i, reachable) + (if now then {i} else {});
    assert now ==> i in AreasBelow(net, l0, c, |l0.settings|, reachable);
    assert i !in AreasBelow(net, l0, c, i, reachable);
  }

  lemma AreaNumbering(net: Net, l0: Layout, l: Layout, c: nat, a: nat, order: seq<nat>)
    requires Numbering(net, l0, l, c, order) && 0 < a < |l.settings| && l.settings[a].cluster == c
      && a !in Elements(order)
    requires l.settings[a].numreachableareas > 0 ==> l.clusters[c].numreachabilityareas == l.clusters[c].numareas
    ensures Numbering(net, l0, AreaNumbered(l, a, c), c, order + [a])
  {
    hide InOrder, Slice, NumberOk;
    assert AreaRenumbered(l0.settings[a], l.settings[a], c);
    RenumberedRecords(net, l0, l, c);
    assert a in order ==> a in Elements(order);
    AreaInOrder(net, l, a, c, order);
    RenumberedThrough(l0, l, AreaNumbered(l, a, c), c);
  }

  lemma RenumberedRecords(net: Net, l0: Layout, l: Layout, c: nat)
    requires net.Valid() && Renumbered(l0, l, c) && PortalsOf(net, l0.portals, l0.numportals)
    ensures PortalsOf(net, l.portals, l.numportals)
  {
    forall p: nat | p < |l0.portals| ensures l.portals[p].areanum == l0.portals[p].areanum {
      assert PortalRenumbered(l0.portals[p], l.portals[p], c);
    }
    SameRecords(net, l0.portals, l.portals, l0.numportals);
  }

  lemma SameSlice(l0: Layout, l: Layout, c: nat)
    requires Renumbered(l0, l, c)
    ensures l.clusters[c].firstportal == l0.clusters[c].firstportal
      && l.clusters[c].numportals == l0.clusters[c].numportals
    ensures l.portalindex == l0.portalindex
  {
  }

  lemma NoPortalBelow(net: Net, l0: Layout, l: Layout, c: nat, reachable: bool, order: seq<nat>)
    requires Numbering(net, l0, l, c, order)
    ensures Elements(order) == Elements(order) + PortalsBelow(l0, c, 0, reachable)
  {
    assert PortalsBelow(l0, c, 0, reachable) == {};
  }

  /** The next portal of the slice, in or out. */
  lemma OneMorePortal(net: Net, l0: Layout, l: Layout, c: nat, i: nat, reachable: bool, order: seq<nat>, next: seq<nat>)
    requires Numbering(net, l0, l, c, next) && i < l0.clusters[c].numportals
    requires Elements(next) == Elements(order) + PortalsBelow(l0, c, i, reachable)
    requires Elements(order) !! PortalsBelow(l0, c, l0.clusters[c].numportals, reachable)
    ensures l.clusters[c].firstportal + i < |l.portalindex|
    ensures var p := l.portalindex[l.clusters[c].firstportal + i];
      && 0 < p < l.numportals && HasSide(l.portals[p], c) && l.portals[p].areanum < |l.settings|
      && var a := l.portals[p].areanum;
      var now := (l.settings[a].numreachableareas > 0) == reachable;
      && (now ==> a !in Elements(next))
      && Elements(order) + PortalsBelow(l0, c, i + 1, reachable) == Elements(next) + (if now then {a} else {})
  {
    hide InOrder;
    SameSlice(l0, l, c);
    var p := l0.portalindex[l0.clusters[c].firstportal + i];
    assert PortalRenumbered(l0.portals[p], l.portals[p], c);
    var a := PortalAt(l0, c, i);
    assert AreaRenumbered(l0.settings[a], l.settings[a], c);
    PortalsBelowNext(net, l0, c, i, reachable);
  }

  lemma PortalsBelowNext(net: Net, l: Layout, c: nat, i: nat, reachable: bool)
    requires net.Valid() && |l.settings| == |net.portal| && PortalsOf(net, l.portals, l.numportals)
    requires c < |l.clusters| && Slice(l, c) && i < l.clusters[c].numportals
    ensures var a := PortalAt(l, c, i);
      && a < |l.settings|
      && var now := (l.settings[a].numreachableareas > 0) == reachable;
      && PortalsBelow(l, c, i + 1, reachable) == PortalsBelow(l, c, i, reachable) + (if now then {a} else {})
      && a !in PortalsBelow(l, c, i, reachable)
      && (now ==> a in PortalsBelow(l, c, l.clusters[c].numportals, reachable))
  {
    var first := l.clusters[c].firstportal;
    var a := PortalAt(l, c, i);
    forall j: nat | j < i ensures PortalAt(l, c, j) != a {
      assert l.portalindex[first + j] != l.portalindex[first + i];
      RecordsDiffer(net, l, l.portalindex[first + j], l.portalindex[first + i]);
    }
  }

  lemma PortalNumbering(net: Net, l0: Layout, l: Layout, c: nat, p: nat, order: seq<nat>)
    requires Numbering(net, l0, l, c, order) && 0 < p < l.numportals && HasSide(l.portals[p], c)
    requires l.portals[p].areanum < |l.settings| && l.portals[p].areanum !in Elements(order)
    requires l.settings[l.portals[p].areanum].numreachableareas > 0 ==>
      l.clusters[c].numreachabilityareas == l.clusters[c].numareas
    ensures Numbering(net, l0, PortalNumbered(l, p, c), c, order + [l.portals[p].areanum])
  {
    hide InOrder, Slice, NumberOk;
    var a := l.portals[p].areanum;
    RenumberedRecords(net, l0, l, c);
    assert a in order ==> a in Elements(order);
    PortalInOrder(net, l, p, c, order);
    RenumberedThrough(l0, l, PortalNumbered(l, p, c), c);
  }

  // ----- what later clusters leave of earlier ones

  ghost predicate AreaKept(free: bool, s0: AreaSettings, s1: AreaSettings, c: nat) {
    && s1 == s0.(cluster := s1.cluster, clusterareanum := s1.clusterareanum)
    && (free && s0.cluster == 0 ==> s1.cluster == 0 || s1.cluster == c)
    && (free && s0.cluster == c ==> s1.cluster == c)
    && (free && s0.cluster != 0 && s0.cluster != c ==> s1 == s0)
  }

  ghost predicate PortalKept(q0: Portal, q1: Portal, c: nat) {
    && q1.areanum == q0.areanum
    && (q1.frontcluster == q0.frontcluster || (q0.frontcluster == 0 && q1.frontcluster == c))
    && (q1.backcluster == q0.backcluster || (q0.backcluster == 0 && q1.backcluster == c))
    && (q0.frontcluster != c && q0.frontcluster != 0 ==> q1.clusterareanum.0 == q0.clusterareanum.0)
    && (q0.backcluster != c && q0.backcluster != 0 && q0.frontcluster != 0 ==>
      q1.clusterareanum.1 == q0.clusterareanum.1)
  }

  /** Whatever was done for cluster c, the other clusters have kept their areas, portals and numbers. */
  ghost predicate Kept(net: Net, l0: Layout, l1: Layout, c: nat)
    requires net.Valid()
  {
    && |l0.settings| == |l1.settings| == |net.portal| && |l0.portals| == |l1.portals| && l0.numportals == l1.numportals
    && |l0.clusters| == |l1.clusters| && l0.numclusters == l1.numclusters
    && |l0.portalindex| == |l1.portalindex| && l0.portalindexsize <= l1.portalindexsize <= |l0.portalindex|
    && (forall a: nat | a < |l0.settings| :: AreaKept(net.Free(a), l0.settings[a], l1.settings[a], c))
    && l0.settings[0].cluster == l1.settings[0].cluster
    && (forall p: nat | p < |l0.portals| :: PortalKept(l0.portals[p], l1.portals[p], c))
    && (forall i | 0 <= i < l0.portalindexsize :: l1.portalindex[i] == l0.portalindex[i])
    && (forall k | 0 <= k < |l0.clusters| && k != c :: l1.clusters[k] == l0.clusters[k])
  }

  lemma GrownKept(net: Net, l0: Layout, l1: Layout, c: nat)
    requires net.Valid() && c > 0 && Grown(net, l0, l1, c)
    ensures Kept(net, l0, l1, c)
  {
    forall p: nat | p < |l0.portals| ensures PortalKept(l0.portals[p], l1.portals[p], c) {
      assert PortalGrown(l0.portals[p], l1.portals[p], c);
    }
    forall a: nat | a < |l0.settings| ensures AreaKept(net.Free(a), l0.settings[a], l1.settings[a], c) {
      assert AreaGrown(net.Free(a), l0.settings[a], l1.settings[a], c);
    }
  }

  lemma RenumberedKept(net: Net, l0: Layout, l1: Layout, c: nat)
    requires net.Valid() && c > 0 && |l0.settings| == |net.portal| && l0.portalindexsize <= |l0.portalindex|
    requires Renumbered(l0, l1, c) && l0.settings[0].cluster == 0
    ensures Kept(net, l0, l1, c)
  {
    forall p: nat | p < |l0.portals| ensures PortalKept(l0.portals[p], l1.portals[p], c) {
      assert PortalRenumbered(l0.portals[p], l1.portals[p], c);
    }
    forall a: nat | a < |l0.settings| ensures AreaKept(net.Free(a), l0.settings[a], l1.settings[a], c) {
      assert AreaRenumbered(l0.settings[a], l1.settings[a], c);
    }
  }

  lemma KeptThrough(net: Net, l0: Layout, l1: Layout, l2: Layout, c: nat)
    requires net.Valid() && c > 0 && Kept(net, l0, l1, c) && Kept(net, l1, l2, c)
    ensures Kept(net, l0, l2, c)
  {
    forall p: nat | p < |l0.portals| ensures PortalKept(l0.portals[p], l2.portals[p], c) {
      assert PortalKept(l0.portals[p], l1.portals[p], c) && PortalKept(l1.portals[p], l2.portals[p], c);
    }
    forall a: nat | a < |l0.settings| ensures AreaKept(net.Free(a), l0.settings[a], l2.settings[a], c) {
      assert AreaKept(net.Free(a), l0.settings[a], l1.settings[a], c)
        && AreaKept(net.Free(a), l1.settings[a], l2.settings[a], c);
    }
  }

  ghost predicate JoinedIn(net: Net, l: Layout, k: nat)
    requires net.Valid() && |l.settings| == |net.portal|
  {
    forall x: nat, y: nat | net.Free(x) && net.Free(y) && l.settings[x].cluster == k && l.settings[y].cluster == k ::
      net.Joined(x, y)
  }

  /** A cluster that is complete: closed under reachabilities, connected, with its portals listed and its members
      numbered. */
  ghost predicate Finished(net: Net, l: Layout, k: nat)
    requires net.Valid() && |l.settings| == |net.portal| && l.numportals <= |l.portals| && k < |l.clusters|
  {
    AllDone(net, l, k) && JoinedIn(net, l, k) && Slice(l, k) && End(l, k) <= l.portalindexsize && Numbered(net, l, k)
  }

  ghost function End(l: Layout, k: nat): nat
    requires k < |l.clusters|
  {
    l.clusters[k].firstportal + l.clusters[k].numportals
  }

  lemma BorderKept(net: Net, l0: Layout, l1: Layout, c: nat, k: nat, p: nat, a: nat, n: nat)
    requires net.Valid() && Kept(net, l0, l1, c) && l0.numportals <= |l0.portals| && 0 < k != c
    requires |l0.settings| == |net.portal| && PortalsOf(net, l0.portals, l0.numportals)
      && Marked(net, l0, |l0.clusters|)
    ensures p < l0.numportals ==> (HasSide(l0.portals[p], k) <==> HasSide(l1.portals[p], k))
    ensures IsBorder(l0, p, a, k) <==> IsBorder(l1, p, a, k)
    ensures NamesPortal(l0, p, k, a, n) <==> NamesPortal(l1, p, k, a, n)
  {
    if 0 < p < l0.numportals {
      assert PortalKept(l0.portals[p], l1.portals[p], c) && MarkedPortal(l0, p, |l0.clusters|);
    }
    if p == 0 && p < |l0.portals| {
      assert PortalKept(l0.portals[p], l1.portals[p], c);
    }
  }

  lemma AreaOfKept(net: Net, l0: Layout, l1: Layout, c: nat, k: nat, a: nat)
    requires net.Valid() && Kept(net, l0, l1, c) && 0 < k != c && net.Free(a)
    ensures l0.settings[a].cluster == k <==> l1.settings[a].cluster == k
    ensures l0.settings[a].cluster == k ==> l1.settings[a] == l0.settings[a]
  {
    assert AreaKept(true, l0.settings[a], l1.settings[a], c);
  }

  lemma NamesKept(net: Net, l0: Layout, l1: Layout, c: nat, k: nat, a: nat, n: nat)
    requires net.Valid() && Kept(net, l0, l1, c) && l0.numportals <= |l0.portals| && 0 < k != c
    requires |l0.settings| == |net.portal| && PortalsOf(net, l0.portals, l0.numportals)
      && Marked(net, l0, |l0.clusters|)
    ensures Names(net, l0, k, a, n) <==> Names(net, l1, k, a, n)
  {
    hide PortalsOf, Marked, NamesPortal, Kept;
    if net.Free(a) {
      AreaOfKept(net, l0, l1, c, k, a);
    }
    if p: nat :| NamesPortal(l0, p, k, a, n) {
      BorderKept(net, l0, l1, c, k, p, a, n);
    }
    assert l1.numportals == l0.numportals && |l1.portals| == |l0.portals| by { KeptSizes(net, l0, l1, c); }
    if p: nat :| NamesPortal(l1, p, k, a, n) {
      BorderKept(net, l0, l1, c, k, p, a, n);
    }
  }

  lemma KeptSizes(net: Net, l0: Layout, l1: Layout, c: nat)
    requires net.Valid() && Kept(net, l0, l1, c)
    ensures l1.numportals == l0.numportals && |l1.portals| == |l0.portals| && |l1.settings| == |l0.settings|
    ensures |l1.clusters| == |l0.clusters|
      && forall k: nat | k < |l0.clusters| && k != c :: l1.clusters[k] == l0.clusters[k]
  {
  }

  lemma NumberedKept(net: Net, l0: Layout, l1: Layout, c: nat, k: nat)
    requires net.Valid() && Kept(net, l0, l1, c) && l0.numportals <= |l0.portals| && 0 < k < |l0.clusters| && k != c
    requires |l0.settings| == |net.portal| && PortalsOf(net, l0.portals, l0.numportals)
      && Marked(net, l0, |l0.clusters|)
    requires Numbered(net, l0, k)
    ensures Numbered(net, l1, k)
  {
    hide PortalsOf, Marked, Names, Kept;
    KeptSizes(net, l0, l1, c);
    forall a: nat, n: nat | Names(net, l1, k, a, n) ensures Names(net, l0, k, a, n) && NumberOk(l1, k, a, n) {
      NamesKept(net, l0, l1, c, k, a, n);
      assert NumberOk(l0, k, a, n);
      ReachabilitiesKept(net, l0, l1, c, a);
    }
    forall n: nat | n < l1.clusters[k].numareas ensures IsTaken(net, l1, k, n) {
      assert IsTaken(net, l0, k, n);
      var a: nat :| Names(net, l0, k, a, n);
      NamesKept(net, l0, l1, c, k, a, n);
    }
  }

  lemma ReachabilitiesKept(net: Net, l0: Layout, l1: Layout, c: nat, a: nat)
    requires net.Valid() && Kept(net, l0, l1, c)
    ensures a < |l0.settings| ==> l1.settings[a].numreachableareas == l0.settings[a].numreachableareas
  {
    if a < |l0.settings| {
      assert AreaKept(net.Free(a), l0.settings[a], l1.settings[a], c);
    }
  }

  lemma SliceKept(net: Net, l0: Layout, l1: Layout, c: nat, k: nat)
    requires net.Valid() && Kept(net, l0, l1, c) && l0.numportals <= |l0.portals| && 0 < k < |l0.clusters| && k != c
    requires |l0.settings| == |net.portal| && PortalsOf(net, l0.portals, l0.numportals)
      && Marked(net, l0, |l0.clusters|)
    requires Slice(l0, k) && End(l0, k) <= l0.portalindexsize
    ensures Slice(l1, k) && End(l1, k) <= l1.portalindexsize
  {
    hide PortalsOf, Marked, IsBorder, NamesPortal;
    var first, n := l0.clusters[k].firstportal, l0.clusters[k].numportals;
    forall i | first <= i < first + n ensures HasSide(l1.portals[l1.portalindex[i]], k) {
      BorderKept(net, l0, l1, c, k, l0.portalindex[i], 0, 0);
    }
    forall p: nat | 0 < p < l0.numportals && HasSide(l1.portals[p], k) ensures InSlice(l1, k, p) {
      BorderKept(net, l0, l1, c, k, p, 0, 0);
      assert InSlice(l0, k, p);
      var i :| first <= i < first + n && l0.portalindex[i] == p;
      assert l1.portalindex[i] == p;
    }
  }

  lemma DoneKept(net: Net, l0: Layout, l1: Layout, c: nat, k: nat, x: nat)
    requires net.Valid() && Kept(net, l0, l1, c) && l0.numportals <= |l0.portals| && 0 < k != c
    requires |l0.settings| == |net.portal| && PortalsOf(net, l0.portals, l0.numportals)
      && Marked(net, l0, |l0.clusters|)
    requires Done(net, l0, x, k)
    ensures Done(net, l1, x, k)
  {
    hide PortalsOf, Marked, IsBorder, NamesPortal;
    forall t: nat | net.Reaches(x, t) ensures Handled(net, l1, t, k) {
      assert Handled(net, l0, t, k);
      if net.Free(t) {
        AreaOfKept(net, l0, l1, c, k, t);
      } else {
        var p: nat :| IsBorder(l0, p, t, k);
        BorderKept(net, l0, l1, c, k, p, t, 0);
      }
    }
  }

  lemma FinishedKept(net: Net, l0: Layout, l1: Layout, c: nat, k: nat)
    requires net.Valid() && Kept(net, l0, l1, c) && l0.numportals <= |l0.portals| && 0 < k < |l0.clusters| && k != c
    requires |l0.settings| == |net.portal| && PortalsOf(net, l0.portals, l0.numportals)
      && Marked(net, l0, |l0.clusters|)
    requires Finished(net, l0, k)
    ensures Finished(net, l1, k)
  {
    hide PortalsOf, Marked, Kept, Slice, Numbered, Done;
    KeptSizes(net, l0, l1, c);
    NumberedKept(net, l0, l1, c, k);
    SliceKept(net, l0, l1, c, k);
    forall x: nat | net.Free(x) ensures l0.settings[x].cluster == k <==> l1.settings[x].cluster == k {
      AreaOfKept(net, l0, l1, c, k, x);
    }
    forall x: nat | net.Free(x) && l1.settings[x].cluster == k ensures Done(net, l1, x, k) {
      DoneKept(net, l0, l1, c, k, x);
    }
  }
}
