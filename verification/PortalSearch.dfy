/** The routing search over cluster portals, on unbounded travel times: a first-in first-out search that
    queues a portal again whenever its time drops. */
module PortalSearch {
  import opened RouteWorld
  import opened Counting

  /** Where a route to the goal may be entered: an area seen from one cluster, and the time from it on. */
  datatype PortalUpdate = PortalUpdate(cluster: nat, areanum: nat, tmptraveltime: nat)

  /** times[p] == 0: portal p is not reached. updates: by portal; `queue`: entries to continue from. */
  datatype PortalState = PortalState(queue: seq<nat>, times: seq<nat>, updates: seq<PortalUpdate>, fits: bool)

  ghost predicate UpdateOk(w: World, u: PortalUpdate) {
    w.Valid() && w.IsCluster(u.cluster) && w.Member(u.cluster, u.areanum)
  }

  /** Travel time from portal area p to the area of u inside the cluster of u; 0 if there is no way. */
  ghost function TimeInCluster(w: World, travelflags: bv32, u: PortalUpdate, p: nat): nat
    requires UpdateOk(w, u) && 0 < p < |w.portals| && w.Member(u.cluster, w.portals[p].areanum)
  {
    var n := w.ClusterAreaNum(u.cluster, w.portals[p].areanum);
    if w.portals[p].areanum == u.areanum || n >= w.clusters[u.cluster].numreachabilityareas then 0
    else w.AreaSearch(u.cluster, u.areanum, travelflags, 1).times[n]
  }

  /** The cluster on the other side of a portal. */
  function OtherSide(w: World, p: nat, c: nat): nat
    requires p < |w.portals|
  {
    if w.portals[p].frontcluster == c then w.portals[p].backcluster else w.portals[p].frontcluster
  }

  ghost predicate StateOk(w: World, s: PortalState) {
    && w.Valid() && |s.times| == |w.portals| && |s.updates| == |w.portals| + 1
    && (forall i | 0 <= i < |s.queue| :: s.queue[i] <= |w.portals| && UpdateOk(w, s.updates[s.queue[i]]))
  }

  lemma PortalIsMember(w: World, p: nat, c: nat)
    requires w.Valid() && 0 < p < |w.portals| && (w.portals[p].frontcluster == c || w.portals[p].backcluster == c)
    ensures w.IsCluster(c) && w.Member(c, w.portals[p].areanum)
    ensures w.IsCluster(OtherSide(w, p, c)) && w.Member(OtherSide(w, p, c), w.portals[p].areanum)
  {
    assert w.IsPortal(p);
  }

  /** Portal number i of a cluster. */
  function PortalOf(w: World, c: nat, i: nat): (p: nat)
    requires w.Valid() && w.IsCluster(c) && i < w.clusters[c].numportals
    ensures 0 < p < |w.portals| && (w.portals[p].frontcluster == c || w.portals[p].backcluster == c)
    ensures w.Member(c, w.portals[p].areanum)
    ensures w.IsCluster(OtherSide(w, p, c)) && w.Member(OtherSide(w, p, c), w.portals[p].areanum)
  {
    assert w.SliceOk(c);
    PortalIsMember(w, w.portalindex[w.clusters[c].firstportal + i], c);
    w.portalindex[w.clusters[c].firstportal + i]
  }

  /** Offer portal number i of u's cluster the time through u. */
  ghost function Visit(w: World, travelflags: bv32, s: PortalState, u: PortalUpdate, i: nat): (r: PortalState)
    requires StateOk(w, s) && UpdateOk(w, u) && i < w.clusters[u.cluster].numportals
    ensures StateOk(w, r)
  {
    var p := PortalOf(w, u.cluster, i);
    var t0 := TimeInCluster(w, travelflags, u, p);
    var t := t0 + u.tmptraveltime;
    if t0 == 0 then s
    else if s.times[p] == 0 || s.times[p] > t then
      var v := PortalUpdate(OtherSide(w, p, u.cluster), w.portals[p].areanum, t + w.portalmaxtraveltimes[p]);
      PortalState(if p in s.queue then s.queue else s.queue + [p], s.times[p := t], s.updates[p := v],
                  s.fits && t + w.portalmaxtraveltimes[p] < 65536)
    else s.(fits := s.fits && t < 65536)
  }

  /** Visit the portals of u's cluster from number i on. */
  ghost function VisitFrom(w: World, travelflags: bv32, s: PortalState, u: PortalUpdate, i: nat): (r: PortalState)
    requires StateOk(w, s) && UpdateOk(w, u) && i <= w.clusters[u.cluster].numportals
    ensures StateOk(w, r)
    decreases w.clusters[u.cluster].numportals - i
  {
    if i == w.clusters[u.cluster].numportals then s
    else VisitFrom(w, travelflags, Visit(w, travelflags, s, u, i), u, i + 1)
  }

  ghost function Round(w: World, travelflags: bv32, s: PortalState): (r: PortalState)
    requires StateOk(w, s) && s.queue != []
    ensures StateOk(w, r)
  {
    VisitFrom(w, travelflags, s.(queue := s.queue[1..]), s.updates[s.queue[0]], 0)
  }

  // ----- termination: a portal is queued only after its time dropped

  ghost function Unset(times: seq<nat>): nat {
    if times == [] then 0 else (if times[0] == 0 then 1 else 0) + Unset(times[1..])
  }

  ghost function Sum(times: seq<nat>): nat {
    if times == [] then 0 else times[0] + Sum(times[1..])
  }

  lemma {:induction false} Drop(times: seq<nat>, p: nat, t: nat)
    requires p < |times| && t > 0
    ensures Unset(times[p := t]) == Unset(times) - (if times[p] == 0 then 1 else 0)
    ensures Sum(times[p := t]) == Sum(times) - times[p] + t
  {
    if p == 0 {
      assert times[p := t][1..] == times[1..];
    } else {
      Drop(times[1..], p - 1, t);
      assert times[p := t][1..] == times[1..][p - 1 := t];
    }
  }

  /** No portal's time rose, and if none dropped the queue did not grow. */
  ghost predicate Lower(r: PortalState, s: PortalState) {
    || (Unset(r.times) == Unset(s.times) && Sum(r.times) == Sum(s.times) && r.queue == s.queue)
    || Unset(r.times) < Unset(s.times)
    || (Unset(r.times) == Unset(s.times) && Sum(r.times) < Sum(s.times))
  }

  lemma VisitLowers(w: World, travelflags: bv32, s: PortalState, u: PortalUpdate, i: nat)
    requires StateOk(w, s) && UpdateOk(w, u) && i < w.clusters[u.cluster].numportals
    ensures Lower(Visit(w, travelflags, s, u, i), s)
  {
    hide World.Valid, TimeInCluster, OtherSide;
    var p := PortalOf(w, u.cluster, i);
    var t := TimeInCluster(w, travelflags, u, p) + u.tmptraveltime;
    if t > 0 {
      Drop(s.times, p, t);
    }
  }

  lemma {:induction false} VisitFromLowers(w: World, travelflags: bv32, s: PortalState, u: PortalUpdate, i: nat)
    requires StateOk(w, s) && UpdateOk(w, u) && i <= w.clusters[u.cluster].numportals
    ensures Lower(VisitFrom(w, travelflags, s, u, i), s)
    decreases w.clusters[u.cluster].numportals - i
  {
    if i < w.clusters[u.cluster].numportals {
      VisitLowers(w, travelflags, s, u, i);
      VisitFromLowers(w, travelflags, Visit(w, travelflags, s, u, i), u, i + 1);
    }
  }

  ghost function Run(w: World, travelflags: bv32, s: PortalState): (r: PortalState)
    requires StateOk(w, s)
    ensures StateOk(w, r) && r.queue == []
    decreases Unset(s.times), Sum(s.times), |s.queue|
  {
    if s.queue == [] then s
    else
      VisitFromLowers(w, travelflags, s.(queue := s.queue[1..]), s.updates[s.queue[0]], 0);
      Run(w, travelflags, Round(w, travelflags, s))
  }

  /** The whole search: from area `goal` seen from cluster c, portal times to it. A goal that is
      a portal itself has the start time. */
  ghost function Begin(w: World, c: nat, goal: nat): (s: PortalState)
    requires w.Valid() && w.IsCluster(c) && w.Member(c, goal)
    ensures StateOk(w, s)
  {
    var n := |w.portals|;
    var zeros := seq(n, i => 0);
    var k := w.settings[goal].cluster;
    PortalState([n], if k < 0 then zeros[-k := 1] else zeros,
                seq(n, i => PortalUpdate(0, 0, 0)) + [PortalUpdate(c, goal, 1)], true)
  }

  ghost function PortalSearch(w: World, c: nat, goal: nat, travelflags: bv32): (r: PortalState)
    requires w.Valid() && w.IsCluster(c) && w.Member(c, goal)
    ensures StateOk(w, r) && r.queue == []
  {
    Run(w, travelflags, Begin(w, c, goal))
  }

  /** A round that improves no portal leaves the queue shorter. */
  lemma RoundDrops(w: World, travelflags: bv32, s: PortalState)
    requires StateOk(w, s) && s.queue != []
    ensures var r := Round(w, travelflags, s);
      || Unset(r.times) < Unset(s.times)
      || (Unset(r.times) == Unset(s.times) && Sum(r.times) < Sum(s.times))
      || (Unset(r.times) == Unset(s.times) && Sum(r.times) == Sum(s.times) && |r.queue| < |s.queue|)
    ensures Run(w, travelflags, Round(w, travelflags, s)) == Run(w, travelflags, s)
  {
    hide World.Valid, Visit;
    VisitFromLowers(w, travelflags, s.(queue := s.queue[1..]), s.updates[s.queue[0]], 0);
  }

  // ----- a sum that does not fit is not forgotten

  lemma {:induction false} VisitFromFits(w: World, travelflags: bv32, s: PortalState, u: PortalUpdate, i: nat)
    requires StateOk(w, s) && UpdateOk(w, u) && i <= w.clusters[u.cluster].numportals
    requires VisitFrom(w, travelflags, s, u, i).fits
    ensures s.fits
    decreases w.clusters[u.cluster].numportals - i
  {
    hide World.Valid, TimeInCluster;
    if i < w.clusters[u.cluster].numportals {
      VisitFromFits(w, travelflags, Visit(w, travelflags, s, u, i), u, i + 1);
    }
  }

  lemma {:induction false} RunFits(w: World, travelflags: bv32, s: PortalState)
    requires StateOk(w, s) && Run(w, travelflags, s).fits
    ensures s.fits
    decreases Unset(s.times), Sum(s.times), |s.queue|
  {
    hide World.Valid, Visit;
    if s.queue != [] {
      VisitFromLowers(w, travelflags, s.(queue := s.queue[1..]), s.updates[s.queue[0]], 0);
      RunFits(w, travelflags, Round(w, travelflags, s));
      VisitFromFits(w, travelflags, s.(queue := s.queue[1..]), s.updates[s.queue[0]], 0);
    }
  }

  // ----- chains of portals

  /** A way to the goal: start at a portal, travel inside one cluster to where the rest starts. */
  datatype Chain = AtGoal | Via(portal: nat, rest: Chain)

  /** Time of a chain from its first portal on, and where a longer chain attaches: behind that portal. */
  datatype Way = NoWay | Way(end: PortalUpdate, time: nat)

  /** What a chain amounts to: the times inside the clusters, and for each portal in between the
      longest time to cross it. */
  ghost function Walk(w: World, travelflags: bv32, g: PortalUpdate, ch: Chain): (r: Way)
    requires UpdateOk(w, g)
    ensures r.Way? ==> UpdateOk(w, r.end)
    decreases ch
  {
    match ch
    case AtGoal => Way(g, g.tmptraveltime)
    case Via(p, rest) =>
      var r := Walk(w, travelflags, g, rest);
      if r.NoWay? then NoWay else Extend(w, travelflags, r.end, p)
  }

  /** One portal more: from portal p through the cluster of u to u. */
  ghost function Extend(w: World, travelflags: bv32, u: PortalUpdate, p: nat): (r: Way)
    requires UpdateOk(w, u)
    ensures r.Way? ==> UpdateOk(w, r.end)
  {
    if 0 < p < |w.portals| && (w.portals[p].frontcluster == u.cluster || w.portals[p].backcluster == u.cluster) then
      PortalIsMember(w, p, u.cluster);
      var t0 := TimeInCluster(w, travelflags, u, p);
      if t0 == 0 then NoWay
      else Way(PortalUpdate(OtherSide(w, p, u.cluster), w.portals[p].areanum,
        t0 + u.tmptraveltime + w.portalmaxtraveltimes[p]),
               t0 + u.tmptraveltime)
    else NoWay
  }

  /** Entry q is where chain number q ends; a portal's chain starts at it and takes its time. */
  ghost predicate Explained(w: World, travelflags: bv32, g: PortalUpdate, chains: seq<Chain>, s: PortalState, q: nat)
    requires StateOk(w, s) && UpdateOk(w, g) && |chains| == |w.portals| + 1 && q <= |w.portals|
  {
    var r := Walk(w, travelflags, g, chains[q]);
    && r.Way? && r.end == s.updates[q]
    && (if q == |w.portals| then chains[q].AtGoal?
        else chains[q].Via? && chains[q].portal == q && 0 < r.time == s.times[q])
  }

  /** p is the goal itself, at the start time. */
  ghost predicate IsGoalPortal(w: World, g: PortalUpdate, s: PortalState, p: nat)
    requires StateOk(w, s) && UpdateOk(w, g)
  {
    p < |w.portals| && p !in s.queue && s.times[p] == g.tmptraveltime && -w.settings[g.areanum].cluster == p
  }

  ghost predicate Inv(w: World, travelflags: bv32, g: PortalUpdate, chains: seq<Chain>, s: PortalState) {
    && StateOk(w, s) && UpdateOk(w, g) && |chains| == |w.portals| + 1
    && Distinct(s.queue) && Explained(w, travelflags, g, chains, s, |w.portals|)
    && (forall i | 0 <= i < |s.queue| :: Explained(w, travelflags, g, chains, s, s.queue[i]))
    && (forall p: nat | p < |w.portals| && chains[p].Via? :: Explained(w, travelflags, g, chains, s, p))
    && (forall p: nat | p < |w.portals| && chains[p].AtGoal? && s.times[p] != 0 :: IsGoalPortal(w, g, s, p))
  }

  /** Does visiting portal number i of u's cluster lower its time? */
  ghost predicate Improves(w: World, travelflags: bv32, s: PortalState, u: PortalUpdate, i: nat)
    requires StateOk(w, s) && UpdateOk(w, u) && i < w.clusters[u.cluster].numportals
  {
    var p := PortalOf(w, u.cluster, i);
    var t0 := TimeInCluster(w, travelflags, u, p);
    t0 != 0 && (s.times[p] == 0 || s.times[p] > t0 + u.tmptraveltime)
  }

  /** The chains after a visit from the end of chain ch. */
  ghost function NextChains(w: World, travelflags: bv32, s: PortalState, u: PortalUpdate, i: nat,
                            chains: seq<Chain>, ch: Chain): (r: seq<Chain>)
    requires StateOk(w, s) && UpdateOk(w, u) && i < w.clusters[u.cluster].numportals && |chains| == |w.portals| + 1
    ensures |r| == |chains|
  {
    if Improves(w, travelflags, s, u, i) then chains[PortalOf(w, u.cluster, i) := Via(PortalOf(w, u.cluster, i), ch)]
    else chains
  }

  /** A visit changes nothing but the portal it improves, and queues that. */
  lemma VisitChanges(w: World, travelflags: bv32, s: PortalState, u: PortalUpdate, i: nat)
    requires StateOk(w, s) && UpdateOk(w, u) && i < w.clusters[u.cluster].numportals
    ensures var r := Visit(w, travelflags, s, u, i);
      var p := PortalOf(w, u.cluster, i);
      && (Improves(w, travelflags, s, u, i) ==>
           && (p in r.queue && Extend(w, travelflags, u, p) == Way(r.updates[p], r.times[p]))
           && 0 < r.times[p] && (s.times[p] != 0 ==> r.times[p] < s.times[p]))
      && (!Improves(w, travelflags, s, u, i) ==> r == s.(fits := r.fits))
      && (forall q: nat | q <= |w.portals| && q != p :: r.updates[q] == s.updates[q])
      && (forall q: nat | q < |w.portals| && q != p :: r.times[q] == s.times[q])
      && (forall q :: q in r.queue <==> q in s.queue || (q == p && Improves(w, travelflags, s, u, i)))
      && (Distinct(s.queue) ==> Distinct(r.queue))
      && Offered(w, travelflags, r, u, i)
  {
    hide World.Valid, TimeInCluster, OtherSide;
  }

  lemma VisitExplains(w: World, travelflags: bv32, g: PortalUpdate, chains: seq<Chain>, s: PortalState, u: PortalUpdate,
                      ch: Chain, i: nat, q: nat)
    requires StateOk(w, s) && UpdateOk(w, g) && |chains| == |w.portals| + 1 && q <= |w.portals|
    requires UpdateOk(w, u) && i < w.clusters[u.cluster].numportals
    requires Walk(w, travelflags, g, ch).Way? && Walk(w, travelflags, g, ch).end == u
    requires Explained(w, travelflags, g, chains, s,
      q) || (q == PortalOf(w, u.cluster, i) && Improves(w, travelflags, s, u, i))
    ensures Explained(w, travelflags, g, NextChains(w, travelflags, s, u, i, chains, ch),
      Visit(w, travelflags, s, u, i), q)
  {
    hide World.Valid, Visit, Extend;
    VisitChanges(w, travelflags, s, u, i);
  }

  lemma VisitInv(w: World, travelflags: bv32, g: PortalUpdate, chains: seq<Chain>, s: PortalState, u: PortalUpdate,
                 ch: Chain, i: nat)
    requires Inv(w, travelflags, g, chains, s) && UpdateOk(w, u) && i < w.clusters[u.cluster].numportals
    requires Walk(w, travelflags, g, ch).Way? && Walk(w, travelflags, g, ch).end == u
    ensures Inv(w, travelflags, g, NextChains(w, travelflags, s, u, i, chains, ch), Visit(w, travelflags, s, u, i))
  {
    hide World.Valid, Visit, Extend, Explained, Improves, Walk;
    VisitChanges(w, travelflags, s, u, i);
    var p := PortalOf(w, u.cluster, i);
    var r := Visit(w, travelflags, s, u, i);
    var chains' := NextChains(w, travelflags, s, u, i, chains, ch);
    VisitExplains(w, travelflags, g, chains, s, u, ch, i, |w.portals|);
    forall q: nat | q < |w.portals| && chains'[q].Via? ensures Explained(w, travelflags, g, chains', r, q) {
      VisitExplains(w, travelflags, g, chains, s, u, ch, i, q);
    }
    forall j | 0 <= j < |r.queue| ensures Explained(w, travelflags, g, chains', r, r.queue[j]) {
      assert r.queue[j] in r.queue;
      if r.queue[j] in s.queue {
        var k :| 0 <= k < |s.queue| && s.queue[k] == r.queue[j];
        VisitExplains(w, travelflags, g, chains, s, u, ch, i, s.queue[k]);
      } else {
        VisitExplains(w, travelflags, g, chains, s, u, ch, i, p);
      }
    }
  }

  /** Nothing better can be had through u, of the first `upto` portals of its cluster. */
  ghost predicate Settled(w: World, travelflags: bv32, s: PortalState, u: PortalUpdate, upto: nat)
    requires StateOk(w, s) && UpdateOk(w, u) && upto <= w.clusters[u.cluster].numportals
  {
    forall i: nat | i < upto :: Offered(w, travelflags, s, u, i)
  }

  ghost predicate Offered(w: World, travelflags: bv32, s: PortalState, u: PortalUpdate, i: nat)
    requires StateOk(w, s) && UpdateOk(w, u) && i < w.clusters[u.cluster].numportals
  {
    var p := PortalOf(w, u.cluster, i);
    var t0 := TimeInCluster(w, travelflags, u, p);
    t0 != 0 ==> 0 < s.times[p] <= t0 + u.tmptraveltime
  }

  /** Every entry that holds the end of a chain and is not queued has been worked off. */
  ghost predicate Done(w: World, travelflags: bv32, g: PortalUpdate, chains: seq<Chain>, s: PortalState)
    requires StateOk(w, s) && UpdateOk(w, g) && |chains| == |w.portals| + 1
  {
    forall q: nat | q <= |w.portals| && q !in s.queue && Explained(w, travelflags, g, chains, s, q) ::
      UpdateOk(w, s.updates[q]) && Settled(w, travelflags, s, s.updates[q], w.clusters[s.updates[q].cluster].numportals)
  }

  /** Entry q alone is being worked off, with the portals up to `upto` visited. */
  ghost predicate DoneBut(w: World, travelflags: bv32, g: PortalUpdate, chains: seq<Chain>, s: PortalState,
                          q0: nat, upto: nat)
    requires StateOk(w, s) && UpdateOk(w, g) && |chains| == |w.portals| + 1
  {
    && q0 <= |w.portals| && q0 !in s.queue && Explained(w, travelflags, g, chains, s, q0)
    && UpdateOk(w, s.updates[q0]) && upto <= w.clusters[s.updates[q0].cluster].numportals
    && Settled(w, travelflags, s, s.updates[q0], upto)
    && (forall q: nat | q <= |w.portals| && q !in s.queue && q != q0 && Explained(w, travelflags, g, chains, s, q) ::
      UpdateOk(w, s.updates[q])
        && Settled(w, travelflags, s, s.updates[q], w.clusters[s.updates[q].cluster].numportals))
  }

  lemma SettledKept(w: World, travelflags: bv32, s: PortalState, r: PortalState, u: PortalUpdate, upto: nat)
    requires StateOk(w, s) && StateOk(w, r) && UpdateOk(w, u) && upto <= w.clusters[u.cluster].numportals
    requires forall p: nat | p < |w.portals| && s.times[p] != 0 :: 0 < r.times[p] <= s.times[p]
    requires Settled(w, travelflags, s, u, upto)
    ensures Settled(w, travelflags, r, u, upto)
  {
    forall i: nat | i < upto ensures Offered(w, travelflags, r, u, i) {
      assert Offered(w, travelflags, s, u, i);
    }
  }

  /** Entries worked off before a visit stay so, unless the visit queues them again. */
  lemma VisitOthers(w: World, travelflags: bv32, g: PortalUpdate, chains: seq<Chain>, s: PortalState,
                    u: PortalUpdate, ch: Chain, i: nat, q: nat)
    requires StateOk(w, s) && UpdateOk(w, g) && |chains| == |w.portals| + 1 && UpdateOk(w, u)
      && i < w.clusters[u.cluster].numportals
    requires q <= |w.portals| && q !in Visit(w, travelflags, s, u, i).queue
    requires Explained(w, travelflags, g, NextChains(w, travelflags, s, u, i, chains, ch),
      Visit(w, travelflags, s, u, i), q)
    ensures q !in s.queue && Explained(w, travelflags, g, chains, s, q)
    ensures Visit(w, travelflags, s, u, i).updates[q] == s.updates[q]
  {
    hide World.Valid, Visit, Walk, Extend, Offered;
    VisitChanges(w, travelflags, s, u, i);
  }

  lemma VisitDone(w: World, travelflags: bv32, g: PortalUpdate, chains: seq<Chain>, s: PortalState, q0: nat, i: nat)
    requires Inv(w, travelflags, g, chains, s) && DoneBut(w, travelflags, g, chains, s, q0, i)
    requires i < w.clusters[s.updates[q0].cluster].numportals
    ensures var u := s.updates[q0];
      var r, chains' := Visit(w, travelflags, s, u, i), NextChains(w, travelflags, s, u, i, chains, chains[q0]);
      Inv(w, travelflags, g, chains', r) && r.updates[q0] == u && chains'[q0] == chains[q0]
      && DoneBut(w, travelflags, g, chains', r, q0, i + 1)
  {
    hide World.Valid, Visit, Walk, Extend, Offered, Improves, Explained;
    var u := s.updates[q0];
    var r, chains' := Visit(w, travelflags, s, u, i), NextChains(w, travelflags, s, u, i, chains, chains[q0]);
    VisitOwn(w, travelflags, g, chains, s, q0, i);
    VisitChanges(w, travelflags, s, u, i);
    forall q: nat | q <= |w.portals| && q !in r.queue && q != q0 && Explained(w, travelflags, g, chains', r, q)
      ensures UpdateOk(w, r.updates[q])
        && Settled(w, travelflags, r, r.updates[q], w.clusters[r.updates[q].cluster].numportals)
    {
      VisitOthers(w, travelflags, g, chains, s, u, chains[q0], i, q);
      SettledKept(w, travelflags, s, r, s.updates[q], w.clusters[s.updates[q].cluster].numportals);
    }
  }

  lemma VisitOwn(w: World, travelflags: bv32, g: PortalUpdate, chains: seq<Chain>, s: PortalState, q0: nat, i: nat)
    requires Inv(w, travelflags, g, chains, s) && q0 <= |w.portals| && q0 !in s.queue
      && Explained(w, travelflags, g, chains, s, q0)
    requires UpdateOk(w, s.updates[q0]) && i < w.clusters[s.updates[q0].cluster].numportals
    requires Settled(w, travelflags, s, s.updates[q0], i)
    ensures var u := s.updates[q0];
      var r, chains' := Visit(w, travelflags, s, u, i), NextChains(w, travelflags, s, u, i, chains, chains[q0]);
      && Inv(w, travelflags, g, chains', r) && r.updates[q0] == u && chains'[q0] == chains[q0] && q0 !in r.queue
      && Explained(w, travelflags, g, chains', r, q0) && Settled(w, travelflags, r, u, i + 1)
  {
    hide World.Valid, Visit, Extend, Offered, Walk;
    var u := s.updates[q0];
    var r := Visit(w, travelflags, s, u, i);
    VisitChanges(w, travelflags, s, u, i);
    VisitInv(w, travelflags, g, chains, s, u, chains[q0], i);
    OwnPortal(w, travelflags, g, chains, s, q0, i);
    SettledKept(w, travelflags, s, r, u, i);
  }

  /** A portal is not offered a time through itself. */
  lemma OwnPortal(w: World, travelflags: bv32, g: PortalUpdate, chains: seq<Chain>, s: PortalState, q0: nat, i: nat)
    requires Inv(w, travelflags, g, chains, s) && q0 <= |w.portals| && Explained(w, travelflags, g, chains, s, q0)
    requires UpdateOk(w, s.updates[q0]) && i < w.clusters[s.updates[q0].cluster].numportals
    ensures Improves(w, travelflags, s, s.updates[q0], i) ==> q0 != PortalOf(w, s.updates[q0].cluster, i)
  {
    hide World.Valid;
  }

  lemma {:induction false} VisitFromDone(w: World, travelflags: bv32, g: PortalUpdate, chains: seq<Chain>,
                                         s: PortalState, q0: nat, i: nat)
    returns (chains': seq<Chain>)
    requires Inv(w, travelflags, g, chains, s) && DoneBut(w, travelflags, g, chains, s, q0, i)
    ensures var r := VisitFrom(w, travelflags, s, s.updates[q0], i);
      Inv(w, travelflags, g, chains', r) && Done(w, travelflags, g, chains', r)
    decreases w.clusters[s.updates[q0].cluster].numportals - i
  {
    hide World.Valid, Visit, Walk, Offered, Explained, Settled;
    var u := s.updates[q0];
    if i == w.clusters[u.cluster].numportals {
      chains' := chains;
    } else {
      VisitDone(w, travelflags, g, chains, s, q0, i);
      chains' := VisitFromDone(w, travelflags, g, NextChains(w, travelflags, s, u, i, chains, chains[q0]),
                               Visit(w, travelflags, s, u, i), q0, i + 1);
    }
  }

  lemma {:induction false} RunDone(w: World, travelflags: bv32, g: PortalUpdate, chains: seq<Chain>, s: PortalState)
    returns (chains': seq<Chain>)
    requires Inv(w, travelflags, g, chains, s) && Done(w, travelflags, g, chains, s)
    ensures var r := Run(w, travelflags, s);
      Inv(w, travelflags, g, chains', r) && Done(w, travelflags, g, chains', r)
    decreases Unset(s.times), Sum(s.times), |s.queue|
  {
    hide World.Valid, Visit, Walk, Settled;
    if s.queue == [] {
      chains' := chains;
    } else {
      var q0 := s.queue[0];
      var s1 := s.(queue := s.queue[1..]);
      assert Explained(w, travelflags, g, chains, s, s.queue[0]);
      DequeuedInv(w, travelflags, g, chains, s);
      chains' := VisitFromDone(w, travelflags, g, chains, s1, q0, 0);
      VisitFromLowers(w, travelflags, s1, s.updates[q0], 0);
      chains' := RunDone(w, travelflags, g, chains', Round(w, travelflags, s));
    }
  }

  lemma DequeuedInv(w: World, travelflags: bv32, g: PortalUpdate, chains: seq<Chain>, s: PortalState)
    requires Inv(w, travelflags, g, chains, s) && Done(w, travelflags, g, chains, s) && s.queue != []
    ensures var s1 := s.(queue := s.queue[1..]);
      Inv(w, travelflags, g, chains, s1) && DoneBut(w, travelflags, g, chains, s1, s.queue[0], 0)
  {
    hide World.Valid, Walk;
    var s1 := s.(queue := s.queue[1..]);
    assert forall x :: x in s.queue <==> x in s1.queue || x == s.queue[0] by {
      assert s.queue == [s.queue[0]] + s1.queue;
    }
    forall q: nat | q <= |w.portals| && Explained(w, travelflags, g, chains, s, q)
      ensures Explained(w, travelflags, g, chains, s1, q)
    {
    }
    forall q: nat | q <= |w.portals| && q !in s1.queue && q != s.queue[0] && Explained(w, travelflags, g, chains, s1, q)
      ensures UpdateOk(w, s1.updates[q])
        && Settled(w, travelflags, s1, s1.updates[q], w.clusters[s1.updates[q].cluster].numportals)
    {
      assert Explained(w, travelflags, g, chains, s, q);
      SettledKept(w, travelflags, s, s1, s.updates[q], w.clusters[s.updates[q].cluster].numportals);
    }
  }

  /** Chain ch starts at portal p and takes the time p has. */
  ghost predicate TakesTime(w: World, travelflags: bv32, g: PortalUpdate, r: PortalState, p: nat, ch: Chain)
    requires StateOk(w, r) && UpdateOk(w, g) && p < |w.portals|
  {
    && ch.Via? && ch.portal == p
    && Walk(w, travelflags, g, ch).Way? && Walk(w, travelflags, g, ch).time == r.times[p] > 0
  }

  /** Portal p does not gain by being put in front of chain ch. */
  ghost predicate NoGain(w: World, travelflags: bv32, g: PortalUpdate, r: PortalState, p: nat, ch: Chain)
    requires StateOk(w, r) && UpdateOk(w, g) && p < |w.portals|
  {
    var way := Walk(w, travelflags, g, Via(p, ch));
    way.Way? ==> 0 < r.times[p] <= way.time
  }

  lemma SettledIsNoGain(w: World, travelflags: bv32, g: PortalUpdate, r: PortalState, p: nat, ch: Chain)
    requires StateOk(w, r) && UpdateOk(w, g) && p < |w.portals| && Walk(w, travelflags, g, ch).Way?
    requires var u := Walk(w, travelflags, g, ch).end; Settled(w, travelflags, r, u, w.clusters[u.cluster].numportals)
    ensures NoGain(w, travelflags, g, r, p, ch)
  {
    hide World.Valid, TimeInCluster;
    var u := Walk(w, travelflags, g, ch).end;
    if Walk(w, travelflags, g, Via(p, ch)).Way? {
      var i := PortalNumber(w, u.cluster, p);
      assert Offered(w, travelflags, r, u, i);
    }
  }

  lemma PortalNumber(w: World, c: nat, p: nat) returns (i: nat)
    requires w.Valid() && w.IsCluster(c)
    requires 0 < p < |w.portals| && (w.portals[p].frontcluster == c || w.portals[p].backcluster == c)
    ensures i < w.clusters[c].numportals && PortalOf(w, c, i) == p
  {
    hide World.NumberedOk, World.ClosedUnderLinks, World.LinksOk;
    assert w.SliceOk(c) && w.Listed(c, p);
    var first := w.clusters[c].firstportal;
    var k :| first <= k < first + w.clusters[c].numportals && w.portalindex[k] == p;
    i := k - first;
  }

  lemma BeginInv(w: World, c: nat, goal: nat, travelflags: bv32, none: seq<Chain>)
    requires w.Valid() && w.IsCluster(c) && w.Member(c, goal) && none == seq(|w.portals| + 1, i => AtGoal)
    ensures var g, s := PortalUpdate(c, goal, 1), Begin(w, c, goal);
      Inv(w, travelflags, g, none, s) && Done(w, travelflags, g, none, s)
  {
  }

  /** What the portal search leaves: every reached portal but the goal's own has the time of a chain of
      portals to the goal, and no portal can do better by being put in front of one of these chains. */
  lemma PortalTimesAreChains(w: World, c: nat, goal: nat, travelflags: bv32) returns (chains: seq<Chain>)
    requires w.Valid() && w.IsCluster(c) && w.Member(c, goal)
    ensures var g, r := PortalUpdate(c, goal, 1), PortalSearch(w, c, goal, travelflags);
      && |chains| == |w.portals| + 1 && chains[|w.portals|] == AtGoal
      && (forall p: nat | p < |w.portals| && r.times[p] != 0 ::
            TakesTime(w, travelflags, g, r, p, chains[p]) || (-w.settings[goal].cluster == p && r.times[p] == 1))
      && (forall p: nat, q: nat | p < |w.portals| && q < |w.portals| && TakesTime(w, travelflags, g, r, q, chains[q]) ::
            NoGain(w, travelflags, g, r, p, chains[q]))
      && (forall p: nat | p < |w.portals| :: NoGain(w, travelflags, g, r, p, AtGoal))
  {
    var g := PortalUpdate(c, goal, 1);
    var r := PortalSearch(w, c, goal, travelflags);
    hide World.Valid;
    var none := seq(|w.portals| + 1, i => AtGoal);
    BeginInv(w, c, goal, travelflags, none);
    chains := RunDone(w, travelflags, g, none, Begin(w, c, goal));
    FinalChains(w, travelflags, g, chains, r);
  }

  lemma FinalChains(w: World, travelflags: bv32, g: PortalUpdate, chains: seq<Chain>, r: PortalState)
    requires Inv(w, travelflags, g, chains, r) && Done(w, travelflags, g, chains, r) && r.queue == []
    ensures chains[|w.portals|] == AtGoal
    ensures forall p: nat | p < |w.portals| && r.times[p] != 0 ::
      TakesTime(w, travelflags, g, r, p,
        chains[p]) || (-w.settings[g.areanum].cluster == p && r.times[p] == g.tmptraveltime)
    ensures forall p: nat, q: nat | p < |w.portals| && q < |w.portals|
          && TakesTime(w, travelflags, g, r, q, chains[q]) ::
      NoGain(w, travelflags, g, r, p, chains[q])
    ensures forall p: nat | p < |w.portals| :: NoGain(w, travelflags, g, r, p, AtGoal)
  {
    hide World.Valid, Settled, NoGain, Walk;
    forall p: nat, q: nat | p < |w.portals| && q < |w.portals| && TakesTime(w, travelflags, g, r, q, chains[q])
      ensures NoGain(w, travelflags, g, r, p, chains[q])
    {
      assert Explained(w, travelflags, g, chains, r, q) by {
        EndIsHeld(w, travelflags, g, chains, r, q);
      }
      SettledIsNoGain(w, travelflags, g, r, p, chains[q]);
    }
    forall p: nat | p < |w.portals| ensures NoGain(w, travelflags, g, r, p, AtGoal) {
      SettledIsNoGain(w, travelflags, g, r, p, chains[|w.portals|]);
    }
  }

  /** A chain that takes a portal's time is the one its entry holds. */
  lemma EndIsHeld(w: World, travelflags: bv32, g: PortalUpdate, chains: seq<Chain>, r: PortalState, q: nat)
    requires Inv(w, travelflags, g, chains, r) && r.queue == [] && q < |w.portals|
    requires TakesTime(w, travelflags, g, r, q, chains[q])
    ensures Explained(w, travelflags, g, chains, r, q)
  {
  }
}
