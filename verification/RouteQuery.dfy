/** Routes between areas, answered from the caches. The answer does not depend on what is cached. */
module RouteQuery {
  import opened AasFile
  import opened RouteWorld
  import opened PortalSearch
  import opened RouteCaches
  import opened AreaRoutes

  datatype Answer = NoRoute | Route(traveltime: nat, reachnum: int)

  /** Where a traveller stands in the start area: nowhere in particular, or the time from there to the
      start of each reachability. */
  datatype Origin = Anywhere | At(traveltimes: seq<nat>)

  function ToStart(origin: Origin, reachnum: int): nat {
    if origin.At? && 0 <= reachnum < |origin.traveltimes| then origin.traveltimes[reachnum] else 0
  }

  /** Is portal number p, an area with cluster -p, next to cluster c? */
  predicate NextTo(w: World, p: nat, c: nat)
    requires p < |w.portals|
  {
    w.portals[p].frontcluster == c || w.portals[p].backcluster == c
  }

  /** The cluster both areas are in, a portal counting as in the other area's cluster next to it; 0 if there is none. */
  function SharedCluster(w: World, a: nat, goal: nat): (c: nat)
    requires w.SizesOk() && a < |w.settings| && goal < |w.settings|
  {
    var ca, cg := w.settings[a].cluster, w.settings[goal].cluster;
    if ca < 0 && cg > 0 && NextTo(w, -ca, cg) then cg
    else if ca > 0 && cg < 0 && NextTo(w, -cg, ca) then ca
    else if ca > 0 && ca == cg then ca
    else 0
  }

  ghost predicate MayRoute(w: World, a: nat, goal: nat) {
    && w.Valid() && w.IsArea(a) && w.IsArea(goal)
    && w.settings[a].numreachableareas > 0 && w.settings[goal].numreachableareas > 0
  }

  lemma SharedIsCluster(w: World, a: nat, goal: nat)
    requires MayRoute(w, a, goal) && SharedCluster(w, a, goal) > 0
    ensures var c := SharedCluster(w, a, goal);
      w.IsCluster(c) && w.Member(c, a) && w.Member(c, goal)
        && w.ClusterAreaNum(c, a) < w.clusters[c].numreachabilityareas
  {
    assert w.NumberedOk(SharedCluster(w, a, goal));
  }

  lemma GoalClusterIsCluster(w: World, goal: nat)
    requires w.Valid() && w.IsArea(goal) && w.settings[goal].numreachableareas > 0
    ensures var c := GoalCluster(w, goal); w.IsCluster(c) && w.Member(c, goal)
  {
    if w.settings[goal].cluster < 0 {
      assert w.IsPortal(-w.settings[goal].cluster);
    }
  }

  /** The route found inside one cluster, if there is one. */
  ghost function InsideRoute(w: World, c: nat, a: nat, goal: nat, travelflags: bv32, origin: Origin): Answer
    requires w.Valid() && w.IsCluster(c) && w.Member(c, a) && w.Member(c, goal)
    requires w.ClusterAreaNum(c, a) < w.clusters[c].numreachabilityareas
  {
    var r := w.AreaSearch(c, goal, travelflags, 1);
    var n := w.ClusterAreaNum(c, a);
    if r.times[n] == 0 then NoRoute
    else
      var reachnum := w.settings[a].firstreachablearea + r.exit[n];
      Route(r.times[n] + ToStart(origin, reachnum), reachnum)
  }

  /** Best choice so far: its time, 0 for none, and its reachability. */
  datatype Choice = Choice(besttime: nat, bestreachnum: int, reachnum: int)

  /** Consider leaving cluster c through its portal number i. */
  ghost function ConsiderPortal(w: World, c: nat, a: nat, travelflags: bv32, origin: Origin, times: seq<nat>,
                                b: Choice, i: nat): Choice
    requires w.Valid() && w.IsCluster(c) && w.Member(c, a) && i < w.clusters[c].numportals && |times| == |w.portals|
  {
    var p := PortalOf(w, c, i);
    var n := w.ClusterAreaNum(c, a);
    if times[p] == 0 || n >= w.clusters[c].numreachabilityareas then b
    else
      var r := w.AreaSearch(c, w.portals[p].areanum, travelflags, 1);
      if r.times[n] == 0 then b
      else
        var reachnum := if origin.At? then w.settings[a].firstreachablearea + r.exit[n] else b.reachnum;
        var t0 := (times[p] + r.times[n] + w.portalmaxtraveltimes[p]) % 65536;
        var t := if origin.At? then (t0 + ToStart(origin, reachnum)) % 65536 else t0;
        if b.besttime == 0 || t < b.besttime then Choice(t, reachnum, reachnum) else b.(reachnum := reachnum)
  }

  ghost function ConsiderFrom(w: World, c: nat, a: nat, travelflags: bv32, origin: Origin, times: seq<nat>, b: Choice,
                              i: nat): Choice
    requires w.Valid() && w.IsCluster(c) && w.Member(c, a) && i <= w.clusters[c].numportals && |times| == |w.portals|
    decreases w.clusters[c].numportals - i
  {
    if i == w.clusters[c].numportals then b
    else ConsiderFrom(w, c, a, travelflags, origin, times, ConsiderPortal(w, c, a, travelflags, origin, times, b, i),
      i + 1)
  }

  /** Times from the portals to the goal. */
  ghost function GoalTimes(w: World, goal: nat, travelflags: bv32): (times: seq<nat>)
    requires w.Valid() && w.IsArea(goal) && w.settings[goal].numreachableareas > 0
    ensures |times| == |w.portals|
  {
    GoalClusterIsCluster(w, goal);
    PortalSearch.PortalSearch(w, GoalCluster(w, goal), goal, travelflags).times
  }

  /** The route through portals: from a portal its own time, from any other area the best portal of its cluster. */
  ghost function OutsideRoute(w: World, a: nat, goal: nat, travelflags: bv32, origin: Origin, reachnum: int): Answer
    requires MayRoute(w, a, goal)
  {
    var times := GoalTimes(w, goal, travelflags);
    var c := w.settings[a].cluster;
    if c < 0 then Route(times[-c], w.settings[a].firstreachablearea)
    else
      var b := ConsiderFrom(w, c, a, travelflags, origin, times, Choice(0, -1, reachnum), 0);
      if b.bestreachnum < 0 then NoRoute else Route(b.besttime, b.bestreachnum)
  }

  /** Travel flags of a query: an area not to be entered may be when it is where the route starts or ends. */
  function QueryFlags(w: World, a: nat, goal: nat, travelflags: bv32): bv32
    requires a < |w.settings| && goal < |w.settings|
  {
    if w.settings[a].contents & AREACONTENTS_DONOTENTER != 0 || w.settings[goal].contents & AREACONTENTS_DONOTENTER != 0
    then travelflags | TFL_DONOTENTER else travelflags
  }

  /** The answer to a route query. */
  ghost function RouteAnswer(w: World, a: int, goal: int, travelflags: bv32, origin: Origin, reachnum: int): Answer
    requires w.Valid()
  {
    if a == goal then Route(1, 0)
    else if a <= 0 || a >= |w.settings| || goal <= 0 || goal >= |w.settings| then NoRoute
    else if w.settings[a].numreachableareas == 0 || w.settings[goal].numreachableareas == 0 then NoRoute
    else
      var flags := QueryFlags(w, a, goal, travelflags);
      var c := SharedCluster(w, a, goal);
      var inside := if c == 0 then NoRoute
        else (SharedIsCluster(w, a, goal); InsideRoute(w, c, a, goal, flags, origin));
      if inside.Route? then inside else OutsideRoute(w, a, goal, flags, origin, reachnum)
  }

  /** No sum of a search behind the query reaches 65536. */
  ghost predicate SearchesFit(w: World, a: int, goal: int, travelflags: bv32)
    requires w.Valid()
  {
    (0 < a < |w.settings| && 0 < goal < |w.settings| && a != goal
     && w.settings[a].numreachableareas > 0 && w.settings[goal].numreachableareas > 0) ==>
      (GoalClusterIsCluster(w, goal);
       var flags := QueryFlags(w, a, goal, travelflags);
       && (forall c: nat, b: nat | w.IsCluster(c) && w.Member(c, b) :: w.AreaSearch(c, b, flags, 1).fits)
       && PortalSearch.PortalSearch(w, GoalCluster(w, goal), goal, flags).fits)
  }

  /** While memory is short (found so at most `shortages` times), evict the oldest cache. */
  method EvictWhileShort(r: Routing, shortages: nat)
    requires r.Valid()
    modifies r`routingcachesize, r.time, r.table, r.table.members
    ensures r.Valid() && r.table.members <= old(r.table.members)
  {
    hide Routing.Valid, OldestEvictable, Evictable;
    for i := 0 to shortages
      invariant r.Valid() && r.table.members <= old(r.table.members)
    {
      var freed := r.FreeOldestCache();
      if !freed { break; }
    }
  }

  /** The route inside one cluster, read from the area cache towards the goal. */
  method QueryInside(r: Routing, c: nat, a: nat, goal: nat, travelflags: bv32, origin: Origin) returns (answer: Answer)
    requires r.Valid() && r.w.IsCluster(c) && r.w.Member(c, a) && r.w.Member(c, goal)
    requires r.w.ClusterAreaNum(c, a) < r.w.clusters[c].numreachabilityareas
    requires r.w.AreaSearch(c, goal, travelflags, 1).fits
    modifies r`routingcachesize, r.time, r.table, r.table.members
    modifies r.router.areaupdate, r.router.updateheap, r.router.updateheappos
    ensures r.Valid() && fresh(r.table.members - old(r.table.members)) && old(r.table.members) <= r.table.members
    ensures answer == InsideRoute(r.w, c, a, goal, travelflags, origin)
  {
    hide Routing.ValidBut, World.Valid, World.AreaSearch, Correct;
    var areacache := r.GetAreaRoutingCache(c, goal, travelflags, []);
    r.AreaTimesHeld(areacache, []);
    AreaKnown(r.w, a);
    var clusterareanum := r.w.ClusterAreaNum(c, a);
    if areacache.traveltimes[clusterareanum] != 0 {
      var reachnum := r.w.settings[a].firstreachablearea + areacache.reachabilities[clusterareanum];
      answer := Route(areacache.traveltimes[clusterareanum] + ToStart(origin, reachnum), reachnum);
    } else {
      answer := NoRoute;
    }
  }

  lemma AreaKnown(w: World, a: nat)
    requires w.Valid() && w.IsArea(a)
    ensures -|w.portals| < w.settings[a].cluster < |w.clusters| && w.SizesOk()
  {
  }

  /** Consider one portal, reading the area cache towards it. */
  method QueryPortal(r: Routing, c: nat, a: nat, travelflags: bv32, origin: Origin, times: seq<nat>, b: Choice, i: nat)
    returns (b': Choice)
    requires r.Valid() && r.w.IsCluster(c) && r.w.Member(c, a) && i < r.w.clusters[c].numportals
      && |times| == |r.w.portals|
    requires r.AreaSearchesFit(travelflags)
    modifies r`routingcachesize, r.time, r.table, r.table.members
    modifies r.router.areaupdate, r.router.updateheap, r.router.updateheappos
    ensures r.Valid() && fresh(r.table.members - old(r.table.members)) && old(r.table.members) <= r.table.members
    ensures b' == ConsiderPortal(r.w, c, a, travelflags, origin, times, b, i)
  {
    hide Routing.ValidBut, World.Valid, World.AreaSearch, World.ClusterAreaNum, ToStart, Routing.Ready,
      Routing.ListsOk, AllCorrect, Correct;
    var p := PortalOf(r.w, c, i);
    b' := b;
    if times[p] == 0 { return; }
    var areacache := r.GetAreaRoutingCache(c, r.w.portals[p].areanum, travelflags, []);
    r.AreaTimesHeld(areacache, []);
    AreaKnown(r.w, a);
    var clusterareanum := r.w.ClusterAreaNum(c, a);
    if clusterareanum >= r.w.clusters[c].numreachabilityareas { return; }
    if areacache.traveltimes[clusterareanum] == 0 { return; }
    var t := (times[p] + areacache.traveltimes[clusterareanum] + r.w.portalmaxtraveltimes[p]) % 65536;
    if origin.At? {
      b' := b'.(reachnum := r.w.settings[a].firstreachablearea + areacache.reachabilities[clusterareanum]);
      t := (t + ToStart(origin, b'.reachnum)) % 65536;
    }
    if b.besttime == 0 || t < b.besttime {
      b' := Choice(t, b'.reachnum, b'.reachnum);
    }
  }

  /** The best portal of the area's cluster to leave through. */
  method QueryPortals(r: Routing, c: nat, a: nat, travelflags: bv32, origin: Origin, times: seq<nat>, reachnum: int)
    returns (b: Choice)
    requires r.Valid() && r.w.IsCluster(c) && r.w.Member(c, a) && |times| == |r.w.portals|
    requires r.AreaSearchesFit(travelflags)
    modifies r`routingcachesize, r.time, r.table, r.table.members
    modifies r.router.areaupdate, r.router.updateheap, r.router.updateheappos
    ensures r.Valid()
    ensures b == ConsiderFrom(r.w, c, a, travelflags, origin, times, Choice(0, -1, reachnum), 0)
  {
    hide Routing.ValidBut, Routing.Valid, World.Valid, ConsiderPortal, Routing.AreaSearchesFit;
    r.WorldIsValid();
    b := Choice(0, -1, reachnum);
    for i := 0 to r.w.clusters[c].numportals
      invariant r.Valid() && fresh(r.table.members - old(r.table.members)) && old(r.table.members) <= r.table.members
      invariant ConsiderFrom(r.w, c, a, travelflags, origin, times, b, i)
             == ConsiderFrom(r.w, c, a, travelflags, origin, times, Choice(0, -1, reachnum), 0)
    {
      b := QueryPortal(r, c, a, travelflags, origin, times, b, i);
    }
  }

  /** The route through portals, read from the portal cache towards the goal. */
  method QueryOutside(r: Routing, a: nat, goal: nat, travelflags: bv32, origin: Origin, reachnum: int)
    returns (answer: Answer)
    requires r.Valid() && MayRoute(r.w, a, goal) && r.AreaSearchesFit(travelflags)
    requires r.GoalIsMember(goal, GoalCluster(r.w, goal))
    requires PortalSearch.PortalSearch(r.w, GoalCluster(r.w, goal), goal, travelflags).fits
    modifies r`routingcachesize, r.time, r.table, r.table.members
    modifies r.router.areaupdate, r.router.updateheap, r.router.updateheappos, r.portalupdate
    ensures r.Valid()
    ensures answer == OutsideRoute(r.w, a, goal, travelflags, origin, reachnum)
  {
    hide Routing.ValidBut, World.Valid, ConsiderFrom, Routing.AreaSearchesFit, Correct, PortalSearch.PortalSearch;
    AreaKnown(r.w, goal);
    var portalcache := r.GetPortalRoutingCache(GoalCluster(r.w, goal), goal, travelflags);
    r.PortalTimesHeld(portalcache, []);
    AreaKnown(r.w, a);
    ClusterKnown(r.w, a);
    var clusternum := r.w.settings[a].cluster;
    var times := portalcache.traveltimes[..];
    if clusternum < 0 {
      answer := Route(times[-clusternum], r.w.settings[a].firstreachablearea + portalcache.reachabilities[-clusternum]);
    } else {
      var b := QueryPortals(r, clusternum, a, travelflags, origin, times, reachnum);
      answer := if b.bestreachnum < 0 then NoRoute else Route(b.besttime, b.bestreachnum);
    }
  }

  lemma ClusterKnown(w: World, a: nat)
    requires w.Valid() && w.IsArea(a) && w.settings[a].numreachableareas > 0
    ensures var c := w.settings[a].cluster; c > 0 ==> w.IsCluster(c) && w.Member(c, a)
    ensures w.settings[a].cluster != 0
  {
  }

  /** A route query. Its answer is a function of the world and the query alone: what happens to be cached,
      and what is evicted on the way, makes no difference. */
  method AreaRouteToGoalArea(r: Routing, areanum: int, goalareanum: int, travelflags: bv32, origin: Origin,
                             reachnum: int, shortages: nat)
    returns (answer: Answer)
    requires r.Valid() && r.w.Valid() && SearchesFit(r.w, areanum, goalareanum, travelflags)
    modifies r`routingcachesize, r.time, r.table, r.table.members
    modifies r.router.areaupdate, r.router.updateheap, r.router.updateheappos, r.portalupdate
    ensures r.Valid()
    ensures answer == RouteAnswer(r.w, areanum, goalareanum, travelflags, origin, reachnum)
  {
    hide Routing.Valid, World.Valid, PortalSearch.PortalSearch, QueryFlags, OutsideRoute, InsideRoute, SharedCluster;
    if areanum == goalareanum { return Route(1, 0); }
    if areanum <= 0 || areanum >= |r.w.settings| || goalareanum <= 0 || goalareanum >= |r.w.settings| {
      return NoRoute;
    }
    if r.w.settings[areanum].numreachableareas == 0 || r.w.settings[goalareanum].numreachableareas == 0 {
      return NoRoute;
    }
    EvictWhileShort(r, shortages);
    var flags := QueryFlags(r.w, areanum, goalareanum, travelflags);
    GoalClusterIsCluster(r.w, goalareanum);
    answer := QueryReachable(r, areanum, goalareanum, flags, origin, reachnum);
  }

  /** The route between two different areas with reachabilities: inside a shared cluster if there is one, else through
      portals. */
  method QueryReachable(r: Routing, a: nat, goal: nat, flags: bv32, origin: Origin, reachnum: int)
    returns (answer: Answer)
    requires r.Valid() && MayRoute(r.w, a, goal) && r.AreaSearchesFit(flags)
    requires r.GoalIsMember(goal, GoalCluster(r.w, goal))
    requires PortalSearch.PortalSearch(r.w, GoalCluster(r.w, goal), goal, flags).fits
    modifies r`routingcachesize, r.time, r.table, r.table.members
    modifies r.router.areaupdate, r.router.updateheap, r.router.updateheappos, r.portalupdate
    ensures r.Valid()
    ensures var c := SharedCluster(r.w, a, goal);
      var inside := if c == 0 then NoRoute
        else (SharedIsCluster(r.w, a, goal); InsideRoute(r.w, c, a, goal, flags, origin));
      answer == if inside.Route? then inside else OutsideRoute(r.w, a, goal, flags, origin, reachnum)
  {
    hide Routing.Valid, World.Valid, PortalSearch.PortalSearch, OutsideRoute, InsideRoute, SharedCluster;
    AreaKnown(r.w, a);
    AreaKnown(r.w, goal);
    var c := SharedCluster(r.w, a, goal);
    answer := NoRoute;
    if c > 0 {
      SharedIsCluster(r.w, a, goal);
      answer := QueryInside(r, c, a, goal, flags, origin);
    }
    if answer.NoRoute? {
      answer := QueryOutside(r, a, goal, flags, origin, reachnum);
    }
  }

  // ----- what an answer means

  /** A route inside a cluster starts a walk to the goal that takes the answered time, less 1, less the time
      to reach its start; there is none exactly when there is no walk. */
  lemma InsideRouteIsWalk(w: World, c: nat, a: nat, goal: nat, travelflags: bv32, origin: Origin)
    requires w.Valid() && w.IsCluster(c) && w.Member(c, a) && w.Member(c, goal) && a != goal
    requires w.settings[a].numreachableareas > 0 && w.settings[goal].numreachableareas > 0
    ensures w.ClusterAreaNum(c, a) < w.clusters[c].numreachabilityareas
    ensures match InsideRoute(w, c, a, goal, travelflags, origin)
      case NoRoute => forall p :: !IsWalk(w, c, travelflags, goal, a, p)
      case Route(t, l) =>
        exists p :: (IsWalk(w, c, travelflags, goal, a, p) && p.Take? && p.linknum == l && NoAreaTwice(w, a, p)
          && t == 1 + WalkTime(w, c, travelflags, goal, a, p)
                  + (if origin.At? && 0 <= l < |origin.traveltimes| then origin.traveltimes[l] else 0))
  {
    hide World.Valid, World.AreaSearch, IsWalk, WalkTime, NoAreaTwice;
    ReachedIffWalk(w, c, travelflags, goal, 1, a);
    if InsideRoute(w, c, a, goal, travelflags, origin).Route? {
      var p := StoredWalk(w, c, travelflags, goal, 1, a);
    }
  }

  /** Can cluster c be left through its portal number i? */
  ghost predicate IsCandidate(w: World, c: nat, a: nat, travelflags: bv32, times: seq<nat>, i: nat)
    requires w.Valid() && w.IsCluster(c) && w.Member(c, a) && i < w.clusters[c].numportals && |times| == |w.portals|
  {
    var p := PortalOf(w, c, i);
    && times[p] != 0 && w.ClusterAreaNum(c, a) < w.clusters[c].numreachabilityareas
    && w.AreaSearch(c, w.portals[p].areanum, travelflags, 1).times[w.ClusterAreaNum(c, a)] != 0
  }

  /** Reachability and time of leaving through portal number i: to the portal, across it, on to the goal. */
  ghost function CandidateRoute(w: World, c: nat, a: nat, travelflags: bv32, origin: Origin, times: seq<nat>,
                                reachnum: int, i: nat): (nat, int)
    requires w.Valid() && w.IsCluster(c) && w.Member(c, a) && i < w.clusters[c].numportals && |times| == |w.portals|
    requires IsCandidate(w, c, a, travelflags, times, i)
  {
    var p := PortalOf(w, c, i);
    var r := w.AreaSearch(c, w.portals[p].areanum, travelflags, 1);
    var n := w.ClusterAreaNum(c, a);
    var l := if origin.At? then w.settings[a].firstreachablearea + r.exit[n] else reachnum;
    (times[p] + r.times[n] + w.portalmaxtraveltimes[p]
     + (if origin.At? && 0 <= l < |origin.traveltimes| then origin.traveltimes[l] else 0), l)
  }

  /** Portal number j is the first of the fastest of the first i, taking time t with reachability l. */
  ghost predicate IsFirstBest(w: World, c: nat, a: nat, travelflags: bv32, origin: Origin, times: seq<nat>,
                              reachnum: int,
                              t: nat, l: int, i: nat, j: nat)
    requires w.Valid() && w.IsCluster(c) && w.Member(c, a) && i <= w.clusters[c].numportals && |times| == |w.portals|
  {
    && j < i && IsCandidate(w, c, a, travelflags, times, j)
    && CandidateRoute(w, c, a, travelflags, origin, times, reachnum, j) == (t, l)
    && (forall k: nat | k < j && IsCandidate(w, c, a, travelflags, times, k) ::
          t < CandidateRoute(w, c, a, travelflags, origin, times, reachnum, k).0)
    && (forall k: nat | k < i && IsCandidate(w, c, a, travelflags, times, k) ::
          t <= CandidateRoute(w, c, a, travelflags, origin, times, reachnum, k).0)
  }

  /** b is the best of the first i portals. */
  ghost predicate IsBest(w: World, c: nat, a: nat, travelflags: bv32, origin: Origin, times: seq<nat>, reachnum: int,
                         b: Choice, i: nat)
    requires w.Valid() && w.IsCluster(c) && w.Member(c, a) && i <= w.clusters[c].numportals && |times| == |w.portals|
  {
    && (origin.Anywhere? ==> b.reachnum == reachnum)
    && if b.bestreachnum < 0 then b.besttime == 0
    && forall j: nat | j < i :: !IsCandidate(w, c, a, travelflags, times, j)
       else
         b.besttime > 0
           && exists j: nat ::
             IsFirstBest(w, c, a, travelflags, origin, times, reachnum, b.besttime, b.bestreachnum, i, j)
  }

  ghost predicate CandidatesFit(w: World, c: nat, a: nat, travelflags: bv32, origin: Origin, times: seq<nat>,
                                reachnum: int)
    requires w.Valid() && w.IsCluster(c) && w.Member(c, a) && |times| == |w.portals|
  {
    forall j: nat | j < w.clusters[c].numportals && IsCandidate(w, c, a, travelflags, times, j) ::
      CandidateRoute(w, c, a, travelflags, origin, times, reachnum, j).0 < 65536
  }

  /** Of all ways to leave the cluster towards the goal, the fastest is chosen, and there is none exactly
      when no portal of the cluster will do. */
  lemma {:induction false} BestPortalIsChosen(w: World, c: nat, a: nat, travelflags: bv32, origin: Origin,
                                              times: seq<nat>,
                                              reachnum: int, b: Choice, i: nat)
    requires w.Valid() && w.IsCluster(c) && w.Member(c, a) && i <= w.clusters[c].numportals && |times| == |w.portals|
    requires (origin.At? || reachnum >= 0) && CandidatesFit(w, c, a, travelflags, origin, times, reachnum)
    requires IsBest(w, c, a, travelflags, origin, times, reachnum, b, i)
    ensures IsBest(w, c, a, travelflags, origin, times, reachnum,
      ConsiderFrom(w, c, a, travelflags, origin, times, b, i),
                   w.clusters[c].numportals)
    decreases w.clusters[c].numportals - i
  {
    hide World.Valid, World.AreaSearch, IsBest, ConsiderPortal;
    if i < w.clusters[c].numportals {
      ConsideredIsBest(w, c, a, travelflags, origin, times, reachnum, b, i);
      BestPortalIsChosen(w, c, a, travelflags, origin, times, reachnum,
        ConsiderPortal(w, c, a, travelflags, origin, times, b, i), i + 1);
    }
  }

  /** Without a route inside a shared cluster, the answer for an area that is no portal goes through the first of the
      fastest portals of its cluster; there is none exactly if no portal of the cluster will do. */
  lemma AnswerIsFirstBest(w: World, c: nat, a: nat, goal: nat, travelflags: bv32, origin: Origin, reachnum: int)
    requires MayRoute(w, a, goal) && w.IsCluster(c) && w.settings[a].cluster == c && w.Member(c, a)
    requires origin.At? || reachnum >= 0
    requires CandidatesFit(w, c, a, travelflags, origin, GoalTimes(w, goal, travelflags), reachnum)
    ensures match OutsideRoute(w, a, goal, travelflags, origin, reachnum)
      case NoRoute => forall j: nat | j < w.clusters[c].numportals ::
        !IsCandidate(w, c, a, travelflags, GoalTimes(w, goal, travelflags), j)
      case Route(t, l) => exists j: nat ::
        IsFirstBest(w, c, a, travelflags, origin, GoalTimes(w, goal, travelflags), reachnum, t, l,
          w.clusters[c].numportals, j)
  {
    hide World.Valid, World.AreaSearch, IsFirstBest, IsCandidate, CandidatesFit, ConsiderFrom, GoalTimes;
    BestPortalIsChosen(w, c, a, travelflags, origin, GoalTimes(w, goal, travelflags), reachnum,
      Choice(0, -1, reachnum), 0);
  }

  lemma ConsideredIsBest(w: World, c: nat, a: nat, travelflags: bv32, origin: Origin, times: seq<nat>,
                         reachnum: int, b: Choice, i: nat)
    requires w.Valid() && w.IsCluster(c) && w.Member(c, a) && i < w.clusters[c].numportals && |times| == |w.portals|
    requires (origin.At? || reachnum >= 0) && CandidatesFit(w, c, a, travelflags, origin, times, reachnum)
    requires IsBest(w, c, a, travelflags, origin, times, reachnum, b, i)
    ensures IsBest(w, c, a, travelflags, origin, times, reachnum,
      ConsiderPortal(w, c, a, travelflags, origin, times, b, i), i + 1)
  {
    hide World.Valid, World.AreaSearch, IsFirstBest, IsCandidate, CandidateRoute, ConsiderPortal, CandidatesFit;
    ConsiderCandidate(w, c, a, travelflags, origin, times, reachnum, b, i);
    if IsCandidate(w, c, a, travelflags, times, i)
      && (b.besttime == 0 || CandidateRoute(w, c, a, travelflags, origin, times, reachnum, i).0 < b.besttime) {
      NewBest(w, c, a, travelflags, origin, times, reachnum, b, i);
    } else if b.bestreachnum >= 0 {
      var j: nat :| IsFirstBest(w, c, a, travelflags, origin, times, reachnum, b.besttime, b.bestreachnum, i, j);
      StillBest(w, c, a, travelflags, origin, times, reachnum, b.besttime, b.bestreachnum, i, j);
    }
  }

  lemma NewBest(w: World, c: nat, a: nat, travelflags: bv32, origin: Origin, times: seq<nat>, reachnum: int, b: Choice,
                i: nat)
    requires w.Valid() && w.IsCluster(c) && w.Member(c, a) && i < w.clusters[c].numportals && |times| == |w.portals|
    requires IsBest(w, c, a, travelflags, origin, times, reachnum, b, i) && IsCandidate(w, c, a, travelflags, times, i)
    requires b.besttime == 0 || CandidateRoute(w, c, a, travelflags, origin, times, reachnum, i).0 < b.besttime
    ensures var k := CandidateRoute(w, c, a, travelflags, origin, times, reachnum, i);
      IsFirstBest(w, c, a, travelflags, origin, times, reachnum, k.0, k.1, i + 1, i)
  {
    hide World.Valid, World.AreaSearch, IsCandidate, CandidateRoute;
  }

  lemma StillBest(w: World, c: nat, a: nat, travelflags: bv32, origin: Origin, times: seq<nat>, reachnum: int, t: nat,
                  l: int, i: nat, j: nat)
    requires w.Valid() && w.IsCluster(c) && w.Member(c, a) && i < w.clusters[c].numportals && |times| == |w.portals|
    requires IsFirstBest(w, c, a, travelflags, origin, times, reachnum, t, l, i, j)
    requires IsCandidate(w, c, a, travelflags, times, i) ==>
      t <= CandidateRoute(w, c, a, travelflags, origin, times, reachnum, i).0
    ensures IsFirstBest(w, c, a, travelflags, origin, times, reachnum, t, l, i + 1, j)
  {
    hide World.Valid, World.AreaSearch, IsCandidate, CandidateRoute;
  }

  /** One portal more: it is taken if it is the first or a better candidate. */
  lemma ConsiderCandidate(w: World, c: nat, a: nat, travelflags: bv32, origin: Origin, times: seq<nat>,
                          reachnum: int, b: Choice, i: nat)
    requires w.Valid() && w.IsCluster(c) && w.Member(c, a) && i < w.clusters[c].numportals && |times| == |w.portals|
    requires CandidatesFit(w, c, a, travelflags, origin, times, reachnum)
    requires origin.Anywhere? ==> b.reachnum == reachnum
    ensures var r := ConsiderPortal(w, c, a, travelflags, origin, times, b, i);
      && (origin.Anywhere? ==> r.reachnum == reachnum)
      && if !IsCandidate(w, c, a, travelflags, times, i) then r.besttime == b.besttime
      && r.bestreachnum == b.bestreachnum
         else
           var k := CandidateRoute(w, c, a, travelflags, origin, times, reachnum, i);
           && k.0 > 0 && (origin.At? ==> k.1 >= 0) && (origin.Anywhere? ==> k.1 == reachnum)
           && if b.besttime == 0 || k.0 < b.besttime then r.besttime == k.0 && r.bestreachnum == k.1
              else r.besttime == b.besttime && r.bestreachnum == b.bestreachnum
  {
    hide World.Valid, World.SizesOk, World.AreaSearch;
    AreaKnown(w, a);
    if IsCandidate(w, c, a, travelflags, times, i) {
      var p := PortalOf(w, c, i);
      var time: nat, through: nat := times[p], w.AreaSearch(c, w.portals[p].areanum, travelflags,
        1).times[w.ClusterAreaNum(c, a)];
      assert time > 0 && through > 0;
      assert CandidateRoute(w, c, a, travelflags, origin, times, reachnum, i).0 < 65536;
    }
  }
}
