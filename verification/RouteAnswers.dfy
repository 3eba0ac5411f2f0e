/** What the answer to a route query means. */
module RouteAnswers {
  import opened AasFile
  import opened RouteWorld
  import opened AreaRoutes
  import opened RouteQuery
  import PortalSearch

  /** Two different areas, both with reachabilities. */
  ghost predicate MayAsk(w: World, a: nat, goal: nat) {
    && w.Valid() && w.IsArea(a) && w.IsArea(goal) && a != goal
    && w.settings[a].numreachableareas > 0 && w.settings[goal].numreachableareas > 0
  }

  /** Both belong to cluster c, and they are not both portals. */
  ghost predicate Share(w: World, c: nat, a: nat, goal: nat)
    requires MayAsk(w, a, goal)
  {
    && w.IsCluster(c) && w.Member(c, a) && w.Member(c, goal)
    && (w.settings[a].cluster == c || w.settings[goal].cluster == c)
  }

  /** The travel flags that count: areas not to be entered may be if the route starts or ends in one. */
  ghost predicate FlagsCount(w: World, a: nat, goal: nat, travelflags: bv32, flags: bv32)
    requires MayAsk(w, a, goal)
  {
    var closed := w.settings[a].contents & AREACONTENTS_DONOTENTER != 0
      || w.settings[goal].contents & AREACONTENTS_DONOTENTER != 0;
    && (closed ==> flags == travelflags | TFL_DONOTENTER)
    && (!closed ==> flags == travelflags)
  }

  /** The answer is the time of walk p, 1 for being there and the way to its start included, and its first
      reachability. */
  ghost predicate AnswersWalk(w: World, c: nat, flags: bv32, goal: nat, a: nat, origin: Origin, answer: Answer, p: Walk)
    requires w.Valid()
  {
    && answer.Route? && IsWalk(w, c, flags, goal, a, p) && p.Take? && p.linknum == answer.reachnum
    && NoAreaTwice(w, a, p)
    && answer.traveltime == 1 + WalkTime(w, c, flags, goal, a, p)
         + (if origin.At? && 0 <= p.linknum < |origin.traveltimes| then origin.traveltimes[p.linknum] else 0)
  }

  lemma SharedIs(w: World, c: nat, a: nat, goal: nat)
    requires MayAsk(w, a, goal)
    ensures Share(w, c, a, goal) <==> c > 0 && SharedCluster(w, a, goal) == c
  {
    hide World.NumberedOk, World.SliceOk, World.ClosedUnderLinks, World.LinksOk, World.CrossingsOk, World.IsListed;
    AreaKnown(w, a);
    AreaKnown(w, goal);
    KnownPortal(w, a);
    KnownPortal(w, goal);
  }

  lemma KnownPortal(w: World, a: nat)
    requires w.Valid() && w.IsArea(a)
    ensures w.SizesOk() && -|w.portals| < w.settings[a].cluster < |w.clusters|
    ensures w.settings[a].cluster < 0 ==>
      var q := w.portals[-w.settings[a].cluster];
      0 < q.frontcluster < |w.clusters| && 0 < q.backcluster < |w.clusters| && q.frontcluster != q.backcluster
  {
    if w.settings[a].cluster < 0 {
      assert w.IsPortal(-w.settings[a].cluster);
    }
  }

  lemma FlagsAre(w: World, a: nat, goal: nat, travelflags: bv32, flags: bv32)
    requires MayAsk(w, a, goal)
    ensures FlagsCount(w, a, goal, travelflags, flags) <==> flags == QueryFlags(w, a, goal, travelflags)
  {
    hide World.Valid;
  }

  /** If a walk inside a cluster the areas share leads to the goal, the answer is that of such a walk. */
  lemma AnswerIsWalk(w: World, c: nat, a: nat, goal: nat, travelflags: bv32, flags: bv32, origin: Origin,
                     reachnum: int, p: Walk)
    requires MayAsk(w, a, goal) && Share(w, c, a, goal) && FlagsCount(w, a, goal, travelflags, flags)
    requires IsWalk(w, c, flags, goal, a, p)
    ensures exists q ::
      AnswersWalk(w, c, flags, goal, a, origin, RouteAnswer(w, a, goal, travelflags, origin, reachnum), q)
  {
    hide World.Valid, InsideRoute, OutsideRoute, IsWalk, SharedCluster, QueryFlags, NoAreaTwice, WalkTime, FlagsCount;
    SharedIs(w, c, a, goal);
    FlagsAre(w, a, goal, travelflags, flags);
    InsideRouteIsWalk(w, c, a, goal, flags, origin);
    var inside := InsideRoute(w, c, a, goal, flags, origin);
    assert RouteAnswer(w, a, goal, travelflags, origin, reachnum) == inside;
    var q :| IsWalk(w, c, flags, goal, a, q) && q.Take? && q.linknum == inside.reachnum && NoAreaTwice(w, a, q)
      && inside.traveltime == 1 + WalkTime(w, c, flags, goal, a, q)
           + (if origin.At? && 0 <= inside.reachnum < |origin.traveltimes| then origin.traveltimes[inside.reachnum]
             else 0);
    assert AnswersWalk(w, c, flags, goal, a, origin, inside, q);
  }

  /** The goal's cluster, for a portal the one in front of it. */
  ghost predicate GoesTo(w: World, goal: nat, c: nat)
    requires w.Valid() && w.IsArea(goal)
  {
    && w.IsCluster(c) && w.SizesOk()
    && (w.settings[goal].cluster == c
        || (w.settings[goal].cluster < 0 && w.portals[-w.settings[goal].cluster].frontcluster == c))
  }

  /** Otherwise it goes through portals: from an area of cluster k through the first of the fastest portals of k, if
      there is one; from a portal with the portal's time. */
  lemma AnswerGoesOut(w: World, a: nat, goal: nat, travelflags: bv32, flags: bv32, origin: Origin, reachnum: int,
                      c: nat)
    requires MayAsk(w, a, goal) && FlagsCount(w, a, goal, travelflags, flags) && GoesTo(w, goal, c)
    requires forall k: nat, p: Walk :: Share(w, k, a, goal) ==> !IsWalk(w, k, flags, goal, a, p)
    ensures w.Member(c, goal)
    ensures w.settings[a].cluster > 0 ==> w.IsCluster(w.settings[a].cluster) && w.Member(w.settings[a].cluster, a)
    ensures var answer, k := RouteAnswer(w, a, goal, travelflags, origin, reachnum), w.settings[a].cluster;
      var times := PortalSearch.PortalSearch(w, c, goal, flags).times;
      && (k < 0 ==> 0 < -k < |times| && answer == Route(times[-k], w.settings[a].firstreachablearea))
      && (k > 0 && (origin.At? || reachnum >= 0) && w.IsCluster(k) && w.Member(k, a)
          && CandidatesFit(w, k, a, flags, origin, times, reachnum) ==>
            match answer
            case NoRoute => forall j: nat | j < w.clusters[k].numportals :: !IsCandidate(w, k, a, flags, times, j)
            case Route(t, l) =>
              exists j: nat :: IsFirstBest(w, k, a, flags, origin, times, reachnum, t, l, w.clusters[k].numportals, j))
  {
    hide World.Valid, InsideRoute, IsWalk, SharedCluster, QueryFlags, FlagsCount, CandidatesFit, IsCandidate,
      IsFirstBest, ConsiderFrom, PortalSearch.PortalSearch;
    FlagsAre(w, a, goal, travelflags, flags);
    KnownPortal(w, a);
    KnownPortal(w, goal);
    NothingInside(w, a, goal, travelflags, flags, origin, reachnum);
    GoalClusterIsCluster(w, goal);
    GoalIsThere(w, goal, c);
    ClusterKnown(w, a);
    var k := w.settings[a].cluster;
    if k > 0 && (origin.At? || reachnum >= 0) && w.IsCluster(k) && w.Member(k, a)
      && CandidatesFit(w, k, a, flags, origin, GoalTimes(w, goal, flags), reachnum)
    {
      AnswerIsFirstBest(w, k, a, goal, flags, origin, reachnum);
    }
  }

  lemma GoalIsThere(w: World, goal: nat, c: nat)
    requires w.Valid() && w.IsArea(goal) && w.settings[goal].numreachableareas > 0 && GoesTo(w, goal, c)
    ensures w.IsCluster(c) && w.Member(c, goal)
    ensures forall flags :: GoalTimes(w, goal, flags) == PortalSearch.PortalSearch(w, c, goal, flags).times
  {
    hide PortalSearch.PortalSearch;
    GoalClusterIsCluster(w, goal);
  }

  lemma NothingInside(w: World, a: nat, goal: nat, travelflags: bv32, flags: bv32, origin: Origin, reachnum: int)
    requires MayAsk(w, a, goal) && flags == QueryFlags(w, a, goal, travelflags)
    requires forall k: nat, p: Walk :: Share(w, k, a, goal) ==> !IsWalk(w, k, flags, goal, a, p)
    ensures MayRoute(w, a, goal)
    ensures RouteAnswer(w, a, goal, travelflags, origin, reachnum) == OutsideRoute(w, a, goal, flags, origin, reachnum)
  {
    hide World.Valid, InsideRoute, IsWalk, SharedCluster, QueryFlags, OutsideRoute;
    AreaKnown(w, a);
    var c := SharedCluster(w, a, goal);
    if c > 0 {
      SharedIs(w, c, a, goal);
      InsideRouteIsWalk(w, c, a, goal, flags, origin);
    }
  }

  /** There is no way from nowhere, nor to nowhere, and none to take to where one is. */
  lemma AnswerWithoutSearch(w: World, a: int, goal: int, travelflags: bv32, origin: Origin, reachnum: int)
    requires w.Valid()
    ensures var answer := RouteAnswer(w, a, goal, travelflags, origin, reachnum);
      && (a == goal ==> answer == Route(1, 0))
      && (a != goal && !(0 < a < |w.settings| && 0 < goal < |w.settings|
                         && w.settings[a].numreachableareas > 0 && w.settings[goal].numreachableareas > 0)
          ==> answer == NoRoute)
  {
    hide World.Valid;
  }
}
