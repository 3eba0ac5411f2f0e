/** When no sum of the portal search, and of a whole route query, can reach 65536. */
module PortalBounds {
  import opened RouteWorld
  import opened PortalSearch
  import opened RouteCaches
  import opened RouteQuery
  import TimeBounds

  /** What the greatest times amount to: t for a way inside a cluster, x for crossing a portal. */
  ghost predicate HopsBelow(w: World, travelflags: bv32, t: nat, x: nat)
    requires w.Valid()
  {
    && (forall c: nat, a: nat, v: nat | w.IsCluster(c) && w.Member(c, a)
          && v < |w.AreaSearch(c, a, travelflags, 1).times| ::
          w.AreaSearch(c, a, travelflags, 1).times[v] <= t)
    && (forall p | 0 <= p < |w.portalmaxtraveltimes| :: w.portalmaxtraveltimes[p] <= x)
  }

  /** Portals that have a time. */
  ghost function Reached(s: PortalState): int { |s.times| - Unset(s.times) }

  lemma {:induction false} UnsetBelow(times: seq<nat>)
    ensures 0 <= Unset(times) <= |times|
    ensures (exists p :: 0 <= p < |times| && times[p] == 0) ==> Unset(times) > 0
  {
    if times != [] {
      UnsetBelow(times[1..]);
      if p :| 0 < p < |times| && times[p] == 0 {
        assert times[1..][p - 1] == 0;
      }
    }
  }

  /** The most a time can be by now: k for every portal reached. */
  ghost function Limit(s: PortalState, k: nat): int { 1 + Reached(s) * k }

  /** No time is beyond the limit, even with the crossing of its portal. */
  ghost predicate Low(s: PortalState, k: nat, x: nat) {
    && (forall p | 0 <= p < |s.times| :: s.times[p] != 0 ==> s.times[p] + x <= Limit(s, k))
    && (forall i | 0 <= i < |s.queue| :: s.queue[i] < |s.updates| && s.updates[s.queue[i]].tmptraveltime <= Limit(s, k))
  }

  lemma LimitDrops(s: PortalState, r: PortalState, k: nat, p: nat, t: nat)
    requires p < |s.times| && t > 0 && r.times == s.times[p := t]
    ensures Limit(r, k) == Limit(s, k) + if s.times[p] == 0 then k else 0
  {
    Drop(s.times, p, t);
    UnsetBelow(s.times);
    UnsetBelow(r.times);
    if s.times[p] == 0 {
      TimeBounds.StepMore(Reached(s), k);
    }
  }

  lemma LimitBelow(s: PortalState, k: nat)
    ensures 1 <= Limit(s, k) <= 1 + |s.times| * k
  {
    UnsetBelow(s.times);
    TimeBounds.MoreSteps(0, Reached(s), k);
    TimeBounds.MoreSteps(Reached(s), |s.times|, k);
  }

  lemma VisitLow(w: World, travelflags: bv32, s: PortalState, u: PortalUpdate, i: nat, t: nat, x: nat)
    requires StateOk(w, s) && UpdateOk(w, u) && i < w.clusters[u.cluster].numportals && HopsBelow(w, travelflags, t, x)
    requires s.fits && Low(s, t + x, x) && u.tmptraveltime <= Limit(s, t + x) && 1 + (|w.portals| + 1) * (t + x) < 65536
    ensures var r := Visit(w, travelflags, s, u, i);
      r.fits && Low(r, t + x, x) && Limit(s, t + x) <= Limit(r, t + x)
  {
    hide World.Valid, TimeInCluster, OtherSide, Limit;
    var p := PortalOf(w, u.cluster, i);
    var r := Visit(w, travelflags, s, u, i);
    HopBelow(w, travelflags, u, p, t, x);
    LimitBelow(s, t + x);
    TimeBounds.StepMore(|w.portals|, t + x);
    var t1 := TimeInCluster(w, travelflags, u, p) + u.tmptraveltime;
    if t1 > u.tmptraveltime && (s.times[p] == 0 || s.times[p] > t1) {
      LimitDrops(s, r, t + x, p, t1);
    } else {
      SameLimit(s, r, t + x);
    }
  }

  lemma SameLimit(s: PortalState, r: PortalState, k: nat)
    requires r.times == s.times
    ensures Limit(r, k) == Limit(s, k)
  {
  }

  lemma HopBelow(w: World, travelflags: bv32, u: PortalUpdate, p: nat, t: nat, x: nat)
    requires UpdateOk(w, u) && 0 < p < |w.portals| && w.Member(u.cluster, w.portals[p].areanum)
      && HopsBelow(w, travelflags, t, x)
    ensures TimeInCluster(w, travelflags, u, p) <= t && p < |w.portalmaxtraveltimes| && w.portalmaxtraveltimes[p] <= x
  {
  }

  lemma {:induction false} VisitFromLow(w: World, travelflags: bv32, s: PortalState, u: PortalUpdate, i: nat, t: nat,
                                        x: nat)
    requires StateOk(w, s) && UpdateOk(w, u) && i <= w.clusters[u.cluster].numportals && HopsBelow(w, travelflags, t, x)
    requires s.fits && Low(s, t + x, x) && u.tmptraveltime <= Limit(s, t + x) && 1 + (|w.portals| + 1) * (t + x) < 65536
    ensures VisitFrom(w, travelflags, s, u, i).fits && Low(VisitFrom(w, travelflags, s, u, i), t + x, x)
    decreases w.clusters[u.cluster].numportals - i
  {
    hide World.Valid, Visit, Low, Limit, HopsBelow;
    if i < w.clusters[u.cluster].numportals {
      VisitLow(w, travelflags, s, u, i, t, x);
      VisitFromLow(w, travelflags, Visit(w, travelflags, s, u, i), u, i + 1, t, x);
    }
  }

  lemma {:induction false} RunLow(w: World, travelflags: bv32, s: PortalState, t: nat, x: nat)
    requires StateOk(w, s) && HopsBelow(w, travelflags, t, x)
    requires s.fits && Low(s, t + x, x) && 1 + (|w.portals| + 1) * (t + x) < 65536
    ensures Run(w, travelflags, s).fits && Low(Run(w, travelflags, s), t + x, x)
    decreases Unset(s.times), Sum(s.times), |s.queue|
  {
    hide World.Valid, VisitFrom, HopsBelow;
    if s.queue != [] {
      var rest := s.(queue := s.queue[1..]);
      VisitFromLow(w, travelflags, rest, s.updates[s.queue[0]], 0, t, x);
      RoundDrops(w, travelflags, s);
      RunLow(w, travelflags, Round(w, travelflags, s), t, x);
    }
  }

  /** The portal search fits if one way inside a cluster and one crossing for every portal and one more stay below
      65536. */
  lemma PortalSearchFits(w: World, c: nat, goal: nat, travelflags: bv32, t: nat, x: nat)
    requires w.Valid() && w.IsCluster(c) && w.Member(c, goal) && HopsBelow(w, travelflags, t, x)
    requires 1 + (|w.portals| + 1) * (t + x) < 65536
    ensures var r := PortalSearch.PortalSearch(w, c, goal, travelflags);
      r.fits && forall p | 0 <= p < |r.times| :: r.times[p] + x <= 1 + |w.portals| * (t + x) || r.times[p] == 0
  {
    hide World.Valid, Run, HopsBelow;
    BeginLow(w, c, goal, t, x);
    RunLow(w, travelflags, Begin(w, c, goal), t, x);
    LimitBelow(PortalSearch.PortalSearch(w, c, goal, travelflags), t + x);
  }

  lemma BeginLow(w: World, c: nat, goal: nat, t: nat, x: nat)
    requires w.Valid() && w.IsCluster(c) && w.Member(c, goal)
    ensures Begin(w, c, goal).fits && Low(Begin(w, c, goal), t + x, x)
  {
    hide Limit;
    var s := Begin(w, c, goal);
    LimitBelow(s, t + x);
    var k := w.settings[goal].cluster;
    if k < 0 {
      var zeros := s.(times := seq(|w.portals|, i => 0));
      LimitDrops(zeros, s, t + x, -k, 1);
      LimitBelow(zeros, t + x);
    }
  }

  // ----- whole queries

  /** The greatest times of a world: c for a crossing, m for a reachability, x for a portal; at most n areas with
      reachabilities in a cluster. */
  ghost predicate Short(w: World, n: nat, c: nat, m: nat, x: nat) {
    && TimeBounds.WorldBelow(w, n, c, m)
    && (forall p | 0 <= p < |w.portalmaxtraveltimes| :: w.portalmaxtraveltimes[p] <= x)
    && 1 + (|w.portals| + 1) * (1 + n * (c + m) + x) < 65536
  }

  lemma ShortHops(w: World, travelflags: bv32, n: nat, c: nat, m: nat, x: nat)
    requires w.Valid() && Short(w, n, c, m, x)
    ensures HopsBelow(w, travelflags, 1 + n * (c + m), x)
    ensures forall k: nat, b: nat | w.IsCluster(k) && w.Member(k, b) :: w.AreaSearch(k, b, travelflags, 1).fits
  {
    hide World.Valid, World.AreaSearch, TimeBounds.WorldBelow;
    TimeBounds.ValidIsSized(w);
    assert n * (c + m) >= 0 by { TimeBounds.MoreSteps(0, n, c + m); }
    TimeBounds.MoreSteps(1, |w.portals| + 1, 1 + n * (c + m) + x);
    forall k: nat, b: nat | w.IsCluster(k) && w.Member(k, b)
      ensures w.AreaSearch(k, b, travelflags, 1).fits
      ensures forall v | 0 <= v < |w.AreaSearch(k, b, travelflags, 1).times| ::
        w.AreaSearch(k, b, travelflags, 1).times[v] <= 1 + n * (c + m)
    {
      TimeBounds.AreaSearchBelow(w, k, b, travelflags, 1, n, c, m);
    }
  }

  /** In a world of short times every query is answered as it should be. */
  lemma QueriesFit(w: World, a: int, goal: int, travelflags: bv32, n: nat, c: nat, m: nat, x: nat)
    requires w.Valid() && Short(w, n, c, m, x)
    ensures SearchesFit(w, a, goal, travelflags)
  {
    hide World.Valid, World.AreaSearch, PortalSearch.PortalSearch, HopsBelow;
    if 0 < a < |w.settings| && 0 < goal < |w.settings| && w.settings[goal].numreachableareas > 0 {
      TimeBounds.ValidIsSized(w);
      var flags := QueryFlags(w, a, goal, travelflags);
      GoalClusterIsCluster(w, goal);
      ShortHops(w, flags, n, c, m, x);
      PortalSearchFits(w, GoalCluster(w, goal), goal, flags, 1 + n * (c + m), x);
    }
  }

  /** So are the sums by which portals are chosen, with at most o for the way to the start of a reachability. */
  lemma ChoicesFit(w: World, k: nat, a: nat, goal: nat, travelflags: bv32, origin: Origin, reachnum: int, n: nat,
                   c: nat, m: nat, x: nat, o: nat)
    requires MayRoute(w, a, goal) && w.IsCluster(k) && w.Member(k, a) && Short(w, n, c, m, x)
    requires origin.At? ==> forall l | 0 <= l < |origin.traveltimes| :: origin.traveltimes[l] <= o
    requires 1 + (|w.portals| + 1) * (1 + n * (c + m) + x) + o < 65536
    ensures CandidatesFit(w, k, a, travelflags, origin, GoalTimes(w, goal, travelflags), reachnum)
  {
    hide World.Valid, World.AreaSearch, PortalSearch.PortalSearch;
    TimeBounds.ValidIsSized(w);
    GoalClusterIsCluster(w, goal);
    ShortHops(w, travelflags, n, c, m, x);
    PortalSearchFits(w, GoalCluster(w, goal), goal, travelflags, 1 + n * (c + m), x);
    TimeBounds.StepMore(|w.portals|, 1 + n * (c + m) + x);
    var times := GoalTimes(w, goal, travelflags);
    forall j: nat | j < w.clusters[k].numportals && IsCandidate(w, k, a, travelflags, times, j)
      ensures CandidateRoute(w, k, a, travelflags, origin, times, reachnum, j).0 < 65536
    {
      var p := PortalOf(w, k, j);
      assert w.AreaSearch(k, w.portals[p].areanum, travelflags, 1).times[w.ClusterAreaNum(k, a)] <= 1 + n * (c + m);
    }
  }
}
