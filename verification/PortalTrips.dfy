/** What the times of the portal search mean: trips through portals from one cluster to the next. */
module PortalTrips {
  import opened RouteWorld
  import opened PortalSearch
  import AreaRoutes

  /** A trip from a portal to the goal: a walk inside a cluster, to the goal, or to the next portal and on from there.
      */
  datatype Trip =
    | Last(cluster: nat, walk: AreaRoutes.Walk)
    | Leg(cluster: nat, walk: AreaRoutes.Walk, portal: nat, rest: Trip)

  /** Portal p lies between clusters k and m. */
  ghost predicate Between(w: World, p: nat, k: nat, m: nat) {
    && 0 < p < |w.portals| && k != m
    && ((w.portals[p].frontcluster == k && w.portals[p].backcluster == m)
        || (w.portals[p].frontcluster == m && w.portals[p].backcluster == k))
  }

  ghost predicate IsTrip(w: World, travelflags: bv32, c: nat, goal: nat, p: nat, trip: Trip)
    requires w.Valid()
    decreases trip
  {
    && 0 < p < |w.portals| && w.IsCluster(trip.cluster)
    && (w.portals[p].frontcluster == trip.cluster || w.portals[p].backcluster == trip.cluster)
    && match trip
       case Last(k, walk) =>
         k == c && AreaRoutes.IsWalk(w, k, travelflags, goal, w.portals[p].areanum, walk)
       case Leg(k, walk, q, rest) =>
         && Between(w, q, k, rest.cluster)
         && AreaRoutes.IsWalk(w, k, travelflags, w.portals[q].areanum, w.portals[p].areanum, walk)
         && IsTrip(w, travelflags, c, goal, q, rest)
  }

  /** Its time: 1 at the goal, every walk and 1 more for it, and the longest way through every portal on the way. */
  ghost function TripTime(w: World, travelflags: bv32, c: nat, goal: nat, p: nat, trip: Trip): nat
    requires w.Valid() && IsTrip(w, travelflags, c, goal, p, trip)
    decreases trip
  {
    match trip
    case Last(k, walk) => 1 + (1 + AreaRoutes.WalkTime(w, k, travelflags, goal, w.portals[p].areanum, walk))
    case Leg(k, walk, q, rest) =>
      TripTime(w, travelflags, c, goal, q, rest) + w.portalmaxtraveltimes[q]
      + (1 + AreaRoutes.WalkTime(w, k, travelflags, w.portals[q].areanum, w.portals[p].areanum, walk))
  }

  /** From a time within a cluster to a walk that takes it. */
  lemma TimeIsWalk(w: World, travelflags: bv32, u: PortalUpdate, p: nat) returns (walk: AreaRoutes.Walk)
    requires UpdateOk(w, u) && 0 < p < |w.portals| && w.Member(u.cluster, w.portals[p].areanum)
    requires TimeInCluster(w, travelflags, u, p) != 0
    ensures AreaRoutes.IsWalk(w, u.cluster, travelflags, u.areanum, w.portals[p].areanum, walk)
    ensures TimeInCluster(w, travelflags, u, p)
         == 1 + AreaRoutes.WalkTime(w, u.cluster, travelflags, u.areanum, w.portals[p].areanum, walk)
    ensures walk.Take?
  {
    hide World.Valid, World.AreaSearch;
    walk := AreaRoutes.StoredWalk(w, u.cluster, travelflags, u.areanum, 1, w.portals[p].areanum);
  }

  /** And from a walk to the time within the cluster. */
  lemma WalkHasTime(w: World, travelflags: bv32, u: PortalUpdate, p: nat, walk: AreaRoutes.Walk)
    requires UpdateOk(w, u) && 0 < p < |w.portals| && w.Member(u.cluster, w.portals[p].areanum)
    requires AreaRoutes.IsWalk(w, u.cluster, travelflags, u.areanum, w.portals[p].areanum, walk)
    requires w.portals[p].areanum != u.areanum && w.settings[u.areanum].numreachableareas > 0
    ensures TimeInCluster(w, travelflags, u, p) != 0
  {
    hide World.Valid, World.AreaSearch;
    AreaRoutes.ReachedIffWalk(w, u.cluster, travelflags, u.areanum, 1, w.portals[p].areanum);
  }

  lemma {:induction false} ChainIsTrip(w: World, c: nat, goal: nat, travelflags: bv32, ch: Chain) returns (trip: Trip)
    requires w.Valid() && w.IsCluster(c) && w.Member(c, goal) && ch.Via?
    requires Walk(w, travelflags, PortalUpdate(c, goal, 1), ch).Way?
    ensures IsTrip(w, travelflags, c, goal, ch.portal, trip) && trip.walk.Take?
    ensures var way := Walk(w, travelflags, PortalUpdate(c, goal, 1), ch);
      && way.time == TripTime(w, travelflags, c, goal, ch.portal, trip)
      && Between(w, ch.portal, trip.cluster, way.end.cluster)
      && way.end.areanum == w.portals[ch.portal].areanum
      && ch.portal < |w.portalmaxtraveltimes| && way.end.tmptraveltime == way.time + w.portalmaxtraveltimes[ch.portal]
    decreases ch
  {
    hide World.Valid, TimeInCluster, AreaRoutes.IsWalk, AreaRoutes.WalkTime;
    var g := PortalUpdate(c, goal, 1);
    var r := Walk(w, travelflags, g, ch.rest);
    var p, u := ch.portal, r.end;
    PortalIsMember(w, p, u.cluster);
    PortalBetween(w, p);
    var walk := TimeIsWalk(w, travelflags, u, p);
    match ch.rest
    case AtGoal =>
      trip := Last(u.cluster, walk);
    case Via(q, _) =>
      var rest := ChainIsTrip(w, c, goal, travelflags, ch.rest);
      trip := Leg(u.cluster, walk, q, rest);
  }

  lemma PortalBetween(w: World, p: nat)
    requires w.Valid() && 0 < p < |w.portals|
    ensures Between(w, p, w.portals[p].frontcluster, w.portals[p].backcluster) && p < |w.portalmaxtraveltimes|
  {
    assert w.IsPortal(p);
  }

  /** Time from area a to area b inside cluster e, 1 counting for being there. */
  ghost function TimeInside(w: World, travelflags: bv32, e: nat, b: nat, a: nat): nat
    requires w.Valid() && w.IsCluster(e) && w.Member(e, b) && w.Member(e, a)
  {
    var r := w.AreaSearch(e, b, travelflags, 1);
    var n := w.ClusterAreaNum(e, a);
    if n < |r.times| then r.times[n] else 0
  }

  /** Portal p of cluster e has a time, if a walk inside e leads from it to area b, and none longer than by way of b,
      from where it is time t to the goal. */
  ghost predicate NoLonger(w: World, travelflags: bv32, r: PortalState, p: nat, e: nat, b: nat, t: nat)
    requires w.Valid()
  {
    0 < p < |w.portals| && w.IsCluster(e) && (w.portals[p].frontcluster == e || w.portals[p].backcluster == e)
    && w.Member(e, b) && w.Member(e, w.portals[p].areanum) && w.portals[p].areanum != b
    && (exists walk :: AreaRoutes.IsWalk(w, e, travelflags, b, w.portals[p].areanum, walk)) ==>
      p < |r.times| && 0 < r.times[p] <= TimeInside(w, travelflags, e, b, w.portals[p].areanum) + t
  }

  /** The same by way of portal q, with the longest way through its area. */
  ghost predicate NoLongerBy(w: World, travelflags: bv32, r: PortalState, p: nat, e: nat, q: nat)
    requires w.Valid() && q < |w.portals| && q < |r.times| && q < |w.portalmaxtraveltimes|
  {
    NoLonger(w, travelflags, r, p, e, w.portals[q].areanum, r.times[q] + w.portalmaxtraveltimes[q])
  }

  /** A portal with a time, other than the goal's own, has that of a trip; and the trips of other portals through it
      make none of them wait longer: it is left on the side where it is not entered. */
  lemma PortalTimeIsTrip(w: World, c: nat, goal: nat, travelflags: bv32, q: nat) returns (trip: Trip, e: nat)
    requires w.Valid() && w.IsCluster(c) && w.Member(c, goal) && 0 < q < |w.portals| && -w.settings[goal].cluster != q
    requires q < |w.portalmaxtraveltimes|
    requires PortalSearch.PortalSearch(w, c, goal, travelflags).times[q] != 0
    ensures var r := PortalSearch.PortalSearch(w, c, goal, travelflags);
      && IsTrip(w, travelflags, c, goal, q, trip) && TripTime(w, travelflags, c, goal, q, trip) == r.times[q]
      && Between(w, q, trip.cluster, e)
      && forall p: nat :: NoLongerBy(w, travelflags, r, p, e, q)
  {
    hide World.Valid, World.AreaSearch, PortalSearch.PortalSearch, NoLonger;
    var r := PortalSearch.PortalSearch(w, c, goal, travelflags);
    var chains := PortalTimesAreChains(w, c, goal, travelflags);
    var g := PortalUpdate(c, goal, 1);
    assert TakesTime(w, travelflags, g, r, q, chains[q]);
    trip := ChainIsTrip(w, c, goal, travelflags, chains[q]);
    var u := Walk(w, travelflags, g, chains[q]).end;
    e := u.cluster;
    LeavesPortal(w, travelflags, c, goal, q, trip);
    forall p: nat
      ensures NoLongerBy(w, travelflags, r, p, e, q)
    {
      if p < |w.portals| {
        GainIsNoLonger(w, travelflags, g, r, p, chains[q]);
      } else {
        NoPortal(w, travelflags, r, p, e, w.portals[q].areanum, r.times[q] + w.portalmaxtraveltimes[q]);
      }
    }
  }

  /** For the portals of the goal's cluster the same holds of the goal itself. */
  lemma PortalsOfGoal(w: World, c: nat, goal: nat, travelflags: bv32, p: nat)
    requires w.Valid() && w.IsCluster(c) && w.Member(c, goal) && w.settings[goal].numreachableareas > 0
    ensures NoLonger(w, travelflags, PortalSearch.PortalSearch(w, c, goal, travelflags), p, c, goal, 1)
  {
    hide World.Valid, World.AreaSearch, PortalSearch.PortalSearch, NoLonger;
    var r := PortalSearch.PortalSearch(w, c, goal, travelflags);
    var chains := PortalTimesAreChains(w, c, goal, travelflags);
    if p < |w.portals| {
      GainIsNoLonger(w, travelflags, PortalUpdate(c, goal, 1), r, p, AtGoal);
    } else {
      NoPortal(w, travelflags, r, p, c, goal, 1);
    }
  }

  lemma NoPortal(w: World, travelflags: bv32, r: PortalState, p: nat, e: nat, b: nat, t: nat)
    requires w.Valid() && p >= |w.portals|
    ensures NoLonger(w, travelflags, r, p, e, b, t)
  {
  }

  /** A portal from which there is somewhere to go has reachabilities. */
  lemma LeavesPortal(w: World, travelflags: bv32, c: nat, goal: nat, q: nat, trip: Trip)
    requires w.Valid() && IsTrip(w, travelflags, c, goal, q, trip) && trip.walk.Take?
    ensures w.portals[q].areanum < |w.settings| && w.settings[w.portals[q].areanum].numreachableareas > 0
  {
  }

  lemma GainIsNoLonger(w: World, travelflags: bv32, g: PortalUpdate, r: PortalState, p: nat, ch: Chain)
    requires StateOk(w, r) && UpdateOk(w, g) && p < |w.portals| && NoGain(w, travelflags, g, r, p, ch)
    requires Walk(w, travelflags, g, ch).Way?
      && w.settings[Walk(w, travelflags, g, ch).end.areanum].numreachableareas > 0
    ensures var u := Walk(w, travelflags, g, ch).end;
      NoLonger(w, travelflags, r, p, u.cluster, u.areanum, u.tmptraveltime)
  {
    hide World.Valid, World.AreaSearch, AreaRoutes.IsWalk, OtherSide;
    var u := Walk(w, travelflags, g, ch).end;
    if 0 < p && (w.portals[p].frontcluster == u.cluster || w.portals[p].backcluster == u.cluster)
      && w.portals[p].areanum != u.areanum
    {
      PortalIsMember(w, p, u.cluster);
      if walk :| AreaRoutes.IsWalk(w, u.cluster, travelflags, u.areanum, w.portals[p].areanum, walk) {
        WalkHasTime(w, travelflags, u, p, walk);
      }
    }
  }

  // ----- the goal's own portal

  lemma {:induction false} VisitsKeepOne(w: World, travelflags: bv32, s: PortalState, u: PortalUpdate, i: nat, k: nat)
    requires StateOk(w, s) && UpdateOk(w, u) && i <= w.clusters[u.cluster].numportals && k < |s.times|
      && s.times[k] == 1
    ensures VisitFrom(w, travelflags, s, u, i).times[k] == 1
    decreases w.clusters[u.cluster].numportals - i
  {
    hide World.Valid, Visit, TimeInCluster;
    if i < w.clusters[u.cluster].numportals {
      VisitChanges(w, travelflags, s, u, i);
      VisitsKeepOne(w, travelflags, Visit(w, travelflags, s, u, i), u, i + 1, k);
    }
  }

  lemma {:induction false} RunKeepsOne(w: World, travelflags: bv32, s: PortalState, k: nat)
    requires StateOk(w, s) && k < |s.times| && s.times[k] == 1
    ensures Run(w, travelflags, s).times[k] == 1
    decreases Unset(s.times), Sum(s.times), |s.queue|
  {
    hide World.Valid, VisitFrom;
    if s.queue != [] {
      VisitsKeepOne(w, travelflags, s.(queue := s.queue[1..]), s.updates[s.queue[0]], 0, k);
      RoundDrops(w, travelflags, s);
      RunKeepsOne(w, travelflags, Round(w, travelflags, s), k);
    }
  }

  /** A goal that is a portal is reached from itself in time 1. */
  lemma GoalPortalIsThere(w: World, c: nat, goal: nat, travelflags: bv32)
    requires w.Valid() && w.IsCluster(c) && w.Member(c, goal) && w.settings[goal].cluster < 0
    ensures var r := PortalSearch.PortalSearch(w, c, goal, travelflags);
      -w.settings[goal].cluster < |r.times| && r.times[-w.settings[goal].cluster] == 1
  {
    hide World.Valid, Run, Begin;
    BeginsWithOne(w, c, goal);
    RunKeepsOne(w, travelflags, Begin(w, c, goal), -w.settings[goal].cluster);
  }

  lemma BeginsWithOne(w: World, c: nat, goal: nat)
    requires w.Valid() && w.IsCluster(c) && w.Member(c, goal) && w.settings[goal].cluster < 0
    ensures -w.settings[goal].cluster < |Begin(w, c, goal).times|
    ensures Begin(w, c, goal).times[-w.settings[goal].cluster] == 1
  {
    hide World.PortalsOk, World.LinksOk, World.CrossingsOk, World.NumberedOk, World.SliceOk, World.ClosedUnderLinks,
      World.IsListed;
  }
}
