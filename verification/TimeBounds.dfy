/** When no sum of the searches can reach 65536, told from the greatest times alone. */
module TimeBounds {
  import opened AreaSearch
  import opened RouteWorld
  import opened Counting

  lemma StepMore(n: nat, k: nat)
    ensures (n + 1) * k == n * k + k
  {
  }

  lemma {:induction false} MoreSteps(n: nat, m: nat, k: nat)
    requires n <= m
    ensures n * k <= m * k
  {
    if n < m {
      MoreSteps(n, m - 1, k);
      StepMore(m - 1, k);
    }
  }

  // ----- inside one cluster

  /** No crossing takes more than c, no reachability more than m. */
  ghost predicate GraphBelow(g: Graph, c: nat, m: nat) {
    && (forall b, e, i | 0 <= b < |g.cross| && 0 <= e < |g.cross[b]| && 0 <= i < |g.cross[b][e]| ::
      g.cross[b][e][i] <= c)
    && (forall b: nat, i: nat | g.IsArc(b, i) :: g.into[b][i].time <= m)
  }

  ghost function Hops(p: Route): nat {
    match p
    case Arrived => 0
    case Hop(_, _, rest) => 1 + Hops(rest)
  }

  lemma {:induction false} CostBelow(g: Graph, goal: nat, x: nat, p: Route, c: nat, m: nat)
    requires g.Valid() && IsRoute(g, goal, x, p) && GraphBelow(g, c, m)
    ensures Cost(g, goal, x, p) <= Hops(p) * (c + m)
    decreases p
  {
    match p
    case Arrived =>
    case Hop(b, i, rest) =>
      CostBelow(g, goal, b, rest, c, m);
      assert g.ArcOk(b, i);
      if rest.Hop? {
        assert g.ArcOk(rest.to, rest.i);
      }
      StepMore(Hops(rest), c + m);
  }

  /** A route without repetition has fewer hops than there are nodes. */
  lemma {:induction false} HopsBelow(g: Graph, goal: nat, x: nat, p: Route)
    requires g.Valid() && goal < |g.into| && IsRoute(g, goal, x, p) && NoNodeTwice(x, p)
    ensures x < |g.into| && x !in Entered(p) && |Entered(p)| == Hops(p) && forall y | y in Entered(p) :: y < |g.into|
    decreases p
  {
    match p
    case Arrived =>
    case Hop(b, i, rest) =>
      HopsBelow(g, goal, b, rest);
      assert g.ArcOk(b, i);
  }

  lemma TimesBelow(g: Graph, goal: nat, start: nat, x: nat, c: nat, m: nat)
    requires g.Valid() && goal < |g.into| && start > 0 && GraphBelow(g, c, m)
    requires x < |g.into| && Search(g, goal, start).times[x] != 0
    ensures Search(g, goal, start).times[x] + c + m <= start + |g.into| * (c + m)
  {
    hide Search, IsRoute, GraphBelow, NoNodeTwice, Cost;
    var p := FollowingReachesGoal(g, goal, start, x);
    CostBelow(g, goal, x, p, c, m);
    HopsBelow(g, goal, x, p);
    BoundedSet(Entered(p) + {x}, |g.into|);
    MoreSteps(Hops(p) + 1, |g.into|, c + m);
    StepMore(Hops(p), c + m);
  }

  /** The search fits if the start time and one crossing and reachability for every node stay below 65536. */
  lemma SearchFits(g: Graph, goal: nat, start: nat, c: nat, m: nat)
    requires g.Valid() && start > 0 && GraphBelow(g, c, m) && start + |g.into| * (c + m) < 65536
    ensures Search(g, goal, start).fits
  {
    if goal < |g.into| {
      SearchFitsFrom(g, goal, start, c, m);
    }
  }

  lemma SearchFitsFrom(g: Graph, goal: nat, start: nat, c: nat, m: nat)
    requires g.Valid() && goal < |g.into| && start > 0 && GraphBelow(g, c, m) && start + |g.into| * (c + m) < 65536
    ensures Search(g, goal, start).fits
  {
    hide Search, FixedPoint;
    var via, arc := SearchIsFixedPoint(g, goal, start);
    var r := Search(g, goal, start);
    forall b: nat, i: nat | g.IsArc(b, i) && r.times[b] != 0 ensures Through(g, goal, r, b, i) < 65536 {
      TimesBelow(g, goal, start, b, c, m);
      assert g.ArcOk(b, i);
    }
  }

  // ----- all clusters

  /** No crossing takes more than c, no reachability more than m, and no cluster has more than n areas with
      reachabilities. */
  ghost predicate WorldBelow(w: World, n: nat, c: nat, m: nat) {
    && (forall k | 0 <= k < |w.clusters| :: w.clusters[k].numreachabilityareas <= n)
    && (forall b, e, i | 0 <= b < |w.areatraveltimes| && 0 <= e < |w.areatraveltimes[b]|
          && 0 <= i < |w.areatraveltimes[b][e]| ::
          w.areatraveltimes[b][e][i] <= c)
    && (forall l | 0 <= l < |w.reachability| :: w.reachability[l].traveltime <= m)
  }

  lemma ValidIsSized(w: World)
    requires w.Valid()
    ensures w.SizesOk()
  {
  }

  lemma WorldGraphBelow(w: World, k: nat, travelflags: bv32, n: nat, c: nat, m: nat)
    requires w.Valid() && w.IsCluster(k) && WorldBelow(w, n, c, m)
    ensures GraphBelow(w.GraphOf(k, travelflags), c, m)
  {
    hide World.Valid;
    ValidIsSized(w);
    var g := w.GraphOf(k, travelflags);
    forall b: nat, i: nat | g.IsArc(b, i) ensures g.into[b][i].time <= m {
      w.ArcIsReachability(k, travelflags, b, i);
    }
  }

  /** Times within clusters are at most start + n * (c + m); below 65536, all searches of clusters fit. */
  lemma AreaSearchBelow(w: World, k: nat, goal: nat, travelflags: bv32, start: nat, n: nat, c: nat, m: nat)
    requires w.Valid() && w.IsCluster(k) && w.Member(k, goal) && start > 0 && WorldBelow(w, n, c, m)
    ensures forall x | 0 <= x < |w.AreaSearch(k, goal, travelflags, start).times| ::
      w.AreaSearch(k, goal, travelflags, start).times[x] <= start + n * (c + m)
    ensures start + n * (c + m) < 65536 ==> w.AreaSearch(k, goal, travelflags, start).fits
  {
    hide World.Valid, Search, GraphBelow;
    ValidIsSized(w);
    var g, v := w.GraphOf(k, travelflags), w.ClusterAreaNum(k, goal);
    w.GraphIsValid(k, travelflags);
    WorldGraphBelow(w, k, travelflags, n, c, m);
    MoreSteps(|g.into|, n, c + m);
    if start + n * (c + m) < 65536 {
      SearchFits(g, v, start, c, m);
    }
    forall x: nat | x < |g.into| && Search(g, v, start).times[x] != 0
      ensures Search(g, v, start).times[x] <= start + n * (c + m)
    {
      if v < |g.into| {
        TimesBelow(g, v, start, x, c, m);
      } else {
        w.SearchFromOutside(k, goal, travelflags, start);
      }
    }
  }
}
