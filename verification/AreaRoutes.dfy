/** What the area search means for areas and reachabilities. */
module AreaRoutes {
  import opened AasFile
  import opened RouteWorld
  import opened AreaSearch

  /** A way from an area to the goal: take a reachability, then go on from the area it leads to. */
  datatype Walk = There | Take(linknum: nat, rest: Walk)

  /** l is one of the first 128 reachabilities of area a. */
  ghost predicate Leaves(w: World, a: nat, l: nat)
    requires a < |w.settings|
  {
    && w.settings[a].firstreachablearea <= l < |w.reachability|
    && l - w.settings[a].firstreachablearea < w.settings[a].numreachableareas
    && l - w.settings[a].firstreachablearea < 128
  }

  /** Every flag that is needed is there. */
  ghost predicate HasAll(flags: bv32, needed: bv32) { flags & needed == needed }

  /** A traveller with these flags may use reachabilities of this type: of a type the table does not know only with
      the flag for invalid ones, of any other with all the flags the table asks for, and not if kept from the team. */
  ghost predicate MayUse(w: World, flags: bv32, traveltype: bv32)
    requires |w.travelflagfortype| == MAX_TRAVELTYPES
  {
    var t := traveltype & TRAVELTYPE_MASK;
    if t >= 32 then HasAll(flags, TFL_INVALID)
    else
      && HasAll(flags, w.travelflagfortype[t as nat])
      && (traveltype & TRAVELFLAG_NOTTEAM1 != 0 ==> HasAll(flags, TFL_NOTTEAM1))
      && (traveltype & TRAVELFLAG_NOTTEAM2 != 0 ==> HasAll(flags, TFL_NOTTEAM2))
  }

  lemma PermitsIsHasAll(flags: bv32, x: bv32)
    ensures Permits(flags, x) <==> HasAll(flags, x)
  {
    hide Permits, HasAll;
    if Permits(flags, x) {
      PermittedHasAll(flags, x);
    }
    if HasAll(flags, x) {
      HasAllPermitted(flags, x);
    }
  }

  lemma PermittedHasAll(flags: bv32, x: bv32)
    requires Permits(flags, x)
    ensures HasAll(flags, x)
  {
  }

  lemma HasAllPermitted(flags: bv32, x: bv32)
    requires HasAll(flags, x)
    ensures Permits(flags, x)
  {
  }

  lemma HasBoth(flags: bv32, x: bv32, y: bv32)
    ensures HasAll(flags, x | y) <==> HasAll(flags, x) && HasAll(flags, y)
  {
    hide HasAll;
    if HasAll(flags, x | y) {
      HasEach(flags, x, y);
    }
    if HasAll(flags, x) && HasAll(flags, y) {
      HasUnion(flags, x, y);
    }
  }

  lemma HasEach(flags: bv32, x: bv32, y: bv32)
    requires HasAll(flags, x | y)
    ensures HasAll(flags, x) && HasAll(flags, y)
  {
  }

  lemma HasUnion(flags: bv32, x: bv32, y: bv32)
    requires HasAll(flags, x) && HasAll(flags, y)
    ensures HasAll(flags, x | y)
  {
  }

  lemma HasNothing(flags: bv32)
    ensures HasAll(flags, 0)
  {
  }

  /** The flags of a type let through exactly those who may use it. */
  lemma TypeIsPermitted(w: World, flags: bv32, traveltype: bv32)
    requires |w.travelflagfortype| == MAX_TRAVELTYPES
    ensures Permits(flags, w.TravelFlagForType(traveltype)) <==> MayUse(w, flags, traveltype)
  {
    hide Permits, HasAll;
    var t := traveltype & TRAVELTYPE_MASK;
    PermitsIsHasAll(flags, w.TravelFlagForType(traveltype));
    if t < 32 {
      var team1, team2: bv32 := if traveltype & TRAVELFLAG_NOTTEAM1 != 0 then TFL_NOTTEAM1 else 0,
        if traveltype & TRAVELFLAG_NOTTEAM2 != 0 then TFL_NOTTEAM2 else 0;
      HasNothing(flags);
      HasBoth(flags, team1, team2);
      HasBoth(flags, team1 | team2, w.travelflagfortype[t as nat]);
    }
  }

  /** Reachability l leads from a to another area of cluster c that may be entered under these travel flags. */
  ghost predicate Allowed(w: World, c: nat, travelflags: bv32, a: nat, l: nat)
    requires w.Valid()
  {
    && w.Member(c, a) && Leaves(w, a, l)
    && w.Member(c, w.reachability[l].areanum)
    && MayUse(w, travelflags, w.reachability[l].traveltype)
    && w.settings[w.reachability[l].areanum].areaflags & AREA_DISABLED == 0
    && HasAll(travelflags, w.areacontentstravelflags[w.reachability[l].areanum])
  }

  ghost predicate IsWalk(w: World, c: nat, travelflags: bv32, goal: nat, a: nat, p: Walk)
    requires w.Valid()
    decreases p
  {
    match p
    case There => a == goal
    case Take(l, rest) =>
      Allowed(w, c, travelflags, a, l) && IsWalk(w, c, travelflags, goal, w.reachability[l].areanum, rest)
  }

  /** Number of reachability l among the links into the area it leads to. */
  ghost function EntryOf(w: World, a: nat, l: nat): (i: nat)
    requires w.Valid() && w.IsArea(a) && Leaves(w, a, l)
    ensures w.reachability[l].areanum < |w.reversed| && i < |w.reversed[w.reachability[l].areanum]|
    ensures w.reversed[w.reachability[l].areanum][i] == ReversedLink(l, a)
  {
    assert w.IsListed(a, l - w.settings[a].firstreachablearea);
    var b := w.reachability[l].areanum;
    var i :| 0 <= i < |w.reversed[b]| && w.reversed[b][i] == ReversedLink(l, a);
    i
  }

  /** Time of a walk: every reachability, and the crossing of every area passed through. */
  ghost function WalkTime(w: World, c: nat, travelflags: bv32, goal: nat, a: nat, p: Walk): nat
    requires w.Valid() && IsWalk(w, c, travelflags, goal, a, p)
    decreases p
  {
    match p
    case There => 0
    case Take(l, rest) =>
      var b := w.reachability[l].areanum;
      w.reachability[l].traveltime + WalkTime(w, c, travelflags, goal, b, rest) +
      match rest
      case There => 0
      case Take(m, _) => Crossing(w, b, m - w.settings[b].firstreachablearea, EntryOf(w, a, l))
  }

  ghost function Crossing(w: World, b: nat, exit: nat, entry: nat): nat
    requires w.Valid() && b < |w.settings| && exit < w.settings[b].numreachableareas && entry < |w.reversed[b]|
  {
    assert w.CrossingsOk(b);
    w.areatraveltimes[b][exit][entry]
  }

  /** A link may be used if its reachability is allowed, and if it is the link of an area with a number. */
  lemma UsableIfAllowed(w: World, c: nat, travelflags: bv32, a: nat, l: nat)
    requires w.Valid() && w.IsCluster(c) && Allowed(w, c, travelflags, a, l)
    ensures w.Usable(c, travelflags, w.reachability[l].areanum, EntryOf(w, a, l))
  {
    hide Permits, HasAll, MayUse, World.TravelFlagForType;
    assert w.NumberedOk(c);
    TypeIsPermitted(w, travelflags, w.reachability[l].traveltype);
    PermitsIsHasAll(travelflags, w.areacontentstravelflags[w.reachability[l].areanum]);
  }

  lemma AllowedIfUsable(w: World, c: nat, travelflags: bv32, b: nat, i: nat)
    requires w.Valid() && w.IsCluster(c) && w.Member(c, b) && i < |w.reversed[b]| && w.Usable(c, travelflags, b, i)
    ensures w.LinkOk(b, i) && Allowed(w, c, travelflags, w.reversed[b][i].areanum, w.reversed[b][i].linknum)
  {
    hide Permits, HasAll, MayUse, World.TravelFlagForType;
    w.UsableSource(c, travelflags, b, i);
    assert w.LinkOk(b, i);
    TypeIsPermitted(w, travelflags, w.reachability[w.reversed[b][i].linknum].traveltype);
    PermitsIsHasAll(travelflags, w.areacontentstravelflags[b]);
  }

  /** The arc of an allowed reachability. */
  lemma ArcOfReachability(w: World, c: nat, travelflags: bv32, a: nat, l: nat) returns (j: nat)
    requires w.Valid() && w.IsCluster(c) && Allowed(w, c, travelflags, a, l)
    requires w.settings[w.reachability[l].areanum].numreachableareas > 0
    ensures var g, b := w.GraphOf(c, travelflags), w.reachability[l].areanum;
      var v := w.ClusterAreaNum(c, b);
      && g.IsArc(v, j) && w.AreaOf(c, v) == b && g.into[v][j] == w.ArcOf(c, b, EntryOf(w, a, l))
  {
    var b := w.reachability[l].areanum;
    var i := EntryOf(w, a, l);
    assert w.NumberedOk(c);
    w.AreaOfNumber(c, b);
    UsableIfAllowed(w, c, travelflags, a, l);
    assert w.Usable(c, travelflags, b, i);
    j := ArcIndex(w, c, travelflags, b, 0, i);
  }

  lemma {:induction false} ArcIndex(w: World, c: nat, travelflags: bv32, b: nat, from: nat, i: nat) returns (j: nat)
    requires w.Valid() && b < |w.settings| && from <= i < |w.reversed[b]| && w.Usable(c, travelflags, b, i)
    ensures j < |w.ArcsFrom(c, travelflags, b, from)| && w.ArcsFrom(c, travelflags, b, from)[j] == w.ArcOf(c, b, i)
    decreases i - from
  {
    hide World.Valid, World.Usable, World.ArcOf;
    if from == i {
      j := 0;
    } else {
      j := ArcIndex(w, c, travelflags, b, from + 1, i);
      if w.Usable(c, travelflags, b, from) {
        j := j + 1;
      }
    }
  }

  lemma Bounds(w: World)
    requires w.Valid()
    ensures forall a | 0 <= a < |w.settings| :: -|w.portals| < w.settings[a].cluster < |w.clusters|
  {
  }

  /** Every walk is a route in the search graph, of the same time. */
  lemma {:induction false} WalkIsRoute(w: World, c: nat, travelflags: bv32, goal: nat, a: nat, p: Walk)
    returns (q: Route)
    requires w.Valid() && w.IsCluster(c) && w.Member(c, a) && w.Member(c, goal)
    requires w.settings[goal].numreachableareas > 0 && IsWalk(w, c, travelflags, goal, a, p)
    ensures var g := w.GraphOf(c, travelflags);
      && g.Valid() && w.ClusterAreaNum(c, a) < |g.into| && w.AreaOf(c, w.ClusterAreaNum(c, a)) == a
      && IsRoute(g, w.ClusterAreaNum(c, goal), w.ClusterAreaNum(c, a), q)
      && Cost(g, w.ClusterAreaNum(c, goal), w.ClusterAreaNum(c, a), q) == WalkTime(w, c, travelflags, goal, a, p)
      && (p.There? <==> q.Arrived?)
      && (p.Take? ==> g.into[q.to][q.i].exit == p.linknum - w.settings[a].firstreachablearea)
    decreases p
  {
    hide World.Valid, World.Usable, World.GraphOf, World.ArcsFrom, World.AreaOf, World.ClusterAreaNum, MayUse, HasAll,
      World.SizesOk;
    w.GraphIsValid(c, travelflags);
    Bounds(w);
    HasNumber(w, c, travelflags, goal, a, p);
    if p.There? {
      q := Arrived;
    } else {
      var b := w.reachability[p.linknum].areanum;
      HasNumber(w, c, travelflags, goal, b, p.rest);
      var j := ArcOfReachability(w, c, travelflags, a, p.linknum);
      var rest := WalkIsRoute(w, c, travelflags, goal, b, p.rest);
      q := Hop(w.ClusterAreaNum(c, b), j, rest);
    }
  }

  /** An area a walk starts from is a node of the graph. */
  lemma HasNumber(w: World, c: nat, travelflags: bv32, goal: nat, a: nat, p: Walk)
    requires w.Valid() && w.IsCluster(c) && w.Member(c, a)
    requires goal < |w.settings| && w.settings[goal].numreachableareas > 0 && IsWalk(w, c, travelflags, goal, a, p)
    ensures w.settings[a].numreachableareas > 0
    ensures w.ClusterAreaNum(c, a) < w.clusters[c].numreachabilityareas
    ensures w.AreaOf(c, w.ClusterAreaNum(c, a)) == a
  {
    assert w.NumberedOk(c);
    w.AreaOfNumber(c, a);
  }

  /** An arc of the graph is an allowed reachability. */
  lemma ArcIsAllowed(w: World, c: nat, travelflags: bv32, v: nat, j: nat)
    requires w.Valid() && w.IsCluster(c) && w.GraphOf(c, travelflags).IsArc(v, j)
    ensures var arc := w.GraphOf(c, travelflags).into[v][j];
      && v < w.clusters[c].numreachabilityareas && arc.from < w.clusters[c].numreachabilityareas
      && var a, b := w.AreaOf(c, arc.from), w.AreaOf(c, v);
      var l := w.settings[a].firstreachablearea + arc.exit;
      && Allowed(w, c, travelflags, a, l) && w.reachability[l].areanum == b
      && arc.entry < |w.reversed[b]| && w.reversed[b][arc.entry] == ReversedLink(l, a)
      && arc.time == w.reachability[l].traveltime && EntryOf(w, a, l) == arc.entry
  {
    hide World.Usable, Allowed;
    w.ArcIsReachability(c, travelflags, v, j);
    var b, i := w.AreaOf(c, v), w.GraphOf(c, travelflags).into[v][j].entry;
    w.UsableSource(c, travelflags, b, i);
    assert w.LinkOk(b, i);
    AllowedIfUsable(w, c, travelflags, b, i);
    w.LinkedOnce(b, i, EntryOf(w, w.reversed[b][i].areanum, w.reversed[b][i].linknum));
  }

  /** Every area is left by its stored reachability, and the goal is not left. */
  ghost predicate FollowsStored(w: World, c: nat, r: State, goal: nat, a: nat, p: Walk)
    requires w.Valid()
    decreases p
  {
    match p
    case There => true
    case Take(l, rest) =>
      && a != goal && w.Member(c, a) && w.ClusterAreaNum(c, a) < |r.exit|
      && l == w.settings[a].firstreachablearea + r.exit[w.ClusterAreaNum(c, a)] && l < |w.reachability|
      && FollowsStored(w, c, r, goal, w.reachability[l].areanum, rest)
  }

  ghost function AreasEntered(w: World, p: Walk): set<nat> {
    match p
    case There => {}
    case Take(l, rest) => if l < |w.reachability| then {w.reachability[l].areanum} + AreasEntered(w, rest) else {}
  }

  ghost predicate NoAreaTwice(w: World, a: nat, p: Walk)
    decreases p
  {
    match p
    case There => true
    case Take(l, rest) =>
      l < |w.reachability| && a !in AreasEntered(w, p) && NoAreaTwice(w, w.reachability[l].areanum, rest)
  }

  /** What a stored reachability means: it leads from a to a reached area b of the cluster, and a's time is
      b's time, the time across b from there to b's own stored reachability (none if b is the goal), and
      the time of the reachability. */
  ghost predicate IsStep(w: World, c: nat, travelflags: bv32, r: State, goal: nat, a: nat, l: nat)
    requires w.Valid() && w.IsCluster(c) && w.Member(c, a) && w.Member(c, goal)
    requires |r.times| == |r.exit| == w.clusters[c].numreachabilityareas
  {
    && Allowed(w, c, travelflags, a, l)
    && var b := w.reachability[l].areanum;
    var n, m := w.ClusterAreaNum(c, a), w.ClusterAreaNum(c, b);
    && n < |r.times| && m < |r.times| && r.times[m] != 0
    && (b != goal ==> r.exit[m] < w.settings[b].numreachableareas && r.times[m] < r.times[n])
    && r.times[n] == r.times[m] + w.reachability[l].traveltime
                     + (if b == goal then 0 else Crossing(w, b, r.exit[m], EntryOf(w, a, l)))
  }

  /** The area whose reachability is stored for a reached area. */
  lemma StoredReachability(w: World, c: nat, travelflags: bv32, goal: nat, start: nat, a: nat)
    requires w.Valid() && w.IsCluster(c) && w.Member(c, a) && w.Member(c, goal) && start > 0 && a != goal
    requires w.ClusterAreaNum(c, a) < w.clusters[c].numreachabilityareas
    requires w.AreaSearch(c, goal, travelflags, start).times[w.ClusterAreaNum(c, a)] != 0
    ensures var r := w.AreaSearch(c, goal, travelflags, start);
      IsStep(w, c, travelflags, r, goal, a, w.settings[a].firstreachablearea + r.exit[w.ClusterAreaNum(c, a)])
  {
    hide World.Valid, World.Usable, Allowed, EntryOf, Search;
    var g := w.GraphOf(c, travelflags);
    w.GraphIsValid(c, travelflags);
    Bounds(w);
    var n, m := w.ClusterAreaNum(c, a), w.ClusterAreaNum(c, goal);
    Reached(w, c, travelflags, goal, start, n);
    var r := Search(g, m, start);
    var via, arc := SearchIsFixedPoint(g, m, start);
    assert n != m by { SameNumberSameArea(w, c, a, goal); }
    assert Uses(g, m, r, n, via[n], arc[n]);
    ArcIsAllowed(w, c, travelflags, via[n], arc[n]);
    w.AreaOfNumber(c, a);
    StepOfUse(w, c, travelflags, r, goal, a, via[n], arc[n]);
  }

  lemma Reached(w: World, c: nat, travelflags: bv32, goal: nat, start: nat, n: nat)
    requires w.Valid() && w.IsCluster(c) && w.Member(c, goal) && start > 0
    requires n < w.clusters[c].numreachabilityareas && w.AreaSearch(c, goal, travelflags, start).times[n] != 0
    ensures w.ClusterAreaNum(c, goal) < w.clusters[c].numreachabilityareas
  {
    if w.ClusterAreaNum(c, goal) >= w.clusters[c].numreachabilityareas {
      w.SearchFromOutside(c, goal, travelflags, start);
    }
  }

  lemma SameNumberSameArea(w: World, c: nat, a: nat, b: nat)
    requires w.Valid() && w.IsCluster(c) && w.Member(c, a) && w.Member(c, b) && a != b
    ensures w.ClusterAreaNum(c, a) != w.ClusterAreaNum(c, b)
  {
    assert w.NumberedOk(c);
  }

  /** An arc in use, in terms of areas. */
  lemma StepOfUse(w: World, c: nat, travelflags: bv32, r: State, goal: nat, a: nat, v: nat, j: nat)
    requires w.Valid() && w.IsCluster(c) && w.Member(c, a) && w.Member(c, goal)
    requires w.ClusterAreaNum(c, goal) < w.clusters[c].numreachabilityareas
      && w.ClusterAreaNum(c, a) < w.clusters[c].numreachabilityareas
    requires StateOk(w.GraphOf(c, travelflags), w.ClusterAreaNum(c, goal), r)
    requires Uses(w.GraphOf(c, travelflags), w.ClusterAreaNum(c, goal), r, w.ClusterAreaNum(c, a), v, j)
    ensures IsStep(w, c, travelflags, r, goal, a, w.settings[a].firstreachablearea + r.exit[w.ClusterAreaNum(c, a)])
  {
    hide World.Valid, World.Usable, Allowed, EntryOf;
    Bounds(w);
    ArcIsAllowed(w, c, travelflags, v, j);
    w.AreaOfNumber(c, a);
    w.AreaOfNumber(c, goal);
    CrossingsCount(w, w.AreaOf(c, v));
  }

  lemma CrossingsCount(w: World, b: nat)
    requires w.Valid() && b < |w.settings|
    ensures |w.areatraveltimes| == |w.settings| && |w.areatraveltimes[b]| == w.settings[b].numreachableareas
  {
    assert w.CrossingsOk(b);
  }

  /** Following stored reachabilities from a reached area leads to the goal, enters no area twice, and
      takes exactly the area's time less the start time. */
  lemma {:induction false} StoredWalk(w: World, c: nat, travelflags: bv32, goal: nat, start: nat, a: nat)
    returns (p: Walk)
    requires w.Valid() && w.IsCluster(c) && w.Member(c, a) && w.Member(c, goal) && start > 0
    requires w.ClusterAreaNum(c, a) < w.clusters[c].numreachabilityareas
    requires w.AreaSearch(c, goal, travelflags, start).times[w.ClusterAreaNum(c, a)] != 0
    ensures var r := w.AreaSearch(c, goal, travelflags, start);
      && IsWalk(w, c, travelflags, goal, a, p) && FollowsStored(w, c, r, goal, a, p) && NoAreaTwice(w, a, p)
      && WalkTime(w, c, travelflags, goal, a, p) + start == r.times[w.ClusterAreaNum(c, a)]
    ensures p.There? <==> a == goal
    ensures forall b | b in AreasEntered(w, p) ::
      b == goal || EarlierThan(w, c, w.AreaSearch(c, goal, travelflags, start), b, a)
    decreases if a == goal then 0 else 1, w.AreaSearch(c, goal, travelflags, start).times[w.ClusterAreaNum(c, a)]
  {
    hide World.Valid, World.AreaSearch, EntryOf, Crossing;
    var r := w.AreaSearch(c, goal, travelflags, start);
    Bounds(w);
    if a == goal {
      GoalTime(w, c, travelflags, goal, start);
      p := There;
    } else {
      StoredReachability(w, c, travelflags, goal, start, a);
      var l := w.settings[a].firstreachablearea + r.exit[w.ClusterAreaNum(c, a)];
      var q := StoredWalk(w, c, travelflags, goal, start, w.reachability[l].areanum);
      p := Take(l, q);
      StepThenWalk(w, c, travelflags, r, goal, start, a, l, q);
    }
  }

  /** A step, and the walk on from there. */
  lemma StepThenWalk(w: World, c: nat, travelflags: bv32, r: State, goal: nat, start: nat, a: nat, l: nat, q: Walk)
    requires w.Valid() && w.IsCluster(c) && w.Member(c, a) && w.Member(c, goal) && a != goal
    requires |r.times| == |r.exit| == w.clusters[c].numreachabilityareas
    requires IsStep(w, c, travelflags, r, goal, a, l)
      && l == w.settings[a].firstreachablearea + r.exit[w.ClusterAreaNum(c, a)]
    requires var b := w.reachability[l].areanum;
      && IsWalk(w, c, travelflags, goal, b, q) && FollowsStored(w, c, r, goal, b, q) && NoAreaTwice(w, b, q)
      && WalkTime(w, c, travelflags, goal, b, q) + start == r.times[w.ClusterAreaNum(c, b)]
      && (q.There? <==> b == goal)
      && (forall y | y in AreasEntered(w, q) :: y == goal || EarlierThan(w, c, r, y, b))
    ensures var p := Take(l, q);
      && IsWalk(w, c, travelflags, goal, a, p) && FollowsStored(w, c, r, goal, a, p) && NoAreaTwice(w, a, p)
      && WalkTime(w, c, travelflags, goal, a, p) + start == r.times[w.ClusterAreaNum(c, a)]
      && (forall y | y in AreasEntered(w, p) :: y == goal || EarlierThan(w, c, r, y, a))
  {
    hide World.Valid, EntryOf, Crossing;
    Bounds(w);
    var b := w.reachability[l].areanum;
    assert b != goal ==> EarlierThan(w, c, r, b, a);
    forall y | y in AreasEntered(w, q) ensures (y == goal || EarlierThan(w, c, r, y, a)) && y != a {
    }
    assert b != a && a !in AreasEntered(w, q);
    assert NoAreaTwice(w, a, Take(l, q));
  }

  ghost predicate EarlierThan(w: World, c: nat, r: State, b: nat, a: nat)
    requires w.Valid() && a < |w.settings|
  {
    && b < |w.settings| && w.ClusterAreaNum(c, b) < |r.times| && w.ClusterAreaNum(c, a) < |r.times|
    && r.times[w.ClusterAreaNum(c, b)] < r.times[w.ClusterAreaNum(c, a)]
  }

  lemma GoalTime(w: World, c: nat, travelflags: bv32, goal: nat, start: nat)
    requires w.Valid() && w.IsCluster(c) && w.Member(c, goal) && start > 0
    requires w.ClusterAreaNum(c, goal) < w.clusters[c].numreachabilityareas
    ensures w.AreaSearch(c, goal, travelflags, start).times[w.ClusterAreaNum(c, goal)] == start
  {
    hide World.Valid, Search;
    Bounds(w);
    w.GraphIsValid(c, travelflags);
    var via, arc := SearchIsFixedPoint(w.GraphOf(c, travelflags), w.ClusterAreaNum(c, goal), start);
  }

  /** An area is reached exactly when some walk of allowed reachabilities inside the cluster leads to the goal. */
  lemma ReachedIffWalk(w: World, c: nat, travelflags: bv32, goal: nat, start: nat, a: nat)
    requires w.Valid() && w.IsCluster(c) && w.Member(c, a) && w.Member(c, goal) && start > 0
    requires w.settings[a].numreachableareas > 0 && w.settings[goal].numreachableareas > 0
    ensures w.ClusterAreaNum(c, a) < w.clusters[c].numreachabilityareas
    ensures w.AreaSearch(c, goal, travelflags, start).times[w.ClusterAreaNum(c, a)] != 0
       <==> exists p :: IsWalk(w, c, travelflags, goal, a, p)
  {
    assert w.NumberedOk(c);
    hide World.Valid, World.NumberedOk, Search;
    w.GraphIsValid(c, travelflags);
    var g := w.GraphOf(c, travelflags);
    ReachedIffRoute(g, w.ClusterAreaNum(c, goal), start, w.ClusterAreaNum(c, a));
    if w.AreaSearch(c, goal, travelflags, start).times[w.ClusterAreaNum(c, a)] != 0 {
      var p := StoredWalk(w, c, travelflags, goal, start, a);
    }
    if p :| IsWalk(w, c, travelflags, goal, a, p) {
      var q := WalkIsRoute(w, c, travelflags, goal, a, p);
    }
  }

  /** When no area's crossing time depends on the way out, a reached area has the time of a fastest walk. */
  lemma StoredWalkIsFastest(w: World, c: nat, travelflags: bv32, goal: nat, start: nat, a: nat)
    requires w.Valid() && w.IsCluster(c) && w.Member(c, a) && w.Member(c, goal) && start > 0
    requires w.settings[a].numreachableareas > 0 && w.settings[goal].numreachableareas > 0
    requires forall b: nat, e1: nat, e2: nat, i: nat | w.Member(c, b) && e1 < w.settings[b].numreachableareas
      && e2 < w.settings[b].numreachableareas && i < |w.reversed[b]| :: Crossing(w, b, e1, i) == Crossing(w, b, e2, i)
    requires w.ClusterAreaNum(c, a) < w.clusters[c].numreachabilityareas
    requires w.AreaSearch(c, goal, travelflags, start).times[w.ClusterAreaNum(c, a)] != 0
    ensures forall p | IsWalk(w, c, travelflags, goal, a, p) ::
      w.AreaSearch(c, goal, travelflags, start).times[w.ClusterAreaNum(c, a)] <= start
        + WalkTime(w, c, travelflags, goal, a, p)
  {
    Reached(w, c, travelflags, goal, start, w.ClusterAreaNum(c, a));
    CrossingsDoNotDepend(w, c, travelflags);
    hide World.Valid, Search, Crossing, ExitIndependent;
    var g := w.GraphOf(c, travelflags);
    SearchIsFastest(g, w.ClusterAreaNum(c, goal), start, w.ClusterAreaNum(c, a));
    forall p | IsWalk(w, c, travelflags, goal, a, p)
      ensures w.AreaSearch(c, goal, travelflags, start).times[w.ClusterAreaNum(c, a)] <= start
        + WalkTime(w, c, travelflags, goal, a, p)
    {
      var q := WalkIsRoute(w, c, travelflags, goal, a, p);
    }
  }

  lemma CrossingsOfNode(w: World, c: nat, travelflags: bv32, v: nat, j: nat)
    requires w.Valid() && w.IsCluster(c) && w.GraphOf(c, travelflags).IsArc(v, j)
    ensures var g := w.GraphOf(c, travelflags);
      && v < w.clusters[c].numreachabilityareas
      && var b := w.AreaOf(c, v);
      && w.Member(c, b) && g.Valid() && g.ArcOk(v, j) && |g.cross[v]| == w.settings[b].numreachableareas
      && g.into[v][j].entry < |w.reversed[b]|
      && forall e: nat | e < |g.cross[v]| :: g.cross[v][e][g.into[v][j].entry] == Crossing(w, b, e, g.into[v][j].entry)
  {
    w.GraphIsValid(c, travelflags);
    CrossingsCount(w, w.AreaOf(c, v));
    assert w.GraphOf(c, travelflags).ArcOk(v, j);
  }

  lemma CrossingsDoNotDepend(w: World, c: nat, travelflags: bv32)
    requires w.Valid() && w.IsCluster(c)
    requires forall b: nat, e1: nat, e2: nat, i: nat | w.Member(c, b) && e1 < w.settings[b].numreachableareas
      && e2 < w.settings[b].numreachableareas && i < |w.reversed[b]| :: Crossing(w, b, e1, i) == Crossing(w, b, e2, i)
    ensures w.GraphOf(c, travelflags).Valid() && ExitIndependent(w.GraphOf(c, travelflags))
  {
    w.GraphIsValid(c, travelflags);
    hide World.Valid;
    var g := w.GraphOf(c, travelflags);
    forall v: nat, j: nat, e1: nat, e2: nat | g.IsArc(v, j) && e1 < |g.cross[v]| && e2 < |g.cross[v]|
      ensures SameCrossing(g, v, j, e1, e2)
    {
      CrossingsOfNode(w, c, travelflags, v, j);
    }
  }
}
