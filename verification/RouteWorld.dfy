/** The data the routing code reads, and the search graph it amounts to inside one cluster. */
module RouteWorld {
  import opened AasFile
  import opened AreaSearch

  /** A reachability seen from the area it leads to. */
  datatype ReversedLink = ReversedLink(linknum: nat, areanum: nat)

  /** No flag is needed that the travel flags do not have. */
  predicate Permits(travelflags: bv32, needed: bv32) {
    needed & !travelflags == 0
  }

  datatype World = World(
    settings: seq<AreaSettings>,
    reachability: seq<Reachability>,
    portals: seq<Portal>,
    portalindex: seq<nat>,
    clusters: seq<Cluster>,
    travelflagfortype: seq<bv32>,
    areacontentstravelflags: seq<bv32>,
    reversed: seq<seq<ReversedLink>>,
    areatraveltimes: seq<seq<seq<nat>>>,
    portalmaxtraveltimes: seq<nat>)
  {
    /** Area numbers run from 1; area 0 is a dummy. */
    predicate IsArea(a: nat) { 0 < a < |settings| }

    ghost predicate SizesOk() {
      && |portals| > 0 && |clusters| > 0
      && (forall p | 0 <= p < |portals| :: portals[p].frontcluster < |clusters| && portals[p].backcluster < |clusters|)
      && |reversed| == |areatraveltimes| == |areacontentstravelflags| == |settings|
      && |travelflagfortype| == MAX_TRAVELTYPES
      && |portalmaxtraveltimes| == |portals|
      && (forall a | 0 <= a < |settings| :: -|portals| < settings[a].cluster < |clusters|)
    }

    /** Portal records and portal areas refer to each other; a portal joins two different clusters. */
    ghost predicate PortalsOk()
      requires SizesOk()
    {
      && (forall a: nat | IsArea(a) && settings[a].cluster < 0 :: portals[-settings[a].cluster].areanum == a)
      && (forall p | 0 < p < |portals| :: IsPortal(p))
    }

    ghost predicate IsPortal(p: nat)
      requires SizesOk() && p < |portals|
    {
      && IsArea(portals[p].areanum) && -settings[portals[p].areanum].cluster == p
      && 0 < portals[p].frontcluster < |clusters| && 0 < portals[p].backcluster < |clusters|
      && portals[p].frontcluster != portals[p].backcluster
    }

    /** The area is in cluster c, or a portal of it. */
    ghost predicate Member(c: nat, a: nat)
      requires SizesOk()
    {
      IsArea(a) && c > 0 &&
      var k := settings[a].cluster;
      k == c || (k < 0 && (portals[-k].frontcluster == c || portals[-k].backcluster == c))
    }

    /** Number of an area in a cluster it belongs to. */
    function ClusterAreaNum(c: nat, a: nat): (n: nat)
      requires a < |settings| && -|portals| < settings[a].cluster
    {
      var k := settings[a].cluster;
      if k > 0 then settings[a].clusterareanum
      else if portals[-k].frontcluster != c then portals[-k].clusterareanum.1
      else portals[-k].clusterareanum.0
    }

    ghost predicate Names(c: nat, n: nat, a: nat)
      requires SizesOk()
    {
      Member(c, a) && ClusterAreaNum(c, a) == n
    }

    ghost predicate IsTaken(c: nat, n: nat)
      requires SizesOk()
    {
      exists a: nat :: Names(c, n, a)
    }

    /** The members of cluster c are numbered without repetition, exactly those with
        reachabilities below numreachabilityareas, and no number below that is left over. */
    ghost predicate NumberedOk(c: nat)
      requires SizesOk() && c < |clusters|
    {
      && (forall a: nat, b: nat | Member(c, a) && Member(c, b) && ClusterAreaNum(c, a) == ClusterAreaNum(c, b) ::
        a == b)
      && (forall a: nat | Member(c, a) :: ClusterAreaNum(c, a) < clusters[c].numareas)
      && (forall a: nat | Member(c, a) :: ClusterAreaNum(c, a) < clusters[c].numreachabilityareas <==>
        settings[a].numreachableareas > 0)
      && (forall n: nat | n < clusters[c].numreachabilityareas :: IsTaken(c, n))
      && clusters[c].numreachabilityareas <= clusters[c].numareas
    }

    ghost predicate LinkOk(b: nat, i: nat)
      requires SizesOk() && b < |settings| && i < |reversed[b]|
    {
      var l := reversed[b][i];
      && IsArea(l.areanum) && l.linknum < |reachability| && reachability[l.linknum].areanum == b
      && settings[l.areanum].firstreachablearea <= l.linknum
      && l.linknum - settings[l.areanum].firstreachablearea < settings[l.areanum].numreachableareas
      && l.linknum - settings[l.areanum].firstreachablearea < 128
    }

    /** Every reversed link of an area is a reachability into it, listed once. */
    ghost predicate LinksOk()
      requires SizesOk()
    {
      && (forall b, i | 0 <= b < |settings| && 0 <= i < |reversed[b]| :: LinkOk(b, i))
      && (forall b, i, j | 0 <= b < |settings| && 0 <= i < j < |reversed[b]| ::
        reversed[b][i].linknum != reversed[b][j].linknum)
    }

    /** Reachability n of area a is on the list of the area it leads to. */
    ghost predicate IsListed(a: nat, n: nat)
      requires SizesOk() && a < |settings|
    {
      var l := settings[a].firstreachablearea + n;
      && l < |reachability| && reachability[l].areanum < |reversed|
      && ReversedLink(l, a) in reversed[reachability[l].areanum]
    }

    /** Crossing times: a row for each way out, an entry of at least 1 for each way in. */
    ghost predicate CrossingsOk(b: nat)
      requires SizesOk() && b < |settings|
    {
      && |areatraveltimes[b]| == settings[b].numreachableareas
      && (forall e | 0 <= e < |areatraveltimes[b]| :: |reversed[b]| <= |areatraveltimes[b][e]|)
      && (forall e, i | 0 <= e < |areatraveltimes[b]| && 0 <= i < |reversed[b]| :: 1 <= areatraveltimes[b][e][i])
    }

    /** The portals of a cluster are a slice of the portal index: those that have it in front or behind. */
    ghost predicate SliceOk(c: nat)
      requires SizesOk() && c < |clusters|
    {
      && clusters[c].firstportal + clusters[c].numportals <= |portalindex|
      && (forall i | clusters[c].firstportal <= i < clusters[c].firstportal + clusters[c].numportals ::
           && 0 < portalindex[i] < |portals|
           && (portals[portalindex[i]].frontcluster == c || portals[portalindex[i]].backcluster == c))
      && (forall p: nat | 0 < p < |portals| && (portals[p].frontcluster == c || portals[p].backcluster == c) ::
        Listed(c, p))
    }

    ghost predicate Listed(c: nat, p: nat)
      requires c < |clusters| && clusters[c].firstportal + clusters[c].numportals <= |portalindex|
    {
      exists i :: clusters[c].firstportal <= i < clusters[c].firstportal + clusters[c].numportals && portalindex[i] == p
    }

    /** A portal, or an area without cluster, with a link into a member of c belongs to c. */
    ghost predicate ClosedUnderLinks(c: nat)
      requires SizesOk() && LinksOk()
    {
      forall b: nat, i: nat | Member(c, b) && i < |reversed[b]| ::
        LinkOk(b, i) && (settings[reversed[b][i].areanum].cluster <= 0 ==> Member(c, reversed[b][i].areanum))
    }

    ghost predicate Valid() {
      && SizesOk() && PortalsOk() && LinksOk()
      && (forall b | 0 <= b < |settings| :: CrossingsOk(b))
      && (forall a: nat | IsArea(a) && settings[a].numreachableareas > 0 :: settings[a].cluster != 0)
      && (forall a: nat, n: nat | IsArea(a) && n < settings[a].numreachableareas && n < 128 :: IsListed(a, n))
      && (forall c | 0 < c < |clusters| :: NumberedOk(c) && SliceOk(c) && ClosedUnderLinks(c))
    }

    predicate Disabled(a: nat)
      requires a < |settings|
    {
      settings[a].areaflags & AREA_DISABLED != 0
    }

    function TravelFlagForType(traveltype: bv32): bv32
      requires |travelflagfortype| == MAX_TRAVELTYPES
    {
      var t := traveltype & TRAVELTYPE_MASK;
      if t >= 32 then TFL_INVALID
      else
        (if traveltype & TRAVELFLAG_NOTTEAM1 != 0 then TFL_NOTTEAM1 else 0)
        | (if traveltype & TRAVELFLAG_NOTTEAM2 != 0 then TFL_NOTTEAM2 else 0)
        | travelflagfortype[t as nat]
    }

    /** May the search for cluster c under these travel flags go back over link i into area b? */
    predicate Usable(c: nat, travelflags: bv32, b: nat, i: nat)
      requires Valid() && b < |settings| && i < |reversed[b]|
    {
      var l := reversed[b][i];
      assert LinkOk(b, i);
      && Permits(travelflags, TravelFlagForType(reachability[l.linknum].traveltype))
      && !Disabled(b)
      && Permits(travelflags, areacontentstravelflags[b])
      && !(settings[l.areanum].cluster > 0 && settings[l.areanum].cluster != c)
      && c < |clusters| && ClusterAreaNum(c, l.areanum) < clusters[c].numreachabilityareas
    }

    // ----- the search graph of a cluster

    ghost predicate IsCluster(c: nat) { 0 < c < |clusters| }

    /** The member of c numbered v. */
    ghost function AreaOf(c: nat, v: nat): (a: nat)
      requires Valid() && IsCluster(c) && v < clusters[c].numreachabilityareas
      ensures Member(c, a) && ClusterAreaNum(c, a) == v
    {
      assert NumberedOk(c) && IsTaken(c, v);
      var a: nat :| Names(c, v, a);
      a
    }

    lemma AreaOfNumber(c: nat, a: nat)
      requires Valid() && IsCluster(c) && Member(c, a) && ClusterAreaNum(c, a) < clusters[c].numreachabilityareas
      ensures AreaOf(c, ClusterAreaNum(c, a)) == a
    {
      assert NumberedOk(c);
    }

    ghost function ArcOf(c: nat, b: nat, i: nat): Arc
      requires Valid() && b < |settings| && i < |reversed[b]|
    {
      var l := reversed[b][i];
      assert LinkOk(b, i);
      Arc(ClusterAreaNum(c, l.areanum), l.linknum - settings[l.areanum].firstreachablearea, i,
        reachability[l.linknum].traveltime)
    }

    /** The arcs into area b from its link number i on. */
    ghost function ArcsFrom(c: nat, travelflags: bv32, b: nat, i: nat): (arcs: seq<Arc>)
      requires Valid() && b < |settings| && i <= |reversed[b]|
      ensures forall j | 0 <= j < |arcs| ::
        i <= arcs[j].entry < |reversed[b]| && Usable(c, travelflags, b, arcs[j].entry)
                && arcs[j] == ArcOf(c, b, arcs[j].entry)
      ensures forall j, k | 0 <= j < k < |arcs| :: arcs[j].entry < arcs[k].entry
      decreases |reversed[b]| - i
    {
      hide Usable, ArcOf;
      if i == |reversed[b]| then []
      else if Usable(c, travelflags, b, i) then [ArcOf(c, b, i)] + ArcsFrom(c, travelflags, b, i + 1)
      else ArcsFrom(c, travelflags, b, i + 1)
    }

    /** One link further: its arc, if the link is usable. */
    lemma ArcsRound(c: nat, travelflags: bv32, b: nat, i: nat, arcs: seq<Arc>, j: nat)
      requires Valid() && b < |settings| && i < |reversed[b]| && j <= |arcs|
      requires arcs[j..] == ArcsFrom(c, travelflags, b, i)
      ensures Usable(c, travelflags, b, i) ==>
        j < |arcs| && arcs[j] == ArcOf(c, b, i) && arcs[j + 1..] == ArcsFrom(c, travelflags, b, i + 1)
      ensures !Usable(c, travelflags, b, i) ==> arcs[j..] == ArcsFrom(c, travelflags, b, i + 1)
    {
      if Usable(c, travelflags, b, i) {
        assert arcs[j..] == [ArcOf(c, b, i)] + ArcsFrom(c, travelflags, b, i + 1);
        assert arcs[j + 1..] == arcs[j..][1..];
        assert arcs[j] == arcs[j..][0];
      }
    }

    ghost function GraphOf(c: nat, travelflags: bv32): (g: Graph)
      requires Valid() && IsCluster(c)
      ensures |g.into| == |g.cross| == clusters[c].numreachabilityareas
      ensures forall v | 0 <= v < |g.into| :: g.into[v] == ArcsFrom(c, travelflags, AreaOf(c, v), 0)
      ensures forall v | 0 <= v < |g.into| :: g.cross[v] == areatraveltimes[AreaOf(c, v)]
    {
      var n := clusters[c].numreachabilityareas;
      Graph(seq(n, v requires 0 <= v < n => ArcsFrom(c, travelflags, AreaOf(c, v), 0)),
            seq(n, v requires 0 <= v < n => areatraveltimes[AreaOf(c, v)]))
    }

    /** The source of a usable link into a member is a member, the one its number names. */
    lemma UsableSource(c: nat, travelflags: bv32, b: nat, i: nat)
      requires Valid() && IsCluster(c) && Member(c, b) && i < |reversed[b]| && Usable(c, travelflags, b, i)
      ensures var a := reversed[b][i].areanum;
        && Member(c, a) && ClusterAreaNum(c, a) < clusters[c].numreachabilityareas
        && AreaOf(c, ClusterAreaNum(c, a)) == a
    {
      assert LinkOk(b, i) && NumberedOk(c) && ClosedUnderLinks(c);
    }

    lemma GraphIsValid(c: nat, travelflags: bv32)
      requires Valid() && IsCluster(c)
      ensures GraphOf(c, travelflags).Valid()
    {
      var g := GraphOf(c, travelflags);
      forall v: nat, j: nat | v < |g.into| && j < |g.into[v]| ensures g.ArcOk(v, j) {
        var b := AreaOf(c, v);
        var i := g.into[v][j].entry;
        UsableSource(c, travelflags, b, i);
        assert LinkOk(b, i) && CrossingsOk(b) && CrossingsOk(reversed[b][i].areanum);
      }
    }

    /** The reachability an arc stands for. */
    lemma ArcIsReachability(c: nat, travelflags: bv32, v: nat, j: nat)
      requires Valid() && IsCluster(c) && GraphOf(c, travelflags).IsArc(v, j)
      ensures var a := GraphOf(c, travelflags).into[v][j];
        && a.from < clusters[c].numreachabilityareas && v < clusters[c].numreachabilityareas
        && var b, s := AreaOf(c, v), AreaOf(c, a.from);
        && b < |reversed| && a.entry < |reversed[b]| && s < |settings|
        && reversed[b][a.entry] == ReversedLink(settings[s].firstreachablearea + a.exit, s)
        && reversed[b][a.entry].linknum < |reachability| && reachability[reversed[b][a.entry].linknum].areanum == b
        && Usable(c, travelflags, b, a.entry) && a.time == reachability[reversed[b][a.entry].linknum].traveltime
    {
      var b, i := AreaOf(c, v), GraphOf(c, travelflags).into[v][j].entry;
      UsableSource(c, travelflags, b, i);
      assert LinkOk(b, i);
    }

    lemma LinkedOnce(b: nat, i: nat, j: nat)
      requires Valid() && b < |reversed| && i < |reversed[b]| && j < |reversed[b]|
        && reversed[b][i].linknum == reversed[b][j].linknum
      ensures i == j
    {
    }

    lemma GraphExitsAreUnique(c: nat, travelflags: bv32)
      requires Valid() && IsCluster(c)
      ensures GraphOf(c, travelflags).ExitsAreUnique()
    {
      hide Valid, Usable;
      var g := GraphOf(c, travelflags);
      forall v1: nat, j1: nat, v2: nat, j2: nat | g.IsArc(v1, j1) && g.IsArc(v2, j2)
        && g.into[v1][j1].from == g.into[v2][j2].from && g.into[v1][j1].exit == g.into[v2][j2].exit
        ensures v1 == v2 && j1 == j2
      {
        ArcIsReachability(c, travelflags, v1, j1);
        ArcIsReachability(c, travelflags, v2, j2);
        LinkedOnce(AreaOf(c, v1), g.into[v1][j1].entry, g.into[v2][j2].entry);
      }
    }

    /** The search towards area `goal` inside cluster c. */
    ghost function AreaSearch(c: nat, goal: nat, travelflags: bv32, start: nat): (r: State)
      requires Valid() && IsCluster(c) && Member(c, goal) && start > 0
      ensures |r.times| == |r.exit| == clusters[c].numreachabilityareas
    {
      GraphIsValid(c, travelflags);
      Search(GraphOf(c, travelflags), ClusterAreaNum(c, goal), start)
    }

    /** A goal without reachabilities is reached from nowhere. */
    lemma SearchFromOutside(c: nat, goal: nat, travelflags: bv32, start: nat)
      requires Valid() && IsCluster(c) && Member(c, goal) && start > 0
      requires ClusterAreaNum(c, goal) >= clusters[c].numreachabilityareas
      ensures var r := AreaSearch(c, goal, travelflags, start);
        r.times == r.exit == Zeros(clusters[c].numreachabilityareas)
    {
    }
  }
}
