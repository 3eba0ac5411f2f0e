/** The routing caches as a whole: every cache hangs on its bucket list and on the time list, and holds
    what a search done afresh would compute. */
module RouteCaches {
  import opened AasFile
  import opened Counting
  import opened Positions
  import opened RouteWorld
  import opened AreaSearch
  import opened AreaFlags
  import opened AreaRouting
  import opened PortalSearch
  import opened RoutingCacheRecord
  import opened CacheTimeList
  import opened CacheBuckets

  /** Bytes held by a list of caches. */
  ghost function Sizes(l: seq<RoutingCache>): nat {
    if l == [] then 0 else l[0].size + Sizes(l[1..])
  }

  lemma {:induction false} SizesAppend(l: seq<RoutingCache>, r: seq<RoutingCache>)
    ensures Sizes(l + r) == Sizes(l) + Sizes(r)
  {
    if l == [] {
      assert l + r == r;
    } else {
      SizesAppend(l[1..], r);
      assert (l + r)[1..] == l[1..] + r;
    }
  }

  lemma SizesWithout(l: seq<RoutingCache>, x: RoutingCache)
    requires x in l
    ensures Sizes(Without(l, x)) == Sizes(l) - x.size
  {
    var i := At(l, x);
    SizesAppend(l[..i], l[i + 1..]);
    SizesAppend(l[..i], [x] + l[i + 1..]);
    assert l == l[..i] + ([x] + l[i + 1..]);
    assert ([x] + l[i + 1..])[1..] == l[i + 1..];
  }

  lemma WithoutElements<T>(l: seq<T>, x: T)
    requires x in l && Distinct(l)
    ensures Distinct(Without(l, x)) && Elements(Without(l, x)) == Elements(l) - {x}
  {
    var i := At(l, x);
    var r := Without(l, x);
    forall y | y in Elements(l) && y != x ensures y in Elements(r) {
      var j := At(l, y);
      assert r[if j < i then j else j - 1] == y;
    }
    forall j | 0 <= j < |r| ensures r[j] in Elements(l) && r[j] != x {
      assert r[j] == l[if j < i then j else j + 1];
    }
  }

  /** The cluster a goal area is taken to be in: a portal's is its front cluster. */
  function GoalCluster(w: World, a: nat): nat
    requires a < |w.settings| && -|w.portals| < w.settings[a].cluster
  {
    if w.settings[a].cluster < 0 then w.portals[-w.settings[a].cluster].frontcluster else w.settings[a].cluster
  }

  /** All buckets there are. */
  ghost predicate IsBucket(w: World, k: Bucket) {
    match k
    case AreaBucket(c, n) => c < |w.clusters| && n < w.clusters[c].numareas
    case PortalBucket(a) => a < |w.settings|
  }

  /** The caches whose home is none of these buckets. */
  ghost function Staying(caches: set<RoutingCache>, gone: set<Bucket>): set<RoutingCache> {
    set x | x in caches && x.home !in gone
  }

  ghost function ClusterBuckets(w: World, c: nat): set<Bucket>
    requires c < |w.clusters|
  {
    set n | 0 <= n < w.clusters[c].numareas :: AreaBucket(c, n)
  }

  ghost function PortalBuckets(w: World): set<Bucket> {
    set a | 0 <= a < |w.settings| :: PortalBucket(a)
  }

  /** The area caches of an area's cluster, or of the two clusters of a portal. */
  ghost function ClustersOf(w: World, a: nat): set<Bucket>
    requires w.SizesOk() && a < |w.settings|
  {
    var k := w.settings[a].cluster;
    if k > 0 then ClusterBuckets(w, k)
    else ClusterBuckets(w, w.portals[-k].frontcluster) + ClusterBuckets(w, w.portals[-k].backcluster)
  }

  /** The buckets emptied when area a is disabled or enabled: those, and all portal caches. */
  ghost function Affected(w: World, a: nat): set<Bucket>
    requires w.SizesOk() && a < |w.settings|
  {
    ClustersOf(w, a) + PortalBuckets(w)
  }

  lemma StayingTwice(m: set<RoutingCache>, a: set<Bucket>, b: set<Bucket>)
    ensures Staying(Staying(m, a), b) == Staying(m, a + b) <= m
  {
  }

  /** A cache outside the affected buckets is right in the changed world too. */
  lemma StillCorrect(w: World, a: nat, flags: bv32, x: RoutingCache)
    requires a < |w.settings| && Correct(w, x) && x.home !in Affected(w, a)
    ensures Correct(WithFlags(w, a, flags), x)
  {
    var v := WithFlags(w, a, flags);
    if x.cachetype.CACHETYPE_AREA? {
      assert w.NumberedOk(x.cluster);
      assert x.home in ClusterBuckets(w, x.cluster);
      assert !w.Member(x.cluster, a);
      SameMembers(w, a, flags);
      SameSearch(w, a, flags, x.cluster, x.areanum, x.travelflags, 1);
    }
  }

  lemma AllStillCorrect(w: World, a: nat, flags: bv32, before: set<RoutingCache>, after: set<RoutingCache>)
    requires w.Valid() && a < |w.settings| && AllCorrect(w, before) && after == Staying(before, Affected(w, a))
    ensures AllCorrect(WithFlags(w, a, flags), after)
  {
    hide World.Valid, Correct, Affected;
    forall x | x in after ensures Correct(WithFlags(w, a, flags), x) {
      StillCorrect(w, a, flags, x);
    }
  }

  ghost predicate AllBuckets(w: World, keys: set<Bucket>) {
    forall k :: k in keys <==> IsBucket(w, k)
  }

  function BucketKeys(w: World): set<Bucket> {
    (set c, n | 0 <= c < |w.clusters| && 0 <= n < w.clusters[c].numareas :: AreaBucket(c, n))
    + (set a | 0 <= a < |w.settings| :: PortalBucket(a))
  }

  lemma KeysAreBuckets(w: World)
    ensures AllBuckets(w, BucketKeys(w))
  {
  }

  /** The cache is filed where it belongs and holds what a fresh search computes. */
  ghost predicate Correct(w: World, x: RoutingCache)
    reads x.traveltimes, x.reachabilities
  {
    && w.Valid() && x.starttraveltime == 1
    && match x.cachetype
      case CACHETYPE_AREA =>
        && w.IsCluster(x.cluster) && w.Member(x.cluster, x.areanum)
        && x.home == AreaBucket(x.cluster, w.ClusterAreaNum(x.cluster, x.areanum))
        && x.traveltimes[..] == w.AreaSearch(x.cluster, x.areanum, x.travelflags, 1).times
        && x.reachabilities[..] == w.AreaSearch(x.cluster, x.areanum, x.travelflags, 1).exit
      case CACHETYPE_PORTAL =>
        && w.IsArea(x.areanum) && x.cluster == GoalCluster(w, x.areanum)
        && w.IsCluster(x.cluster) && w.Member(x.cluster, x.areanum)
        && x.home == PortalBucket(x.areanum)
        && x.traveltimes[..] == PortalSearch.PortalSearch(w, x.cluster, x.areanum, x.travelflags).times
        && x.reachabilities[..] == Zeros(|w.portals|)
  }

  ghost predicate AllCorrect(w: World, caches: set<RoutingCache>)
    reads set x | x in caches :: x.traveltimes, set x | x in caches :: x.reachabilities
  {
    forall x | x in caches :: Correct(w, x)
  }

  lemma FilledIsCorrect(w: World, x: RoutingCache)
    requires w.Valid() && x.starttraveltime == 1 && x.cachetype == CACHETYPE_AREA
    requires w.IsCluster(x.cluster) && w.Member(x.cluster, x.areanum)
    requires x.home == AreaBucket(x.cluster, w.ClusterAreaNum(x.cluster, x.areanum))
    requires x.traveltimes[..] == w.AreaSearch(x.cluster, x.areanum, x.travelflags, 1).times
    requires x.reachabilities[..] == w.AreaSearch(x.cluster, x.areanum, x.travelflags, 1).exit
    ensures Correct(w, x)
  {
  }

  /** May the cache be evicted? Area caches towards a portal stay. */
  predicate Evictable(w: World, x: RoutingCache) {
    !(x.cachetype == CACHETYPE_AREA && x.areanum < |w.settings| && w.settings[x.areanum].cluster < 0)
  }

  /** An area cache that leads to the area of a portal. */
  ghost predicate LeadsToPortal(w: World, x: RoutingCache) {
    x.cachetype == CACHETYPE_AREA && exists p :: 0 < p < |w.portals| && w.portals[p].areanum == x.areanum
  }

  /** Those stay, all others may go. */
  lemma EvictableIs(w: World, x: RoutingCache)
    requires Correct(w, x)
    ensures Evictable(w, x) <==> !LeadsToPortal(w, x)
  {
    hide World.LinksOk, World.CrossingsOk, World.NumberedOk, World.SliceOk, World.ClosedUnderLinks, World.IsListed,
      World.AreaSearch;
    if p :| 0 < p < |w.portals| && w.portals[p].areanum == x.areanum {
      assert w.IsPortal(p);
    }
    if x.cachetype == CACHETYPE_AREA && x.areanum < |w.settings| && w.settings[x.areanum].cluster < 0 {
      assert w.portals[-w.settings[x.areanum].cluster].areanum == x.areanum;
    }
  }

  /** The first of the list that does not lead to a portal. */
  ghost predicate OldestEvictable(w: World, l: seq<RoutingCache>, i: nat)
    requires i < |l|
  {
    !LeadsToPortal(w, l[i]) && forall j | 0 <= j < i :: LeadsToPortal(w, l[j])
  }

  lemma WithoutAt<T>(l: seq<T>, i: nat)
    requires Distinct(l) && i < |l|
    ensures l[i] in l && Without(l, l[i]) == l[..i] + l[i + 1..]
  {
    assert At(l, l[i]) == i;
  }

  lemma FilledPortal(w: World, x: RoutingCache)
    requires w.Valid() && x.starttraveltime == 1 && x.cachetype == CACHETYPE_PORTAL && w.IsArea(x.areanum)
    requires x.cluster == GoalCluster(w, x.areanum) && w.IsCluster(x.cluster) && w.Member(x.cluster, x.areanum)
    requires x.home == PortalBucket(x.areanum)
    requires x.traveltimes[..] == PortalSearch.PortalSearch(w, x.cluster, x.areanum, x.travelflags).times
    requires x.reachabilities[..] == Zeros(|w.portals|)
    ensures Correct(w, x)
  {
  }

  /** What comes before a cache that has just been used: the others, in their order. */
  ghost function Behind(l: seq<RoutingCache>, x: RoutingCache): seq<RoutingCache> {
    if x in l then Without(l, x) else l
  }

  class Routing {
    var w: World
    const router: AreaRouter
    const time: TimeList
    const table: BucketTable
    const portalupdate: array<PortalUpdate>
    const header: nat
    var routingcachesize: nat

    /** Both lists hold the same caches, each once, and their sizes are accounted for. A cache that is
        being made is `pending`: on its bucket list, not yet on the time list. */
    ghost predicate Balanced(pending: seq<RoutingCache>)
      reads this`routingcachesize, time, table
    {
      && Distinct(pending) && Elements(time.contents) !! Elements(pending)
      && Elements(time.contents) + Elements(pending) == table.members
      && routingcachesize == Sizes(time.contents) + Sizes(pending)
    }

    /** No two caches, and no cache and the router, share an array. */
    ghost predicate Separate(members: set<RoutingCache>) {
      && (forall x | x in members :: router.Apart(x))
      && (forall x, y | x in members && y in members && x != y :: Disjoint(x, y))
    }

    ghost predicate Disjoint(x: RoutingCache, y: RoutingCache) {
      {x.traveltimes, x.reachabilities} !! {y.traveltimes, y.reachabilities}
    }

    /** The world is sound, the router is ready for it, and there is a bucket for everything. */
    ghost predicate Ready()
      reads this`w, table, router.updateheappos
    {
      && w.Valid() && router.Valid() && router.RoomFor(w) && router.Idle() && portalupdate.Length == |w.portals| + 1
      && AllBuckets(w, table.contents.Keys)
    }

    ghost predicate ListsOk(pending: seq<RoutingCache>)
      reads this`routingcachesize, time, table, time.contents`time_prev, time.contents`time_next
      reads table.members`prev, table.members`next
    {
      time.Valid() && table.Valid() && Balanced(pending) && Separate(table.members)
    }

    ghost predicate ValidBut(pending: seq<RoutingCache>)
      reads this, time, table, time.contents`time_prev, time.contents`time_next, table.members`prev, table.members`next
      reads set x | x in Elements(time.contents) :: x.traveltimes
      reads set x | x in Elements(time.contents) :: x.reachabilities
      reads router.updateheappos
    {
      Ready() && ListsOk(pending) && AllCorrect(w, Elements(time.contents))
    }

    ghost predicate Valid()
      reads this, time, table, time.contents`time_prev, time.contents`time_next, table.members`prev, table.members`next
      reads set x | x in Elements(time.contents) :: x.traveltimes
      reads set x | x in Elements(time.contents) :: x.reachabilities
      reads router.updateheappos
    {
      ValidBut([])
    }

    constructor (w: World, header: nat)
      requires w.Valid()
      ensures Valid() && this.w == w && table.members == {}
      ensures fresh(router.areaupdate) && fresh(router.updateheap) && fresh(router.updateheappos) && fresh(time)
        && fresh(table) && fresh(portalupdate)
    {
      this.w, this.header, routingcachesize := w, header, 0;
      var keys := BucketKeys(w);
      portalupdate := new PortalUpdate[|w.portals| + 1](i => PortalUpdate(0, 0, 0));
      router := new AreaRouter(w);
      time := new TimeList();
      table := new BucketTable(keys);
      new;
      hide World.Valid, Correct, TimeList.Valid, BucketTable.Valid, BucketKeys, IsBucket;
      KeysAreBuckets(w);
      assert table.contents.Keys == BucketKeys(w);
    }

    /** Take a cache off the time list. */
    method Unlink(cache: RoutingCache, ghost pending: seq<RoutingCache>)
      requires ValidBut(pending) && cache in time.contents
      modifies time, time.contents`time_prev, time.contents`time_next
      ensures ValidBut(pending + [cache]) && time.contents == Without(old(time.contents), cache)
      ensures Correct(w, cache)
    {
      hide Sizes, Without, Ready, Separate, TimeList.Valid, BucketTable.Valid, Balanced, Correct;
      UnlinkBalance(cache, pending);
      ElementsAppend(time.contents, cache);
      time.UnlinkCache(cache);
      assert Balanced(pending + [cache]) by { Rebalance(pending + [cache]); }
    }

    /** Values for which the lists are in balance. */
    ghost predicate InBalance(contents: seq<RoutingCache>, pending: seq<RoutingCache>, members: set<RoutingCache>,
                              size: nat) {
      && Distinct(pending) && Elements(contents) !! Elements(pending)
      && Elements(contents) + Elements(pending) == members
      && size == Sizes(contents) + Sizes(pending)
    }

    lemma Rebalance(pending: seq<RoutingCache>)
      requires InBalance(time.contents, pending, table.members, routingcachesize)
      ensures Balanced(pending)
    {
    }

    lemma UnlinkBalance(cache: RoutingCache, pending: seq<RoutingCache>)
      requires Balanced(pending) && time.Valid() && cache in time.contents
      ensures InBalance(Without(time.contents, cache), pending + [cache], table.members, routingcachesize)
      ensures Elements(Without(time.contents, cache)) == Elements(time.contents) - {cache}
    {
      SizesWithout(time.contents, cache);
      SizesAppend(pending, [cache]);
      WithoutElements(time.contents, cache);
      ElementsAppend(time.contents, cache);
      ElementsAppend(pending, cache);
    }

    /** Put a cache that holds its final times on the time list, as the newest. */
    method Link(cache: RoutingCache, ghost pending: seq<RoutingCache>)
      requires ValidBut(pending + [cache]) && Correct(w, cache)
      modifies time, time.contents`time_prev, time.contents`time_next, cache`time_prev, cache`time_next
      ensures ValidBut(pending) && time.contents == old(time.contents) + [cache]
    {
      hide Sizes, Ready, Separate, TimeList.Valid, BucketTable.Valid, Balanced, Correct;
      LinkBalance(cache, pending);
      ElementsAppend(time.contents, cache);
      time.LinkCache(cache);
      assert Balanced(pending) by { Rebalance(pending); }
    }

    lemma LinkBalance(cache: RoutingCache, pending: seq<RoutingCache>)
      requires Balanced(pending + [cache])
      ensures cache !in time.contents
      ensures InBalance(time.contents + [cache], pending, table.members, routingcachesize)
    {
      ElementsAppend(pending, cache);
      ElementsAppend(time.contents, cache);
      SizesAppend(pending, [cache]);
      SizesAppend(time.contents, [cache]);
      var p := pending + [cache];
      forall i, j | 0 <= i < j < |pending| ensures pending[i] != pending[j] {
        assert p[i] != p[j];
      }
      forall i | 0 <= i < |pending| ensures pending[i] != cache {
        assert p[i] != p[|pending|];
      }
    }

    /** Put a new cache in its bucket. */
    method Push(k: Bucket, cache: RoutingCache, ghost pending: seq<RoutingCache>)
      requires ValidBut(pending) && cache !in table.members && cache.home == k && IsBucket(w, k)
      requires router.Apart(cache) && forall x | x in table.members :: Disjoint(x, cache)
      modifies this`routingcachesize, table, table.members`prev, cache`prev, cache`next
      ensures ValidBut(pending + [cache]) && table.members == old(table.members) + {cache}
    {
      hide Sizes, TimeList.Valid, BucketTable.Valid, Balanced, Correct, AllCorrect, IsBucket, World.Valid,
        AreaRouter.Idle;
      PushBalance(cache, pending);
      routingcachesize := routingcachesize + cache.size;
      table.Push(k, cache);
      assert Balanced(pending + [cache]) by { Rebalance(pending + [cache]); }
    }

    lemma PushBalance(cache: RoutingCache, pending: seq<RoutingCache>)
      requires Balanced(pending) && cache !in table.members
      ensures InBalance(time.contents, pending + [cache], table.members + {cache}, routingcachesize + cache.size)
    {
      ElementsAppend(pending, cache);
      ElementsAppend(time.contents, cache);
      SizesAppend(pending, [cache]);
    }

    /** A cache found under the bucket and flags asked for is the one for that area. */
    lemma FoundAreaCache(cache: RoutingCache, clusternum: nat, areanum: nat, pending: seq<RoutingCache>)
      requires ValidBut(pending) && w.IsCluster(clusternum) && w.Member(clusternum, areanum)
      requires forall x | x in pending :: x.home.PortalBucket?
      requires cache in table.members && cache.home == AreaBucket(clusternum, w.ClusterAreaNum(clusternum, areanum))
      ensures cache in time.contents
      ensures cache.cachetype == CACHETYPE_AREA && cache.cluster == clusternum && cache.areanum == areanum
    {
      assert w.NumberedOk(clusternum);
      assert cache in Elements(time.contents);
      assert Correct(w, cache);
    }

    /** The area cache towards `areanum` in a cluster: the one held, or a new one; it becomes the newest. */
    method GetAreaRoutingCache(clusternum: nat, areanum: nat, travelflags: bv32, ghost pending: seq<RoutingCache>)
      returns (cache: RoutingCache)
      requires ValidBut(pending) && w.IsCluster(clusternum) && w.Member(clusternum, areanum)
      requires forall x | x in pending :: x.home.PortalBucket?
      requires w.AreaSearch(clusternum, areanum, travelflags, 1).fits
      modifies this`routingcachesize, time, table, table.members, router.areaupdate, router.updateheap
      modifies router.updateheappos
      ensures ValidBut(pending) && Newest(cache) && time.contents == Behind(old(time.contents), cache) + [cache]
      ensures fresh(table.members - old(table.members)) && old(table.members) <= table.members
      ensures cache.cachetype == CACHETYPE_AREA
      ensures cache.cluster == clusternum && cache.areanum == areanum && cache.travelflags == travelflags
    {
      hide Correct, World.Member, World.Valid, Separate, Balanced, TimeList.Valid, BucketTable.Valid, AllCorrect,
        Sizes, IsBucket;
      cache := HeldOrNew(clusternum, areanum, travelflags, pending);
      ListedIsMember(pending + [cache]);
      assert forall x | x in time.contents :: x in old(table.members) || fresh(x);
      Link(cache, pending);
    }

    /** The cache asked for, off the time list. */
    method HeldOrNew(clusternum: nat, areanum: nat, travelflags: bv32, ghost pending: seq<RoutingCache>)
      returns (cache: RoutingCache)
      requires ValidBut(pending) && w.IsCluster(clusternum) && w.Member(clusternum, areanum)
      requires forall x | x in pending :: x.home.PortalBucket?
      requires w.AreaSearch(clusternum, areanum, travelflags, 1).fits
      modifies this`routingcachesize, time, table, table.members, router.areaupdate, router.updateheap
      modifies router.updateheappos
      ensures ValidBut(pending + [cache]) && Correct(w, cache)
      ensures table.members == old(table.members) + {cache} && (cache in old(table.members) || fresh(cache))
      ensures time.contents == Behind(old(time.contents), cache)
      ensures cache.cachetype == CACHETYPE_AREA
      ensures cache.cluster == clusternum && cache.areanum == areanum && cache.travelflags == travelflags
    {
      hide Correct, World.Member, World.Valid, Separate, Balanced, TimeList.Valid, BucketTable.Valid, AllCorrect,
        Sizes, IsBucket;
      HasBucket(clusternum, areanum, pending);
      var k := AreaBucket(clusternum, w.ClusterAreaNum(clusternum, areanum));
      table.InBucket(k);
      var held := table.Find(k, travelflags);
      if held == null {
        cache := NewAreaCache(k, clusternum, areanum, travelflags, pending);
      } else {
        cache := held;
        FoundAreaCache(cache, clusternum, areanum, pending);
        ListedIsMember(pending);
        Unlink(cache, pending);
      }
    }

    ghost predicate Newest(cache: RoutingCache)
      reads time
    {
      time.contents != [] && time.contents[|time.contents| - 1] == cache
    }

    lemma HasBucket(clusternum: nat, areanum: nat, pending: seq<RoutingCache>)
      requires ValidBut(pending) && w.IsCluster(clusternum) && w.Member(clusternum, areanum)
      ensures areanum < |w.settings| && -|w.portals| < w.settings[areanum].cluster
      ensures var k := AreaBucket(clusternum, w.ClusterAreaNum(clusternum, areanum));
        IsBucket(w, k) && k in table.contents
      ensures table.Valid()
    {
      assert w.NumberedOk(clusternum);
    }

    method NewAreaCache(k: Bucket, clusternum: nat, areanum: nat, travelflags: bv32, ghost pending: seq<RoutingCache>)
      returns (cache: RoutingCache)
      requires ValidBut(pending) && w.IsCluster(clusternum) && w.Member(clusternum, areanum)
      requires k == AreaBucket(clusternum, w.ClusterAreaNum(clusternum, areanum)) && IsBucket(w, k)
      requires w.AreaSearch(clusternum, areanum, travelflags, 1).fits
      modifies this`routingcachesize, table, table.members`prev, router.areaupdate, router.updateheap
      modifies router.updateheappos
      ensures fresh(cache) && ValidBut(pending + [cache]) && table.members == old(table.members) + {cache}
      ensures Correct(w, cache) && time.contents == old(time.contents)
      ensures cache.cachetype == CACHETYPE_AREA
      ensures cache.cluster == clusternum && cache.areanum == areanum && cache.travelflags == travelflags
    {
      hide World.Valid, World.Member, World.AreaSearch, World.ClusterAreaNum, Correct, AllCorrect, IsBucket;
      cache := NewCache(w.clusters[clusternum].numreachabilityareas, CACHETYPE_AREA, clusternum, areanum, travelflags,
        k, pending);
      FillAreaCache(cache, pending);
    }

    lemma MembersOf(pending: seq<RoutingCache>)
      requires ListsOk(pending)
      ensures forall x | x in time.contents :: x in table.members
      ensures forall x | x in pending :: x in table.members
    {
      ListedIsMember(pending);
    }

    lemma ListedIsMember(pending: seq<RoutingCache>)
      requires Balanced(pending)
      ensures forall x | x in time.contents :: x in table.members
      ensures forall x | x in pending :: x in table.members
    {
      forall x | x in time.contents ensures x in table.members {
        assert x in Elements(time.contents);
      }
      forall x | x in pending ensures x in table.members {
        assert x in Elements(pending);
      }
    }

    /** Run the search for a new area cache. */
    method FillAreaCache(cache: RoutingCache, ghost pending: seq<RoutingCache>)
      requires ValidBut(pending + [cache]) && w.IsCluster(cache.cluster) && w.Member(cache.cluster, cache.areanum)
      requires cache.cachetype == CACHETYPE_AREA && cache.starttraveltime == 1
      requires cache.home == AreaBucket(cache.cluster, w.ClusterAreaNum(cache.cluster, cache.areanum))
      requires cache.traveltimes[..] == cache.reachabilities[..]
      requires cache.traveltimes[..] == Zeros(w.clusters[cache.cluster].numreachabilityareas)
      requires w.AreaSearch(cache.cluster, cache.areanum, cache.travelflags, 1).fits
      modifies cache.traveltimes, cache.reachabilities, router.areaupdate, router.updateheap, router.updateheappos
      ensures ValidBut(pending + [cache]) && Correct(w, cache)
    {
      ArraysApart(cache, pending);
      hide World.Valid, Correct, Balanced, TimeList.Valid, BucketTable.Valid, Elements, Separate, World.Member,
        World.AreaSearch, IsBucket;
      router.UpdateAreaRoutingCache(w, cache);
      FilledIsCorrect(w, cache);
    }

    /** The arrays a cache being made is filled in are not those of a finished one. */
    lemma ArraysApart(cache: RoutingCache, pending: seq<RoutingCache>)
      requires Balanced(pending + [cache]) && Separate(table.members)
      ensures forall x | x in Elements(time.contents) ::
        && {x.traveltimes, x.reachabilities} !! {cache.traveltimes, cache.reachabilities}
        && {x.traveltimes, x.reachabilities} !! {router.updateheap, router.updateheappos}
      ensures router.Apart(cache)
    {
      ElementsAppend(pending, cache);
    }

    /** A cleared cache, in its bucket. */
    method NewCache(n: nat, cachetype: CacheType, cluster: nat, areanum: nat, travelflags: bv32, k: Bucket,
                    ghost pending: seq<RoutingCache>)
      returns (cache: RoutingCache)
      requires ValidBut(pending) && IsBucket(w, k)
      modifies this`routingcachesize, table, table.members`prev
      ensures fresh(cache) && fresh(cache.traveltimes) && fresh(cache.reachabilities)
      ensures ValidBut(pending + [cache]) && table.members == old(table.members) + {cache}
      ensures cache.cachetype == cachetype && cache.cluster == cluster && cache.areanum == areanum
      ensures cache.travelflags == travelflags && cache.starttraveltime == 1 && cache.home == k
      ensures cache.traveltimes[..] == Zeros(n) == cache.reachabilities[..]
    {
      hide World.Valid, Correct, Balanced, TimeList.Valid, BucketTable.Valid, AllCorrect, Sizes;
      cache := new RoutingCache(n, header, cachetype, cluster, areanum, 1, travelflags, k);
      Push(k, cache, pending);
    }

    // ----- portal caches

    /** The arrays of the portal search hold its state s. */
    ghost predicate HoldsPortals(s: PortalState, cache: RoutingCache, queue: seq<nat>)
      reads this`w, portalupdate, cache.traveltimes
    {
      && PortalSearch.StateOk(w, s) && portalupdate.Length == |w.portals| + 1
      && cache.traveltimes[..] == s.times && queue == s.queue
      && forall x | x in queue :: x <= |w.portals| && portalupdate[x] == s.updates[x]
    }

    /** Offer portal number i of the cluster of u the time through u, read from the area cache towards u's area. */
    method VisitPortal(cache: RoutingCache, areacache: RoutingCache, u: PortalUpdate, i: nat, queue: seq<nat>,
                       ghost s: PortalState)
      returns (queue': seq<nat>)
      requires ValidBut([cache]) && HoldsPortals(s, cache, queue) && PortalSearch.UpdateOk(w, u)
      requires areacache in time.contents && areacache.cachetype == CACHETYPE_AREA
      requires areacache.cluster == u.cluster && areacache.areanum == u.areanum
        && areacache.travelflags == cache.travelflags
      requires i < w.clusters[u.cluster].numportals && Visit(w, cache.travelflags, s, u, i).fits
      modifies cache.traveltimes, portalupdate
      ensures ValidBut([cache]) && HoldsPortals(Visit(w, cache.travelflags, s, u, i), cache, queue')
    {
      hide World.Valid, World.SizesOk, World.Member, World.AreaSearch, World.ClusterAreaNum, ValidBut, Ready, ListsOk,
        AllCorrect,
        Correct, TimeInCluster, OtherSide, PortalSearch.StateOk, Visit;
      PendingApart(cache);
      StateSizes(s);
      StateSizes(Visit(w, cache.travelflags, s, u, i));
      VisitIn16Bits(cache.travelflags, s, u, i);
      var portalnum := PortalOf(w, u.cluster, i);
      queue' := queue;
      var t := TimeThrough(areacache, u, portalnum, cache);
      if t == 0 { return; }
      t := (t + u.tmptraveltime) % 65536;
      queue' := OfferPortal(cache, portalnum, u, t, queue, s);
    }

    /** Where no time reaches 65536, Visit is what the 16-bit sums of OfferPortal compute. */
    lemma VisitIn16Bits(travelflags: bv32, s: PortalState, u: PortalUpdate, i: nat)
      requires PortalSearch.StateOk(w, s) && PortalSearch.UpdateOk(w, u) && i < w.clusters[u.cluster].numportals
      requires Visit(w, travelflags, s, u, i).fits
      ensures var r, p := Visit(w, travelflags, s, u, i), PortalOf(w, u.cluster, i);
        var t0 := TimeInCluster(w, travelflags, u, p);
        var t := (t0 + u.tmptraveltime) % 65536;
        var better := t0 != 0 && (s.times[p] == 0 || s.times[p] > t);
        && (t0 != 0 ==> t > 0)
        && r.times == (if better then s.times[p := t] else s.times)
        && r.queue == (if better && p !in s.queue then s.queue + [p] else s.queue)
        && r.updates == if better
             then s.updates[p := PortalUpdate(OtherSide(w, p, u.cluster), w.portals[p].areanum,
                                              (t + w.portalmaxtraveltimes[p]) % 65536)]
             else s.updates
    {
      hide World.Valid, TimeInCluster, OtherSide;
      var p := PortalOf(w, u.cluster, i);
      InPortals(p);
    }

    lemma InPortals(p: nat)
      requires w.Valid() && p < |w.portals|
      ensures p < |w.portalmaxtraveltimes|
    {
    }

    lemma StateSizes(s: PortalState)
      requires PortalSearch.StateOk(w, s)
      ensures |s.times| == |w.portals| && |s.updates| == |w.portals| + 1
      ensures forall x | x in s.queue :: x <= |w.portals|
    {
    }

    /** Time from a portal to u inside u's cluster, read from the area cache towards u's area. */
    method TimeThrough(areacache: RoutingCache, u: PortalUpdate, portalnum: nat, ghost cache: RoutingCache)
      returns (t: nat)
      requires ValidBut([cache]) && PortalSearch.UpdateOk(w, u)
      requires areacache in time.contents && areacache.cachetype == CACHETYPE_AREA
      requires areacache.cluster == u.cluster && areacache.areanum == u.areanum
      requires 0 < portalnum < |w.portals| && w.Member(u.cluster, w.portals[portalnum].areanum)
      ensures t == TimeInCluster(w, areacache.travelflags, u, portalnum)
    {
      hide ValidBut;
      AreaTimesHeld(areacache, [cache]);
      t := 0;
      if w.portals[portalnum].areanum == u.areanum { return; }
      var clusterareanum := w.ClusterAreaNum(u.cluster, w.portals[portalnum].areanum);
      if clusterareanum >= w.clusters[u.cluster].numreachabilityareas { return; }
      t := areacache.traveltimes[clusterareanum];
    }

    /** Give a portal the time t if it has none or a worse one, and queue it. */
    method OfferPortal(cache: RoutingCache, portalnum: nat, u: PortalUpdate, t: nat, queue: seq<nat>,
                       ghost s: PortalState)
      returns (queue': seq<nat>)
      requires ValidBut([cache]) && HoldsPortals(s, cache, queue) && t > 0
      requires 0 < portalnum < |w.portals| && portalnum < |w.portalmaxtraveltimes|
      modifies cache.traveltimes, portalupdate
      ensures ValidBut([cache])
      ensures var v := PortalUpdate(OtherSide(w, portalnum, u.cluster), w.portals[portalnum].areanum,
                                    (t + w.portalmaxtraveltimes[portalnum]) % 65536);
        var better := s.times[portalnum] == 0 || s.times[portalnum] > t;
        && cache.traveltimes[..] == (if better then s.times[portalnum := t] else s.times)
        && queue' == (if better && portalnum !in queue then queue + [portalnum] else queue)
        && forall x | x in queue' :: portalupdate[x] == if better && x == portalnum then v else s.updates[x]
    {
      hide World.Valid, Ready, ListsOk, Correct, AllCorrect, OtherSide, Elements;
      PendingApart(cache);
      queue' := queue;
      if cache.traveltimes[portalnum] == 0 || cache.traveltimes[portalnum] > t {
        cache.traveltimes[portalnum] := t;
        portalupdate[portalnum] := PortalUpdate(OtherSide(w, portalnum, u.cluster), w.portals[portalnum].areanum,
                                                (t + w.portalmaxtraveltimes[portalnum]) % 65536);
        if portalnum !in queue {
          queue' := queue + [portalnum];
        }
      }
    }

    lemma PendingApart(cache: RoutingCache)
      requires ValidBut([cache])
      ensures w.Valid() && |w.portalmaxtraveltimes| == |w.portals|
      ensures forall x | x in Elements(time.contents) ::
        && {x.traveltimes, x.reachabilities} !! {cache.traveltimes, cache.reachabilities}
        && {x.traveltimes, x.reachabilities} !! {router.updateheap, router.updateheappos}
      ensures router.Apart(cache)
    {
      assert [] + [cache] == [cache];
      ArraysApart(cache, []);
    }

    lemma AreaTimesHeld(cache: RoutingCache, pending: seq<RoutingCache>)
      requires ValidBut(pending) && cache in time.contents && cache.cachetype == CACHETYPE_AREA
      ensures w.Valid() && w.IsCluster(cache.cluster) && w.Member(cache.cluster, cache.areanum)
      ensures cache.traveltimes[..] == w.AreaSearch(cache.cluster, cache.areanum, cache.travelflags, 1).times
      ensures cache.reachabilities[..] == w.AreaSearch(cache.cluster, cache.areanum, cache.travelflags, 1).exit
    {
      assert cache in Elements(time.contents) && Correct(w, cache);
    }

    /** Every area search the portal search may need fits in 16 bits. */
    ghost predicate AreaSearchesFit(travelflags: bv32)
      reads this`w
    {
      w.Valid() && forall c: nat, a: nat | w.IsCluster(c) && w.Member(c, a) :: w.AreaSearch(c, a, travelflags, 1).fits
    }

    /** Offer all portals of the cluster of u the time through u. */
    method VisitPortals(cache: RoutingCache, areacache: RoutingCache, u: PortalUpdate, queue: seq<nat>,
                        ghost s: PortalState)
      returns (queue': seq<nat>)
      requires ValidBut([cache]) && HoldsPortals(s, cache, queue) && PortalSearch.UpdateOk(w, u)
      requires areacache in time.contents && areacache.cachetype == CACHETYPE_AREA
      requires areacache.cluster == u.cluster && areacache.areanum == u.areanum
        && areacache.travelflags == cache.travelflags
      requires VisitFrom(w, cache.travelflags, s, u, 0).fits
      modifies cache.traveltimes, portalupdate
      ensures ValidBut([cache]) && HoldsPortals(VisitFrom(w, cache.travelflags, s, u, 0), cache, queue')
    {
      hide World.Valid, World.SizesOk, Ready, ListsOk, Correct, AllCorrect, Visit;
      PendingApart(cache);
      queue' := queue;
      ghost var st := s;
      for i := 0 to w.clusters[u.cluster].numportals
        invariant ValidBut([cache]) && HoldsPortals(st, cache, queue')
        invariant VisitFrom(w, cache.travelflags, st, u, i) == VisitFrom(w, cache.travelflags, s, u, 0)
      {
        VisitFromFits(w, cache.travelflags, Visit(w, cache.travelflags, st, u, i), u, i + 1);
        queue' := VisitPortal(cache, areacache, u, i, queue', st);
        st := Visit(w, cache.travelflags, st, u, i);
      }
    }

    /** Work off the first queued entry. */
    method PortalRound(cache: RoutingCache, queue: seq<nat>, ghost s: PortalState) returns (queue': seq<nat>)
      requires ValidBut([cache]) && HoldsPortals(s, cache, queue) && queue != [] && cache.home.PortalBucket?
      requires AreaSearchesFit(cache.travelflags) && Round(w, cache.travelflags, s).fits
      modifies this`routingcachesize, time, table, table.members, router.areaupdate, router.updateheap
      modifies router.updateheappos
      modifies cache.traveltimes, portalupdate
      ensures ValidBut([cache]) && HoldsPortals(Round(w, cache.travelflags, s), cache, queue')
      ensures fresh(table.members - old(table.members)) && old(table.members) <= table.members
    {
      hide World.Valid, World.SizesOk, Ready, ListsOk, Correct, AllCorrect, VisitFrom;
      PendingApart(cache);
      var u := portalupdate[queue[0]];
      ghost var s1 := s.(queue := s.queue[1..]);
      var areacache := GetAreaRoutingCache(u.cluster, u.areanum, cache.travelflags, [cache]);
      queue' := VisitPortals(cache, areacache, u, queue[1..], s1);
    }

    /** The portal search. The cache comes in cleared; no sum may reach 65536. */
    method UpdatePortalRoutingCache(cache: RoutingCache)
      requires ValidBut([cache]) && cache.home.PortalBucket? && cache.starttraveltime == 1
      requires w.IsCluster(cache.cluster) && w.Member(cache.cluster, cache.areanum)
      requires cache.traveltimes[..] == Zeros(|w.portals|)
      requires AreaSearchesFit(cache.travelflags)
        && PortalSearch.PortalSearch(w, cache.cluster, cache.areanum, cache.travelflags).fits
      modifies this`routingcachesize, time, table, table.members, router.areaupdate, router.updateheap
      modifies router.updateheappos
      modifies cache.traveltimes, portalupdate
      ensures ValidBut([cache]) && fresh(table.members - old(table.members)) && old(table.members) <= table.members
      ensures cache.reachabilities[..] == old(cache.reachabilities[..])
      ensures cache.traveltimes[..]
        == PortalSearch.PortalSearch(w, cache.cluster, cache.areanum, cache.travelflags).times
    {
      hide World.Valid, World.SizesOk, World.Member, World.IsCluster, Ready, ListsOk, Correct, AllCorrect, Round,
        Begin, Unset, Sum, AreaSearchesFit;
      PendingApart(cache);
      QueueStart(cache);
      ghost var s := Begin(w, cache.cluster, cache.areanum);
      var queue: seq<nat> := [|w.portals|];
      while queue != []
        invariant ValidBut([cache]) && HoldsPortals(s, cache, queue)
        invariant fresh(table.members - old(table.members)) && old(table.members) <= table.members
        invariant cache.reachabilities[..] == old(cache.reachabilities[..])
        invariant PortalSearch.Run(w, cache.travelflags, s)
          == PortalSearch.PortalSearch(w, cache.cluster, cache.areanum, cache.travelflags)
        decreases Unset(s.times), PortalSearch.Sum(s.times), |s.queue|
      {
        RoundDrops(w, cache.travelflags, s);
        PortalSearch.RunFits(w, cache.travelflags, Round(w, cache.travelflags, s));
        queue := PortalRound(cache, queue, s);
        s := Round(w, cache.travelflags, s);
      }
    }

    lemma PortalInBounds(areanum: nat)
      requires w.Valid() && areanum < |w.settings|
      ensures -|w.portals| < w.settings[areanum].cluster
    {
    }

    /** The goal is the first entry; a goal that is a portal gets the start time. */
    method QueueStart(cache: RoutingCache)
      requires ValidBut([cache]) && cache.starttraveltime == 1
      requires w.IsCluster(cache.cluster) && w.Member(cache.cluster, cache.areanum)
      requires cache.traveltimes[..] == Zeros(|w.portals|)
      modifies cache.traveltimes, portalupdate
      ensures ValidBut([cache]) && HoldsPortals(Begin(w, cache.cluster, cache.areanum), cache, [|w.portals|])
    {
      hide World.Valid, ListsOk, Correct, AllCorrect, AllBuckets, AreaRouter.RoomFor;
      PendingApart(cache);
      PortalInBounds(cache.areanum);
      portalupdate[|w.portals|] := PortalUpdate(cache.cluster, cache.areanum, cache.starttraveltime);
      var clusternum := w.settings[cache.areanum].cluster;
      if clusternum < 0 {
        cache.traveltimes[-clusternum] := cache.starttraveltime;
      }
    }

    ghost predicate GoalIsMember(areanum: nat, clusternum: nat)
      reads this`w
    {
      w.Valid() && w.IsCluster(clusternum) && w.Member(clusternum, areanum)
    }

    method NewPortalCache(clusternum: nat, areanum: nat, travelflags: bv32) returns (cache: RoutingCache)
      requires Valid() && w.IsArea(areanum) && clusternum == GoalCluster(w, areanum)
      requires AreaSearchesFit(travelflags) && GoalIsMember(areanum, clusternum)
      requires PortalSearch.PortalSearch(w, clusternum, areanum, travelflags).fits
      modifies this`routingcachesize, time, table, table.members, router.areaupdate, router.updateheap
      modifies router.updateheappos
      modifies portalupdate
      ensures fresh(cache) && ValidBut([cache]) && Correct(w, cache)
      ensures fresh(table.members - old(table.members)) && old(table.members) <= table.members
      ensures cache.cachetype == CACHETYPE_PORTAL && cache.areanum == areanum && cache.travelflags == travelflags
    {
      hide World.Valid, World.SizesOk, World.Member, World.IsCluster, Ready, ListsOk, Correct, AllCorrect,
        HoldsPortals, AreaSearchesFit, PortalSearch.PortalSearch, IsBucket;
      HasPortalBucket(areanum);
      cache := NewCache(|w.portals|, CACHETYPE_PORTAL, clusternum, areanum, travelflags, PortalBucket(areanum), []);
      assert [] + [cache] == [cache];
      UpdatePortalRoutingCache(cache);
      FilledPortal(w, cache);
    }

    /** The portal cache asked for, off the time list. */
    method HeldOrNewPortal(clusternum: nat, areanum: nat, travelflags: bv32) returns (cache: RoutingCache)
      requires Valid() && w.IsArea(areanum) && clusternum == GoalCluster(w, areanum)
      requires AreaSearchesFit(travelflags) && GoalIsMember(areanum, clusternum)
      requires PortalSearch.PortalSearch(w, clusternum, areanum, travelflags).fits
      modifies this`routingcachesize, time, table, table.members, router.areaupdate, router.updateheap
      modifies router.updateheappos
      modifies portalupdate
      ensures ValidBut([cache]) && Correct(w, cache)
      ensures cache in old(time.contents) ==> time.contents == Behind(old(time.contents), cache)
      ensures fresh(table.members - old(table.members)) && old(table.members) <= table.members
      ensures cache.cachetype == CACHETYPE_PORTAL && cache.areanum == areanum && cache.travelflags == travelflags
    {
      hide World.Valid, World.SizesOk, World.Member, Ready, ListsOk, Correct, AllCorrect;
      var k := PortalBucket(areanum);
      HasPortalBucket(areanum);
      var held := table.Find(k, travelflags);
      if held == null {
        cache := NewPortalCache(clusternum, areanum, travelflags);
      } else {
        cache := held;
        FoundPortalCache(cache, areanum);
        MembersOf([]);
        assert [] + [cache] == [cache];
        Unlink(cache, []);
      }
    }

    lemma HasPortalBucket(areanum: nat)
      requires Valid() && w.IsArea(areanum)
      ensures IsBucket(w, PortalBucket(areanum)) && PortalBucket(areanum) in table.contents && table.Valid()
      ensures forall x | x in table.contents[PortalBucket(areanum)] ::
        x in table.members && x.home == PortalBucket(areanum)
      ensures ListsOk([])
    {
      table.InBucket(PortalBucket(areanum));
    }

    lemma FoundPortalCache(cache: RoutingCache, areanum: nat)
      requires Valid() && cache in table.members && cache.home == PortalBucket(areanum)
      ensures cache in time.contents && cache.cachetype == CACHETYPE_PORTAL && cache.areanum == areanum
    {
      assert cache in Elements(time.contents);
      assert Correct(w, cache);
    }

    /** The portal cache towards an area: the one held, or a new one; it becomes the newest. */
    method GetPortalRoutingCache(clusternum: nat, areanum: nat, travelflags: bv32) returns (cache: RoutingCache)
      requires Valid() && w.IsArea(areanum) && clusternum == GoalCluster(w, areanum)
      requires AreaSearchesFit(travelflags)
      requires GoalIsMember(areanum, clusternum)
      requires PortalSearch.PortalSearch(w, clusternum, areanum, travelflags).fits
      modifies this`routingcachesize, time, table, table.members, router.areaupdate, router.updateheap
      modifies router.updateheappos
      modifies portalupdate
      ensures Valid() && Newest(cache) && fresh(table.members - old(table.members))
        && old(table.members) <= table.members
      ensures cache in old(time.contents) ==> time.contents == Behind(old(time.contents), cache) + [cache]
      ensures cache.cachetype == CACHETYPE_PORTAL && cache.areanum == areanum && cache.travelflags == travelflags
    {
      hide World.Valid, World.SizesOk, Ready, ListsOk, Correct, AllCorrect;
      cache := HeldOrNewPortal(clusternum, areanum, travelflags);
      MembersOf([cache]);
      assert forall x | x in time.contents :: x in old(table.members) || fresh(x);
      assert [] + [cache] == [cache];
      Link(cache, []);
    }

    lemma WorldIsValid()
      requires Valid()
      ensures w.Valid()
    {
    }

    lemma PortalTimesHeld(cache: RoutingCache, pending: seq<RoutingCache>)
      requires ValidBut(pending) && cache in time.contents && cache.cachetype == CACHETYPE_PORTAL
      ensures w.Valid() && w.IsArea(cache.areanum) && cache.cluster == GoalCluster(w, cache.areanum)
      ensures w.IsCluster(cache.cluster) && w.Member(cache.cluster, cache.areanum)
      ensures cache.traveltimes[..]
        == PortalSearch.PortalSearch(w, cache.cluster, cache.areanum, cache.travelflags).times
      ensures cache.reachabilities[..] == Zeros(|w.portals|)
    {
      assert cache in Elements(time.contents) && Correct(w, cache);
    }

    // ----- eviction

    /** Free the least recently used cache that may be evicted; no other is freed. */
    method FreeOldestCache() returns (freed: bool)
      requires Valid()
      modifies this`routingcachesize, time, table, table.members
      ensures Valid() && table.members <= old(table.members)
      ensures !freed ==> time.contents == old(time.contents) && forall x | x in time.contents :: LeadsToPortal(w, x)
      ensures freed ==>
        exists i :: (0 <= i < |old(time.contents)| && OldestEvictable(w, old(time.contents), i)
          && time.contents == old(time.contents)[..i] + old(time.contents)[i + 1..])
    {
      hide World.Valid, World.Member, Correct, Separate, Balanced, BucketTable.Valid, AllCorrect, Sizes, IsBucket,
        AreaRouter.RoomFor, Evictable, LeadsToPortal;
      var cache := time.oldestcache;
      ghost var i := 0;
      AllEvictable();
      while cache != null && !Evictable(w, cache)
        invariant 0 <= i <= |time.contents| && cache == (if i == |time.contents| then null else time.contents[i])
        invariant forall j | 0 <= j < i :: LeadsToPortal(w, time.contents[j])
        decreases |time.contents| - i
      {
        assert TimeLinkedAt(time.contents, i);
        cache := cache.time_next;
        i := i + 1;
      }
      freed := cache != null;
      if cache != null {
        WithoutAt(time.contents, i);
        hide TimeList.Valid;
        Free(cache);
      }
    }

    lemma AllEvictable()
      requires Valid()
      ensures forall x | x in time.contents :: Evictable(w, x) <==> !LeadsToPortal(w, x)
    {
      hide World.Valid, Evictable, LeadsToPortal;
      forall x | x in time.contents ensures Evictable(w, x) <==> !LeadsToPortal(w, x) {
        assert x in Elements(time.contents) && Correct(w, x);
        EvictableIs(w, x);
      }
    }

    /** Take a cache off both its lists. */
    method Free(cache: RoutingCache)
      requires Valid() && cache in time.contents
      modifies this`routingcachesize, time, table, table.members
      ensures Valid() && table.members == old(table.members) - {cache}
      ensures time.contents == Without(old(time.contents), cache)
    {
      hide World.Valid, Correct, Separate, AllCorrect, AllBuckets, Balanced, TimeList.Valid, BucketTable.Valid, Sizes,
        IsBucket, AreaRouter.RoomFor, Without;
      FreeBalance(cache);
      Fewer(Elements(time.contents), Elements(Without(time.contents, cache)));
      SeparateFewer(table.members, table.members - {cache});
      ListedIsMember([]);
      DropLinks(cache);
      routingcachesize := routingcachesize - cache.size;
      assert Balanced([]) by { Rebalance([]); }
    }

    method DropLinks(cache: RoutingCache)
      requires Ready() && table.Valid() && time.Valid() && cache in time.contents && Balanced([])
        && AllCorrect(w, Elements(time.contents))
      modifies time, table, table.members`prev, table.members`next, time.contents`time_prev, time.contents`time_next
      ensures Ready() && table.Valid() && time.Valid()
      ensures time.contents == Without(old(time.contents), cache) && table.members == old(table.members) - {cache}
      ensures table.contents.Keys == old(table.contents.Keys)
    {
      hide World.Valid, Correct, AllCorrect, AllBuckets, Balanced, TimeList.Valid, BucketTable.Valid, Sizes, IsBucket,
        AreaRouter.RoomFor, Without;
      ListedIsMember([]);
      var k := BucketOf(cache);
      table.Unlink(k, cache);
      assert table.contents.Keys == old(table.contents.Keys);
      time.UnlinkCache(cache);
    }

    lemma Fewer(caches: set<RoutingCache>, fewer: set<RoutingCache>)
      requires AllCorrect(w, caches) && fewer <= caches
      ensures AllCorrect(w, fewer)
    {
    }

    lemma SeparateFewer(caches: set<RoutingCache>, fewer: set<RoutingCache>)
      requires Separate(caches) && fewer <= caches
      ensures Separate(fewer)
    {
    }

    method BucketOf(cache: RoutingCache) returns (k: Bucket)
      requires Ready() && AllCorrect(w, Elements(time.contents)) && cache in time.contents
      ensures k == cache.home
    {
      assert cache in Elements(time.contents) && Correct(w, cache);
      match cache.cachetype {
        case CACHETYPE_AREA => k := AreaBucket(cache.cluster, w.ClusterAreaNum(cache.cluster, cache.areanum));
        case CACHETYPE_PORTAL => k := PortalBucket(cache.areanum);
      }
    }

    lemma FreeBalance(cache: RoutingCache)
      requires Balanced([]) && time.Valid() && cache in time.contents
      ensures cache.size <= routingcachesize
      ensures InBalance(Without(time.contents, cache), [], table.members - {cache}, routingcachesize - cache.size)
      ensures Elements(Without(time.contents, cache)) == Elements(time.contents) - {cache}
    {
      SizesWithout(time.contents, cache);
      WithoutElements(time.contents, cache);
    }

    // ----- removal

    /** The lists are sound, whatever the caches hold. */
    ghost predicate Listed()
      reads this, time, table, time.contents`time_prev, time.contents`time_next, table.members`prev, table.members`next
      reads router.updateheappos
    {
      Ready() && ListsOk([])
    }

    lemma KeyIsBucket(k: Bucket)
      requires Ready() && table.Valid() && IsBucket(w, k)
      ensures k in table.contents && k in table.heads
    {
    }

    /** The next cache of a bucket is still on the time list; taking it off keeps the balance. */
    lemma FreedNext(b: seq<RoutingCache>, i: nat, members: set<RoutingCache>)
      requires time.Valid() && i < |b| && Distinct(b) && b[i] in members
      requires InBalance(time.contents, [], members - Elements(b[..i]), routingcachesize)
      ensures b[i] in time.contents && b[i].size <= routingcachesize
      ensures InBalance(Without(time.contents, b[i]), [], members - Elements(b[..i + 1]), routingcachesize - b[i].size)
      ensures forall x | x in time.contents :: x in members
    {
      ElementsAppend(b[..i], b[i]);
      assert b[..i + 1] == b[..i] + [b[i]];
      assert b[i] !in Elements(b[..i]);
      assert b[i] in Elements(time.contents);
      SizesWithout(time.contents, b[i]);
      WithoutElements(time.contents, b[i]);
      forall x | x in time.contents ensures x in members {
        assert x in Elements(time.contents);
      }
    }

    lemma BalanceOf()
      requires Balanced([])
      ensures InBalance(time.contents, [], table.members - Elements([]), routingcachesize)
    {
    }

    /** Free all caches of a bucket: each goes off the time list, then the bucket is emptied. */
    method RemoveBucket(k: Bucket)
      requires Listed() && IsBucket(w, k)
      modifies this`routingcachesize, time, table, table.members`time_prev, table.members`time_next
      ensures Listed() && table.members == Staying(old(table.members), {k})
    {
      hide World.Valid, Correct, Separate, Balanced, TimeList.Valid, BucketTable.Valid, Sizes, AreaRouter.RoomFor,
        AllBuckets, Elements, IsBucket;
      KeyIsBucket(k);
      table.InBucket(k);
      SeparateFewer(table.members, Staying(table.members, {k}));
      HomeIsBucket(k);
      OffTimeList(k);
      table.Clear(k);
      assert table.contents.Keys == old(table.contents.Keys);
      assert Balanced([]) by { Rebalance([]); }
    }

    lemma HomeIsBucket(k: Bucket)
      requires table.Valid() && k in table.contents
      ensures table.members - Elements(table.contents[k]) == Staying(table.members, {k})
      ensures table.members - (set x | x in table.members && x.home == k) == Staying(table.members, {k})
    {
      table.InBucket(k);
    }

    /** Take all caches of a bucket off the time list. */
    method OffTimeList(k: Bucket)
      requires Listed() && k in table.contents && k in table.heads
      modifies this`routingcachesize, time, table.members`time_prev, table.members`time_next
      ensures Ready() && table.Valid() && time.Valid()
      ensures InBalance(time.contents, [], table.members - Elements(table.contents[k]), routingcachesize)
    {
      hide World.Valid, Correct, Separate, Balanced, TimeList.Valid, BucketTable.Valid, Sizes, AreaRouter.RoomFor,
        AllBuckets, Elements;
      table.InBucket(k);
      BalanceOf();
      var cache := table.heads[k];
      ghost var b, i := table.contents[k], 0;
      assert b[..i] == [];
      while cache != null
        invariant Ready() && table.Valid() && time.Valid()
        invariant 0 <= i <= |b| && cache == (if i == |b| then null else b[i])
        invariant InBalance(time.contents, [], table.members - Elements(b[..i]), routingcachesize)
        decreases |b| - i
      {
        table.NextInBucket(k, i);
        FreedNext(b, i, table.members);
        var next := cache.next;
        routingcachesize := routingcachesize - cache.size;
        time.UnlinkCache(cache);
        cache := next;
        i := i + 1;
      }
      assert b[..i] == b;
    }

    method RemoveRoutingCacheInCluster(clusternum: nat)
      requires Listed() && clusternum < |w.clusters|
      modifies this`routingcachesize, time, table, table.members`time_prev, table.members`time_next
      ensures Listed()
        && table.members == Staying(old(table.members), ClusterBuckets(w, clusternum)) <= old(table.members)
    {
      hide Listed;
      for i := 0 to w.clusters[clusternum].numareas
        invariant Listed()
        invariant table.members == Staying(old(table.members), set n | 0 <= n < i :: AreaBucket(clusternum, n))
      {
        RemoveBucket(AreaBucket(clusternum, i));
      }
    }

    method RemoveRoutingCacheUsingArea(areanum: nat)
      requires Listed() && areanum < |w.settings|
      modifies this`routingcachesize, time, table, table.members`time_prev, table.members`time_next
      ensures Listed() && w.SizesOk() && table.members == Staying(old(table.members), Affected(w, areanum))
    {
      hide Listed, World.Valid, World.SizesOk, Staying, ClustersOf, PortalBuckets;
      ListedWorld(areanum);
      RemoveClusterCaches(areanum);
      RemovePortalCaches();
      StayingTwice(old(table.members), ClustersOf(w, areanum), PortalBuckets(w));
    }

    method RemoveClusterCaches(areanum: nat)
      requires Listed() && w.SizesOk() && areanum < |w.settings|
      modifies this`routingcachesize, time, table, table.members`time_prev, table.members`time_next
      ensures Listed() && table.members == Staying(old(table.members), ClustersOf(w, areanum)) <= old(table.members)
    {
      hide Listed, World.Valid, World.SizesOk, Staying, ClusterBuckets;
      ListedWorld(areanum);
      var clusternum := w.settings[areanum].cluster;
      if clusternum > 0 {
        RemoveRoutingCacheInCluster(clusternum);
      } else {
        RemoveRoutingCacheInCluster(w.portals[-clusternum].frontcluster);
        RemoveRoutingCacheInCluster(w.portals[-clusternum].backcluster);
        StayingTwice(old(table.members), ClusterBuckets(w, w.portals[-clusternum].frontcluster),
                     ClusterBuckets(w, w.portals[-clusternum].backcluster));
      }
    }

    method RemovePortalCaches()
      requires Listed()
      modifies this`routingcachesize, time, table, table.members`time_prev, table.members`time_next
      ensures Listed() && table.members == Staying(old(table.members), PortalBuckets(w)) <= old(table.members)
    {
      hide Listed;
      for i := 0 to |w.settings|
        invariant Listed()
        invariant table.members == Staying(old(table.members), set a | 0 <= a < i :: PortalBucket(a))
      {
        RemoveBucket(PortalBucket(i));
      }
    }

    lemma ListedWorld(areanum: nat)
      requires Listed() && areanum < |w.settings|
      ensures w.Valid() && w.SizesOk()
      ensures var k := w.settings[areanum].cluster;
        if k > 0 then k < |w.clusters|
        else
          0 <= -k < |w.portals| && w.portals[-k].frontcluster < |w.clusters| && w.portals[-k].backcluster < |w.clusters|
    {
    }

    /** Enable or disable an area (or only ask, with a negative `enable`). Whatever is held afterwards
        is right for the new flags. */
    method EnableRoutingArea(areanum: int, enable: int) returns (wasEnabled: bool)
      requires Valid()
      modifies this`w, this`routingcachesize, time, table, table.members`time_prev, table.members`time_next
      ensures Valid()
      ensures areanum <= 0 || areanum >= |old(w).settings| ==> !wasEnabled && w == old(w)
      ensures 0 < areanum < |old(w).settings| ==> wasEnabled == !old(w).Disabled(areanum)
      ensures 0 < areanum < |old(w).settings| && enable < 0 ==> w == old(w)
      ensures 0 < areanum < |old(w).settings| && enable >= 0 ==>
        && w == WithFlags(old(w), areanum, NewFlags(old(w).settings[areanum].areaflags, enable != 0))
        && w.Disabled(areanum) == (enable == 0)
      ensures w == old(w) ==> table.members == old(table.members) && time.contents == old(time.contents)
    {
      if areanum <= 0 || areanum >= |w.settings| {
        return false;
      }
      wasEnabled := !w.Disabled(areanum);
      if enable < 0 { return; }
      FlagIsSet(w.settings[areanum].areaflags, enable != 0);
      if wasEnabled != (enable != 0) {
        ChangeFlags(areanum, NewFlags(w.settings[areanum].areaflags, enable != 0));
      } else {
        assert WithFlags(w, areanum, w.settings[areanum].areaflags) == w;
      }
    }

    lemma StillReady(areanum: nat, flags: bv32)
      requires Ready() && areanum < |w.settings|
      ensures var v := WithFlags(w, areanum, flags);
        && v.Valid() && w.SizesOk() && v.SizesOk() && router.RoomFor(v)
        && AllBuckets(v, table.contents.Keys)
        && Affected(v, areanum) == Affected(w, areanum)
    {
      StillValid(w, areanum, flags);
    }

    lemma AllListed()
      requires Balanced([])
      ensures Elements(time.contents) == table.members
    {
    }

    method ChangeFlags(areanum: nat, flags: bv32)
      requires Valid() && areanum < |w.settings|
      modifies this`w, this`routingcachesize, time, table, table.members`time_prev, table.members`time_next
      ensures Valid() && w == WithFlags(old(w), areanum, flags)
      ensures old(w).SizesOk() && table.members == Staying(old(table.members), Affected(old(w), areanum))
    {
      hide World.Valid, Correct, Separate, Balanced, TimeList.Valid, BucketTable.Valid, Sizes, AllCorrect, Affected,
        AllBuckets;
      ghost var w0, m := w, table.members;
      StillReady(areanum, flags);
      AllListed();
      w := WithFlags(w, areanum, flags);
      RemoveRoutingCacheUsingArea(areanum);
      AllListed();
      AllStillCorrect(w0, areanum, flags, m, table.members);
    }
  }

  /** Area flags with the disabled bit cleared or set. */
  function NewFlags(flags: bv32, enable: bool): bv32 {
    if enable then flags & !AREA_DISABLED else flags | AREA_DISABLED
  }

  lemma FlagIsSet(flags: bv32, enable: bool)
    ensures (NewFlags(flags, enable) & AREA_DISABLED != 0) == !enable
    ensures (flags & AREA_DISABLED != 0) == !enable ==> NewFlags(flags, enable) == flags
  {
  }
}
