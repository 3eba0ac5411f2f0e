/** A routing cache object: the travel times towards one area, and its places on two linked lists. */
module RoutingCacheRecord {

  datatype CacheType = CACHETYPE_PORTAL | CACHETYPE_AREA

  /** The list a cache hangs on: area caches by cluster and number in the cluster, portal caches by area. */
  datatype Bucket = AreaBucket(cluster: nat, clusterareanum: nat) | PortalBucket(areanum: nat)

  class RoutingCache {
    const cachetype: CacheType
    const cluster: nat
    const areanum: nat
    const starttraveltime: nat
    const travelflags: bv32
    const size: nat
    const traveltimes: array<nat>
    const reachabilities: array<nat>
    ghost const home: Bucket
    var prev: RoutingCache?
    var next: RoutingCache?
    var time_prev: RoutingCache?
    var time_next: RoutingCache?

    /** A cleared cache with room for n travel times: the record, two bytes a time and one byte a reachability. */
    constructor (n: nat, header: nat, cachetype: CacheType, cluster: nat, areanum: nat, starttraveltime: nat,
                 travelflags: bv32, ghost home: Bucket)
      ensures this.cachetype == cachetype && this.cluster == cluster && this.areanum == areanum
      ensures this.starttraveltime == starttraveltime && this.travelflags == travelflags && this.home == home
      ensures size == header + 3 * n
      ensures fresh(traveltimes) && fresh(reachabilities) && traveltimes != reachabilities
      ensures traveltimes[..] == seq(n, i => 0) && reachabilities[..] == seq(n, i => 0)
      ensures prev == null && next == null && time_prev == null && time_next == null
    {
      this.cachetype, this.cluster, this.areanum := cachetype, cluster, areanum;
      this.starttraveltime, this.travelflags, this.home := starttraveltime, travelflags, home;
      size := header + 3 * n;
      prev, next, time_prev, time_next := null, null, null, null;
      var times, exits := new nat[n](i => 0), new nat[n](i => 0);
      traveltimes, reachabilities := times, exits;
    }
  }
}

module Positions {

  /** Position of an element. */
  ghost function At<T>(l: seq<T>, x: T): (i: nat)
    requires x in l
    ensures i < |l| && l[i] == x
  {
    var i :| 0 <= i < |l| && l[i] == x;
    i
  }

  ghost function Without<T>(l: seq<T>, x: T): seq<T>
    requires x in l
  {
    l[..At(l, x)] + l[At(l, x) + 1..]
  }
}

/** The doubly linked list of all caches, from the least to the most recently used. */
module CacheTimeList {
  import opened Counting
  import opened Positions
  import opened RoutingCacheRecord

  ghost predicate TimeLinkedAt(l: seq<RoutingCache>, i: nat)
    requires i < |l|
    reads l`time_prev, l`time_next
  {
    && l[i].time_prev == (if i == 0 then null else l[i - 1])
    && l[i].time_next == (if i + 1 == |l| then null else l[i + 1])
  }

  class TimeList {
    var oldestcache: RoutingCache?
    var newestcache: RoutingCache?
    ghost var contents: seq<RoutingCache>

    ghost predicate Valid()
      reads this, contents`time_prev, contents`time_next
    {
      && Distinct(contents)
      && (forall i | 0 <= i < |contents| :: TimeLinkedAt(contents, i))
      && oldestcache == (if contents == [] then null else contents[0])
      && newestcache == (if contents == [] then null else contents[|contents| - 1])
    }

    constructor ()
      ensures Valid() && contents == []
    {
      oldestcache, newestcache, contents := null, null, [];
    }

    /** Take a cache off the list. */
    method UnlinkCache(cache: RoutingCache)
      requires Valid() && cache in contents
      modifies this, contents`time_prev, contents`time_next
      ensures Valid() && contents == Without(old(contents), cache)
      ensures cache.time_prev == null && cache.time_next == null
    {
      ghost var i := At(contents, cache);
      assert TimeLinkedAt(contents, i);
      if cache.time_next != null { cache.time_next.time_prev := cache.time_prev; }
      else { newestcache := cache.time_prev; }
      if cache.time_prev != null { cache.time_prev.time_next := cache.time_next; }
      else { oldestcache := cache.time_next; }
      cache.time_next := null;
      cache.time_prev := null;
      contents := Without(contents, cache);
      forall j | 0 <= j < |contents| ensures TimeLinkedAt(contents, j) {
        assert old(TimeLinkedAt(contents, if j < i then j else j + 1));
      }
    }

    /** Put a cache that is on no list at the newest end. */
    method LinkCache(cache: RoutingCache)
      requires Valid() && cache !in contents
      modifies this, contents`time_prev, contents`time_next, cache`time_prev, cache`time_next
      ensures Valid() && contents == old(contents) + [cache]
    {
      if newestcache != null {
        newestcache.time_next := cache;
        cache.time_prev := newestcache;
      } else {
        oldestcache := cache;
        cache.time_prev := null;
      }
      cache.time_next := null;
      newestcache := cache;
      contents := contents + [cache];
      forall j | 0 <= j < |contents| ensures TimeLinkedAt(contents, j) {
        assert j < |contents| - 1 ==> old(TimeLinkedAt(contents, j));
      }
    }
  }
}

/** The table of bucket lists: for each bucket the first of its doubly linked caches. */
module CacheBuckets {
  import opened Counting
  import opened Positions
  import opened RoutingCacheRecord

  ghost predicate LinkedAt(l: seq<RoutingCache>, i: nat)
    requires i < |l|
    reads l`prev, l`next
  {
    && l[i].prev == (if i == 0 then null else l[i - 1])
    && l[i].next == (if i + 1 == |l| then null else l[i + 1])
  }

  /** The caches of l form one bucket list with this head. */
  ghost predicate Chain(l: seq<RoutingCache>, head: RoutingCache?)
    reads l`prev, l`next
  {
    && Distinct(l) && head == (if l == [] then null else l[0])
    && forall i | 0 <= i < |l| :: LinkedAt(l, i)
  }

  /** Every cache is in the bucket that is its home, and nowhere else. */
  ghost predicate Filed(contents: map<Bucket, seq<RoutingCache>>, members: set<RoutingCache>) {
    && (forall k, x | k in contents && x in contents[k] :: x in members && x.home == k)
    && (forall x | x in members :: x.home in contents && x in contents[x.home])
  }

  /** A bucket is given a new list of caches at home in it. */
  lemma Refiled(contents: map<Bucket, seq<RoutingCache>>, members: set<RoutingCache>, k: Bucket,
                l: seq<RoutingCache>, members': set<RoutingCache>)
    requires Filed(contents, members) && k in contents
    requires forall x | x in l :: x.home == k
    requires forall x :: x in members' <==> if x.home == k then x in l else x in members
    ensures Filed(contents[k := l], members')
  {
  }

  class BucketTable {
    var heads: map<Bucket, RoutingCache?>
    ghost var contents: map<Bucket, seq<RoutingCache>>
    ghost var members: set<RoutingCache>

    ghost predicate Valid()
      reads this, members`prev, members`next
    {
      && heads.Keys == contents.Keys
      && Filed(contents, members)
      && (forall k | k in contents :: Chain(contents[k], heads[k]))
    }

    constructor (keys: set<Bucket>)
      ensures Valid() && members == {} && contents == map k | k in keys :: []
    {
      heads := map k | k in keys :: null;
      contents := map k | k in keys :: [];
      members := {};
    }

    /** The cache of a bucket for these travel flags, if it has one. */
    method Find(k: Bucket, travelflags: bv32) returns (cache: RoutingCache?)
      requires Valid() && k in contents
      ensures cache != null ==> cache in contents[k] && cache.travelflags == travelflags
      ensures cache == null ==> forall x | x in contents[k] :: x.travelflags != travelflags
    {
      cache := heads[k];
      ghost var i := 0;
      while cache != null
        invariant 0 <= i <= |contents[k]| && cache == (if i == |contents[k]| then null else contents[k][i])
        invariant forall j | 0 <= j < i :: contents[k][j].travelflags != travelflags
        decreases |contents[k]| - i
      {
        if cache.travelflags == travelflags { return; }
        assert LinkedAt(contents[k], i);
        cache := cache.next;
        i := i + 1;
      }
    }

    /** Put a new cache at the head of its bucket. */
    method Push(k: Bucket, cache: RoutingCache)
      requires Valid() && k in contents && cache.home == k && cache !in members
      modifies this, members`prev, cache`prev, cache`next
      ensures Valid() && members == old(members) + {cache}
      ensures contents == old(contents)[k := [cache] + old(contents[k])]
    {
      InBucket(k);
      hide *;
      cache.prev := null;
      cache.next := heads[k];
      if heads[k] != null { heads[k].prev := cache; }
      heads := heads[k := cache];
      contents := contents[k := [cache] + contents[k]];
      members := members + {cache};
      Pushed(k, cache);
    }

    lemma InBucket(k: Bucket)
      requires Valid() && k in contents
      ensures k in heads && Chain(contents[k], heads[k])
      ensures heads[k] != null ==> heads[k] in members && heads[k].home == k
      ensures forall x :: x in contents[k] <==> x in members && x.home == k
    {
    }

    lemma NextInBucket(k: Bucket, i: nat)
      requires Valid() && k in contents && i < |contents[k]|
      ensures Distinct(contents[k]) && contents[k][i] in members
      ensures contents[k][i].next == (if i + 1 == |contents[k]| then null else contents[k][i + 1])
    {
      assert Chain(contents[k], heads[k]) && LinkedAt(contents[k], i);
    }

    twostate lemma Pushed(k: Bucket, new cache: RoutingCache)
      requires old(Valid()) && k in old(contents) && k in old(heads) && cache !in old(members) && cache.home == k
      requires contents == old(contents)[k := [cache] + old(contents)[k]] && heads == old(heads)[k := cache]
      requires members == old(members) + {cache}
      requires cache.prev == null && cache.next == old(heads)[k]
      requires old(heads)[k] != null ==> old(heads)[k].prev == cache && old(heads)[k].next == old(heads[k].next)
      requires forall x | x in old(members) && x != old(heads)[k] :: x.prev == old(x.prev) && x.next == old(x.next)
      ensures Valid()
    {
      Refiled(old(contents), old(members), k, contents[k], members);
      PushedChains(k, cache);
    }

    twostate lemma PushedChains(k: Bucket, new cache: RoutingCache)
      requires old(Valid()) && k in old(contents) && cache !in old(members)
      requires contents == old(contents)[k := [cache] + old(contents)[k]] && heads == old(heads)[k := cache]
      requires cache.prev == null && cache.next == old(heads)[k]
      requires old(heads)[k] != null ==> old(heads)[k].prev == cache && old(heads)[k].next == old(heads[k].next)
      requires forall x | x in old(members) && x != old(heads)[k] :: x.prev == old(x.prev) && x.next == old(x.next)
      ensures forall j | j in contents :: Chain(contents[j], heads[j])
    {
      var l, r := old(contents)[k], contents[k];
      assert old(Chain(contents[k], heads[k]));
      forall i | 0 <= i < |r| ensures LinkedAt(r, i) {
        assert i > 0 ==> old(LinkedAt(l, i - 1));
      }
      assert Chain(r, cache);
      OthersKept(k);
    }

    /** Take a cache out of its bucket. */
    method Unlink(k: Bucket, cache: RoutingCache)
      requires Valid() && cache in members && cache.home == k
      modifies this, members`prev, members`next
      ensures Valid() && k in old(contents) && cache in old(contents)[k] && members == old(members) - {cache}
      ensures contents == old(contents)[k := Without(old(contents)[k], cache)]
    {
      InBucket(k);
      Neighbours(k, cache);
      hide *;
      if cache.prev != null { cache.prev.next := cache.next; }
      else { heads := heads[k := cache.next]; }
      if cache.next != null { cache.next.prev := cache.prev; }
      contents := contents[k := Without(contents[k], cache)];
      members := members - {cache};
      Unlinked(k, cache);
    }

    lemma Neighbours(k: Bucket, cache: RoutingCache)
      requires Valid() && cache in members && cache.home == k
      ensures k in contents && k in heads && cache in contents[k]
      ensures cache.prev != null ==> cache.prev in members && cache.prev.home == k && cache.prev != cache
      ensures cache.next != null ==> cache.next in members && cache.next.home == k && cache.next != cache
      ensures cache.prev != null ==> cache.prev != cache.next
    {
      var l := contents[k];
      var i := At(l, cache);
      assert LinkedAt(l, i);
      if i > 0 { assert l[i - 1] in l; }
      if i + 1 < |l| { assert l[i + 1] in l; }
    }

    twostate lemma Unlinked(k: Bucket, new cache: RoutingCache)
      requires old(Valid()) && k in old(contents) && cache in old(contents)[k] && cache.home == k
      requires contents == old(contents)[k := Without(old(contents)[k], cache)] && members == old(members) - {cache}
      requires heads == if old(cache.prev) == null then old(heads)[k := old(cache.next)] else old(heads)
      requires forall x | x in old(members) && x != cache ::
        && x.next == (if x == old(cache.prev) then old(cache.next) else old(x.next))
        && x.prev == (if x == old(cache.next) then old(cache.prev) else old(x.prev))
      ensures Valid()
    {
      var l, r := old(contents)[k], contents[k];
      var i := At(l, cache);
      assert old(LinkedAt(l, i)) && old(Chain(l, heads[k]));
      assert forall j | 0 <= j < |r| :: r[j] == l[if j < i then j else j + 1];
      assert forall x :: x in r <==> x in l && x != cache by {
        forall x | x in l && x != cache ensures x in r {
          var j := At(l, x);
          assert r[if j < i then j else j - 1] == x;
        }
      }
      Refiled(old(contents), old(members), k, r, members);
      UnlinkedChain(l, i, r, cache, old(heads)[k], heads[k]);
      assert forall x | x in old(members) && x.home != k :: x != old(cache.prev) && x != old(cache.next) by {
        if i > 0 { assert l[i - 1] in l; }
        if i + 1 < |l| { assert l[i + 1] in l; }
      }
      OthersKept(k);
    }

    twostate lemma UnlinkedChain(new l: seq<RoutingCache>, i: nat, new r: seq<RoutingCache>, new cache: RoutingCache,
                                 new head: RoutingCache?, new head': RoutingCache?)
      requires old(allocated(l)) && old(allocated(head)) && old(Chain(l, head)) && i < |l| && l[i] == cache
        && r == l[..i] + l[i + 1..]
      requires head' == if old(cache.prev) == null then old(cache.next) else head
      requires forall x | x in l && x != cache ::
        && x.next == (if x == old(cache.prev) then old(cache.next) else old(x.next))
        && x.prev == (if x == old(cache.next) then old(cache.prev) else old(x.prev))
      ensures Chain(r, head')
    {
      assert old(LinkedAt(l, i));
      forall j | 0 <= j < |r| ensures LinkedAt(r, j) {
        var m := if j < i then j else j + 1;
        assert old(LinkedAt(l, m)) && r[j] == l[m] && l[m] in l;
      }
    }

    /** Forget all caches of a bucket. */
    method Clear(k: Bucket)
      requires Valid() && k in contents
      modifies this
      ensures Valid() && k in old(contents) && contents == old(contents)[k := []]
      ensures members == old(members) - (set x | x in old(members) && x.home == k)
    {
      InBucket(k);
      Refiled(contents, members, k, [], members - (set x | x in members && x.home == k));
      heads := heads[k := null];
      contents := contents[k := []];
      members := members - (set x | x in members && x.home == k);
    }

    /** Changes to caches of bucket k leave every other bucket a chain. */
    twostate lemma OthersKept(k: Bucket)
      requires old(Valid()) && k in old(contents) && k in contents
      requires old(contents.Keys) == contents.Keys == heads.Keys
      requires forall j | j in contents && j != k :: contents[j] == old(contents)[j] && heads[j] == old(heads)[j]
      requires forall x | x in old(members) && x.home != k :: x.prev == old(x.prev) && x.next == old(x.next)
      ensures forall j | j in contents && j != k :: Chain(contents[j], heads[j])
    {
      forall j | j in contents && j != k ensures Chain(contents[j], heads[j]) {
        forall i | 0 <= i < |contents[j]| ensures LinkedAt(contents[j], i) {
          assert old(LinkedAt(contents[j], i));
          assert contents[j][i] in old(contents)[j];
        }
      }
    }
  }
}
