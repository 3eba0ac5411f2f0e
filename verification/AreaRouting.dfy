/** The area search as the engine runs it: in place, on arrays shared by all searches, in 16-bit arithmetic. */
module AreaRouting {
  import opened Counting
  import opened RouteWorld
  import opened RoutingCacheRecord
  import opened AreaSearch
  import opened UpdateHeap

  /** What the search remembers of an area: its travel time, and the row of times for crossing it
      to the reachability it leaves by. */
  datatype AreaUpdate = AreaUpdate(areanum: nat, tmptraveltime: nat, areatraveltimes: seq<nat>)

  /** One search: the world it reads, its cluster's graph, and the goal's number in the cluster. */
  datatype Query = Query(w: World, c: nat, travelflags: bv32, g: Graph, goal: nat) {

    ghost predicate Ok() {
      && w.Valid() && w.IsCluster(c) && g == w.GraphOf(c, travelflags) && g.Valid() && goal < |g.into|
    }

    /** The row of crossing times a reached node's update must point at. */
    ghost predicate RowOk(s: State, v: nat, row: seq<nat>)
      requires Ok() && v < |g.into| == |s.exit|
    {
      if v == goal then
        |w.reversed[w.AreaOf(c, v)]| <= |row| && forall i | 0 <= i < |row| :: row[i] == 0
      else
        s.exit[v] < |g.cross[v]| && row == g.cross[v][s.exit[v]]
    }

    ghost predicate UpdateOk(s: State, v: nat, u: AreaUpdate)
      requires Ok() && v < |g.into| == |s.exit| == |s.times|
    {
      u.areanum == w.AreaOf(c, v) && u.tmptraveltime == s.times[v] && RowOk(s, v, u.areatraveltimes)
    }

    /** Link i of the area of node cur is arc j into cur. */
    ghost predicate LinkIsArc(cur: nat, i: nat, j: nat)
      requires Ok()
    {
      && g.IsArc(cur, j)
      && i < |w.reversed[w.AreaOf(c, cur)]| && w.Usable(c, travelflags, w.AreaOf(c, cur), i)
      && g.into[cur][j] == w.ArcOf(c, w.AreaOf(c, cur), i)
    }

    /** The arcs into cur from j on are those of the links from i on. */
    ghost predicate ArcsLeft(cur: nat, i: nat, j: nat)
      requires Ok() && cur < |g.into|
    {
      && i <= |w.reversed[w.AreaOf(c, cur)]| && j <= |g.into[cur]|
      && g.into[cur][j..] == w.ArcsFrom(c, travelflags, w.AreaOf(c, cur), i)
    }

    lemma FirstLink(cur: nat)
      requires Ok() && cur < |g.into|
      ensures w.Valid() && w.AreaOf(c, cur) < |w.settings| == |w.reversed| && ArcsLeft(cur, 0, 0)
    {
    }

    lemma NextLink(cur: nat, i: nat, j: nat)
      requires Ok() && cur < |g.into| && ArcsLeft(cur, i, j)
      ensures i < |w.reversed[w.AreaOf(c, cur)]| ==>
        if w.Usable(c, travelflags, w.AreaOf(c, cur), i)
        then j < |g.into[cur]| && LinkIsArc(cur, i, j) && ArcsLeft(cur, i + 1, j + 1)
        else ArcsLeft(cur, i + 1, j)
      ensures i == |w.reversed[w.AreaOf(c, cur)]| ==> j == |g.into[cur]|
    {
      if i < |w.reversed[w.AreaOf(c, cur)]| {
        w.ArcsRound(c, travelflags, w.AreaOf(c, cur), i, g.into[cur], j);
      }
    }

    lemma LinkInBounds(s: State, cur: nat, i: nat, j: nat, u: AreaUpdate)
      requires Ok() && StateOk(g, goal, s) && LinkIsArc(cur, i, j) && UpdateOk(s, cur, u)
      ensures u.areanum < |w.settings| == |w.reversed| == |w.areatraveltimes| && i < |w.reversed[u.areanum]|
      ensures var l := w.reversed[u.areanum][i];
        && l.linknum < |w.reachability| && l.areanum < |w.settings|
        && w.settings[l.areanum].firstreachablearea <= l.linknum
        && -|w.portals| < w.settings[l.areanum].cluster
    {
      assert w.LinkOk(u.areanum, i);
    }

    /** What relaxing arc j does, in terms of link i. */
    lemma RelaxedByLink(s: State, cur: nat, i: nat, j: nat, u: AreaUpdate)
      requires Ok() && StateOk(g, goal, s) && LinkIsArc(cur, i, j) && s.times[cur] != 0
      requires UpdateOk(s, cur, u) && Relax(g, goal, s, cur, j).fits
      ensures i < |u.areatraveltimes|
      ensures u.areanum < |w.reversed| && i < |w.reversed[u.areanum]|
      ensures var l := w.reversed[u.areanum][i];
        && l.linknum < |w.reachability| && l.areanum < |w.settings| == |w.areatraveltimes|
        && -|w.portals| < w.settings[l.areanum].cluster
        && var k := w.ClusterAreaNum(c, l.areanum);
        var exit := l.linknum - w.settings[l.areanum].firstreachablearea;
        var t := u.tmptraveltime + u.areatraveltimes[i] + w.reachability[l.linknum].traveltime;
        && k < |g.into| && w.AreaOf(c, k) == l.areanum && 0 <= exit < 128
        && g.cross[k] == w.areatraveltimes[l.areanum] && exit < |g.cross[k]|
        && t < 65536 && t >= s.times[cur]
        && Relax(g, goal, s, cur, j) ==
           if s.times[k] == 0 || s.times[k] > t
           then State(Raise(s.heap, s.times[k := t], k), s.times[k := t], s.exit[k := exit], s.fits)
           else s
    {
      hide Raise;
      LinkInBounds(s, cur, i, j, u);
      assert w.LinkOk(u.areanum, i) && g.ArcOk(cur, j) && w.CrossingsOk(u.areanum);
      w.UsableSource(c, travelflags, u.areanum, i);
    }
  }

  class AreaRouter {
    const areaupdate: array<AreaUpdate>
    const updateheap: array<nat>
    const updateheappos: array<nat>
    const startareatraveltimes: seq<nat>

    /** Room for every cluster's search, and a zero row as long as any list of links into an area. */
    ghost predicate RoomFor(w: World) {
      && (forall c | 0 <= c < |w.clusters| :: w.clusters[c].numreachabilityareas <= areaupdate.Length)
      && (forall b | 0 <= b < |w.reversed| :: |w.reversed[b]| <= |startareatraveltimes|)
      && (forall i | 0 <= i < |startareatraveltimes| :: startareatraveltimes[i] == 0)
    }

    constructor (w: World)
      ensures Valid() && RoomFor(w) && Idle()
      ensures fresh(areaupdate) && fresh(updateheap) && fresh(updateheappos)
    {
      var maxreachabilityareas: nat, maxlinks: nat := 0, 0;
      for i := 0 to |w.clusters|
        invariant forall c | 0 <= c < i :: w.clusters[c].numreachabilityareas <= maxreachabilityareas
      {
        if w.clusters[i].numreachabilityareas > maxreachabilityareas {
          maxreachabilityareas := w.clusters[i].numreachabilityareas;
        }
      }
      for i := 0 to |w.reversed|
        invariant forall b | 0 <= b < i :: |w.reversed[b]| <= maxlinks
      {
        if |w.reversed[i]| > maxlinks {
          maxlinks := |w.reversed[i]|;
        }
      }
      startareatraveltimes := seq(maxlinks + 1, i => 0);
      areaupdate := new AreaUpdate[maxreachabilityareas](i => AreaUpdate(0, 0, []));
      updateheap := new nat[maxreachabilityareas](i => 0);
      updateheappos := new nat[maxreachabilityareas](i => 0);
    }

    ghost predicate Valid() {
      updateheap != updateheappos && areaupdate.Length == updateheap.Length == updateheappos.Length
    }

    /** No area is queued. */
    ghost predicate Idle()
      reads updateheappos
    {
      forall v | 0 <= v < updateheappos.Length :: updateheappos[v] == 0
    }

    /** The arrays hold heap h, with the position table its inverse. */
    ghost predicate Holds(h: seq<nat>)
      requires Valid()
      reads updateheap, updateheappos
    {
      |h| <= updateheap.Length && updateheap[..|h|] == h && Inverse(updateheappos[..], h)
    }

    /** The arrays hold heap h with inverse q, but for slot `pos` and the position of the node that belongs there. */
    ghost predicate HoleAt(h: seq<nat>, q: seq<nat>, pos: nat)
      requires Valid()
      reads updateheap, updateheappos
    {
      && pos < |h| <= updateheap.Length && |q| == updateheappos.Length && Inverse(q, h)
      && (forall i | 0 <= i < |h| && i != pos :: updateheap[i] == h[i])
      && (forall v | 0 <= v < |q| && v != h[pos] :: updateheappos[v] == q[v])
    }

    ghost predicate KeyedBy(h: seq<nat>, key: seq<nat>)
      requires Valid()
      reads areaupdate
    {
      && InRange(h, |key|) && |key| <= areaupdate.Length
      && forall i | 0 <= i < |h| :: areaupdate[h[i]].tmptraveltime == key[h[i]]
    }

    /** Move an entry into the hole; its old slot is the new hole. */
    method MoveEntry(pos: nat, from: nat, ghost h: seq<nat>, ghost q: seq<nat>) returns (ghost q': seq<nat>)
      requires Valid() && HoleAt(h, q, pos) && from < |h| && from != pos
      modifies updateheap, updateheappos
      ensures HoleAt(Swap(h, pos, from), q', from)
    {
      InverseSwap(q, h, pos, from);
      q' := q[h[pos] := from + 1][h[from] := pos + 1];
      updateheap[pos] := updateheap[from];
      updateheappos[updateheap[pos]] := pos + 1;
    }

    lemma KeyedSwap(h: seq<nat>, key: seq<nat>, i: nat, j: nat)
      requires Valid() && KeyedBy(h, key) && i < |h| && j < |h|
      ensures KeyedBy(Swap(h, i, j), key)
    {
    }

    method FillHole(pos: nat, node: nat, ghost h: seq<nat>, ghost q: seq<nat>)
      requires Valid() && HoleAt(h, q, pos) && node == h[pos]
      modifies updateheap, updateheappos
      ensures Holds(h)
    {
      updateheap[pos] := node;
      updateheappos[node] := pos + 1;
      assert updateheap[..|h|] == h && updateheappos[..] == q;
    }

    method SiftUp(start: nat, ghost h0: seq<nat>, ghost q0: seq<nat>, ghost key: seq<nat>)
      requires Valid() && HoleAt(h0, q0, start) && KeyedBy(h0, key) && updateheap[start] == h0[start]
      modifies updateheap, updateheappos
      ensures Holds(UpdateHeap.SiftUp(h0, key, start))
    {
      hide Inverse;
      var pos := start;
      var node := updateheap[pos];
      var t := areaupdate[node].tmptraveltime;
      ghost var h: seq<nat> := h0;
      ghost var q: seq<nat> := q0;
      while pos > 0
        invariant HoleAt(h, q, pos) && h[pos] == node && t == key[node]
        invariant |h| == |h0| && KeyedBy(h, key)
        invariant UpdateHeap.SiftUp(h, key, pos) == UpdateHeap.SiftUp(h0, key, start)
      {
        var parent := (pos - 1) / 2;
        if areaupdate[updateheap[parent]].tmptraveltime <= t { break; }
        KeyedSwap(h, key, pos, parent);
        q := MoveEntry(pos, parent, h, q);
        h := Swap(h, pos, parent);
        pos := parent;
      }
      FillHole(pos, node, h, q);
    }

    method SmallerChild(pos: nat, count: nat, ghost h: seq<nat>, ghost key: seq<nat>) returns (child: nat)
      requires Valid() && pos < count == |h| <= updateheap.Length && 2 * pos + 1 < count && KeyedBy(h, key)
      requires forall i | 0 <= i < |h| && i != pos :: updateheap[i] == h[i]
      ensures child == Child(h, key, pos)
    {
      child := 2 * pos + 1;
      if child + 1 < count
        && areaupdate[updateheap[child + 1]].tmptraveltime < areaupdate[updateheap[child]].tmptraveltime {
        child := child + 1;
      }
    }

    method SiftDown(start: nat, count: nat, ghost h0: seq<nat>, ghost q0: seq<nat>, ghost key: seq<nat>)
      requires Valid() && HoleAt(h0, q0, start) && KeyedBy(h0, key) && updateheap[start] == h0[start]
      requires count == |h0|
      modifies updateheap, updateheappos
      ensures Holds(UpdateHeap.SiftDown(h0, key, start))
    {
      hide Inverse, Parent, Child, UpdateHeap.SiftDown;
      var pos := start;
      var node := updateheap[pos];
      var t := areaupdate[node].tmptraveltime;
      ghost var h: seq<nat> := h0;
      ghost var q: seq<nat> := q0;
      while true
        invariant HoleAt(h, q, pos) && h[pos] == node && t == key[node]
        invariant |h| == |h0| && KeyedBy(h, key)
        invariant UpdateHeap.SiftDown(h, key, pos) == UpdateHeap.SiftDown(h0, key, start)
        decreases count - pos
      {
        SiftDownRound(h, key, pos);
        var child := 2 * pos + 1;
        if child >= count { break; }
        child := SmallerChild(pos, count, h, key);
        if areaupdate[updateheap[child]].tmptraveltime >= t { break; }
        KeyedSwap(h, key, pos, child);
        q := MoveEntry(pos, child, h, q);
        h := Swap(h, pos, child);
        pos := child;
      }
      FillHole(pos, node, h, q);
    }

    /** Queue node k, or move it up after its time dropped. */
    method Enqueue(k: nat, count: nat, ghost h: seq<nat>, ghost key: seq<nat>) returns (count': nat)
      requires Valid() && Holds(h) && count == |h| && k < |key| && |key| <= areaupdate.Length
      requires KeyedBy(h, key) && areaupdate[k].tmptraveltime == key[k]
      modifies updateheap, updateheappos
      ensures Holds(Raise(h, key, k)) && count' == |Raise(h, key, k)|
    {
      hide UpdateHeap.SiftUp;
      InverseGivesIndex(updateheappos[..], h, k);
      if updateheappos[k] != 0 {
        count' := count;
        SiftUp(updateheappos[k] - 1, h, updateheappos[..], key);
      } else {
        InverseRoom(updateheappos[..], h, k);
        updateheap[count] := k;
        updateheappos[k] := count + 1;
        count' := count + 1;
        SiftUp(count' - 1, h + [k], updateheappos[..], key);
      }
    }

    /** Take the node with the least time off the heap. */
    method PopRoot(count: nat, ghost h: seq<nat>, ghost key: seq<nat>) returns (cur: nat, count': nat)
      requires Valid() && Holds(h) && count == |h| > 0 && KeyedBy(h, key)
      modifies updateheap, updateheappos
      ensures cur == h[0] && count' == count - 1 && Holds(Pop(h, key))
    {
      hide UpdateHeap.SiftDown, Inverse;
      HeldNodes(h);
      ghost var q := updateheappos[..];
      cur := updateheap[0];
      updateheappos[cur] := 0;
      count' := count - 1;
      if count' > 0 {
        InversePop(q, h);
        q := q[h[0] := 0][h[count'] := 1];
        updateheap[0] := updateheap[count'];
        SiftDown(0, count', LastToRoot(h), q, key);
      } else {
        PoppedLast(q, h);
      }
    }

    lemma HeldNodes(h: seq<nat>)
      requires Valid() && Holds(h)
      ensures forall i | 0 <= i < |h| :: h[i] < updateheappos.Length
    {
    }

    lemma PoppedLast(q: seq<nat>, h: seq<nat>)
      requires Inverse(q, h) && |h| == 1
      ensures h[0] < |q| && Inverse(q[h[0] := 0], [])
    {
    }

    /** The arrays of the router and of the cache hold search state s. */
    ghost predicate Tracks(q: Query, s: State, cache: RoutingCache)
      requires Valid() && q.Ok()
      reads updateheap, updateheappos, areaupdate, cache.traveltimes, cache.reachabilities
    {
      && StateOk(q.g, q.goal, s) && |q.g.into| <= areaupdate.Length && Holds(s.heap)
      && cache.traveltimes[..] == s.times && cache.reachabilities[..] == s.exit
      && forall v | 0 <= v < |s.times| && s.times[v] != 0 :: q.UpdateOk(s, v, areaupdate[v])
    }

    ghost predicate Apart(cache: RoutingCache) {
      && cache.traveltimes != cache.reachabilities
      && {cache.traveltimes, cache.reachabilities} !! {updateheap, updateheappos}
    }

    /** Offer the source of link i into the area of node `cur` the time through that area. */
    method Offer(ghost q: Query, w: World, cache: RoutingCache, cur: nat, i: nat, count: nat, ghost s: State,
                 ghost j: nat)
      returns (count': nat)
      requires Valid() && q.Ok() && q.w == w && q.c == cache.cluster && Apart(cache)
      requires Tracks(q, s, cache) && count == |s.heap| && StartsAt(q.goal, cache.starttraveltime, s)
      requires cur < |q.g.into| && q.LinkIsArc(cur, i, j) && s.times[cur] != 0
      requires Relax(q.g, q.goal, s, cur, j).fits
      modifies updateheap, updateheappos, areaupdate, cache.traveltimes, cache.reachabilities
      ensures var r := Relax(q.g, q.goal, s, cur, j); Tracks(q, r, cache) && count' == |r.heap|
    {
      hide Query.Ok, World.Valid, Graph.Valid, Inverse, Distinct, Relax, Raise, StateOk;
      assert cur < |q.g.into| == |s.times| == |s.exit|
        && q.UpdateOk(s, cur, areaupdate[cur]) by { TracksAt(q, s, cache, cur); }
      q.LinkInBounds(s, cur, i, j, areaupdate[cur]);
      q.RelaxedByLink(s, cur, i, j, areaupdate[cur]);
      var link := w.reversed[areaupdate[cur].areanum][i];
      var exit := link.linknum - w.settings[link.areanum].firstreachablearea;
      var k := w.ClusterAreaNum(cache.cluster, link.areanum);
      var t := (areaupdate[cur].tmptraveltime + areaupdate[cur].areatraveltimes[i]
        + w.reachability[link.linknum].traveltime) % 65536;
      count' := StoreIfBetter(q, cache, k, AreaUpdate(link.areanum, t, w.areatraveltimes[link.areanum][exit]),
        exit % 256, count, s);
    }

    lemma TracksAt(q: Query, s: State, cache: RoutingCache, v: nat)
      requires Valid() && q.Ok() && Tracks(q, s, cache) && v < |q.g.into| && s.times[v] != 0
      ensures |q.g.into| == |s.times| == |s.exit| && q.UpdateOk(s, v, areaupdate[v])
    {
    }

    /** Store the time in u for node k if it is k's first or a better one. */
    method StoreIfBetter(ghost q: Query, cache: RoutingCache, k: nat, u: AreaUpdate, exit: nat, count: nat,
                         ghost s: State)
      returns (count': nat)
      requires Valid() && q.Ok() && Apart(cache) && Tracks(q, s, cache) && count == |s.heap|
      requires k < |q.g.into| && exit < |q.g.cross[k]| && 0 < s.times[q.goal] <= u.tmptraveltime
      requires u.areanum == q.w.AreaOf(q.c, k) && u.areatraveltimes == q.g.cross[k][exit]
      modifies updateheap, updateheappos, areaupdate, cache.traveltimes, cache.reachabilities
      ensures var times := s.times[k := u.tmptraveltime];
        var r := if s.times[k] == 0 || s.times[k] > u.tmptraveltime
                 then State(Raise(s.heap, times, k), times, s.exit[k := exit], s.fits) else s;
        Tracks(q, r, cache) && count' == |r.heap|
    {
      hide Query.Ok, World.Valid, Graph.Valid, Inverse, Distinct, Raise, Holds, Query.UpdateOk;
      if cache.traveltimes[k] == 0 || cache.traveltimes[k] > u.tmptraveltime {
        count' := Store(q, cache, k, u, exit, count, s);
      } else {
        count' := count;
      }
    }

    /** Store a better time for node k, and queue it. */
    method Store(ghost q: Query, cache: RoutingCache, k: nat, u: AreaUpdate, exit: nat, count: nat, ghost s: State)
      returns (count': nat)
      requires Valid() && q.Ok() && Apart(cache) && Tracks(q, s, cache) && count == |s.heap|
      requires k < |q.g.into| && k != q.goal && exit < |q.g.cross[k]| && u.tmptraveltime > 0
      requires u.areanum == q.w.AreaOf(q.c, k) && u.areatraveltimes == q.g.cross[k][exit]
      modifies updateheap, updateheappos, areaupdate, cache.traveltimes, cache.reachabilities
      ensures var times := s.times[k := u.tmptraveltime];
        var r := State(Raise(s.heap, times, k), times, s.exit[k := exit], s.fits);
        Tracks(q, r, cache) && count' == |r.heap|
    {
      hide Raise, World.Valid, Graph.Valid, Inverse, Distinct;
      ghost var times := s.times[k := u.tmptraveltime];
      cache.traveltimes[k] := u.tmptraveltime;
      cache.reachabilities[k] := exit;
      areaupdate[k] := u;
      count' := Enqueue(k, count, s.heap, times);
      RaiseContents(s.heap, times, k);
      assert forall x | 0 <= x < |Raise(s.heap, times, k)| :: Raise(s.heap, times, k)[x] in Raise(s.heap, times, k);
    }

    /** Go back over every link into the area of node cur. */
    method ScanLinks(ghost q: Query, w: World, cache: RoutingCache, cur: nat, count: nat, ghost s: State)
      returns (count': nat)
      requires Valid() && q.Ok() && q.w == w && q.c == cache.cluster && q.travelflags == cache.travelflags
        && Apart(cache)
      requires Tracks(q, s, cache) && count == |s.heap| && StartsAt(q.goal, cache.starttraveltime, s)
      requires cur < |q.g.into| && s.times[cur] != 0
      requires Expand(q.g, q.goal, s, cur, 0).fits
      modifies updateheap, updateheappos, areaupdate, cache.traveltimes, cache.reachabilities
      ensures var r := Expand(q.g, q.goal, s, cur, 0); Tracks(q, r, cache) && count' == |r.heap|
    {
      hide Query.Ok, Query.ArcsLeft, World.Valid, Graph.Valid, Inverse, Distinct, Relax, Holds;
      TracksAt(q, s, cache, cur);
      q.FirstLink(cur);
      var b := areaupdate[cur].areanum;
      count' := count;
      ghost var st, j := s, 0;
      for i := 0 to |w.reversed[b]|
        invariant Tracks(q, st, cache) && count' == |st.heap| && StartsAt(q.goal, cache.starttraveltime, st)
        invariant st.times[cur] != 0 && j <= |q.g.into[cur]| && q.ArcsLeft(cur, i, j)
        invariant Expand(q.g, q.goal, st, cur, j) == Expand(q.g, q.goal, s, cur, 0)
      {
        q.NextLink(cur, i, j);
        if w.Usable(cache.cluster, cache.travelflags, b, i) {
          RelaxStart(q.g, q.goal, cache.starttraveltime, st, cur, j);
          ExpandFits(q.g, q.goal, Relax(q.g, q.goal, st, cur, j), cur, j + 1);
          count' := Offer(q, w, cache, cur, i, count', st, j);
          st, j := Relax(q.g, q.goal, st, cur, j), j + 1;
        }
      }
      q.NextLink(cur, |w.reversed[b]|, j);
    }

    /** The area search. The cache comes in cleared; no sum may reach 65536. */
    method UpdateAreaRoutingCache(w: World, cache: RoutingCache)
      requires Valid() && w.Valid() && RoomFor(w) && Apart(cache) && Idle()
      requires w.IsCluster(cache.cluster) && w.Member(cache.cluster, cache.areanum) && cache.starttraveltime > 0
      requires cache.traveltimes[..] == cache.reachabilities[..]
      requires cache.traveltimes[..] == Zeros(w.clusters[cache.cluster].numreachabilityareas)
      requires w.AreaSearch(cache.cluster, cache.areanum, cache.travelflags, cache.starttraveltime).fits
      modifies updateheap, updateheappos, areaupdate, cache.traveltimes, cache.reachabilities
      ensures Idle()
      ensures var r := w.AreaSearch(cache.cluster, cache.areanum, cache.travelflags, cache.starttraveltime);
        cache.traveltimes[..] == r.times && cache.reachabilities[..] == r.exit
    {
      var clusterareanum := w.ClusterAreaNum(cache.cluster, cache.areanum);
      if clusterareanum >= w.clusters[cache.cluster].numreachabilityareas {
        w.SearchFromOutside(cache.cluster, cache.areanum, cache.travelflags, cache.starttraveltime);
        return;
      }
      w.AreaOfNumber(cache.cluster, cache.areanum);
      w.GraphIsValid(cache.cluster, cache.travelflags);
      ghost var q := Query(w, cache.cluster, cache.travelflags, w.GraphOf(cache.cluster, cache.travelflags),
        clusterareanum);
      QueueGoal(q, cache, clusterareanum);
      EmptyHeap(q, w, cache);
    }

    /** The goal alone is queued, with the start time. */
    method QueueGoal(ghost q: Query, cache: RoutingCache, clusterareanum: nat)
      requires Valid() && q.Ok() && q.goal == clusterareanum && RoomFor(q.w) && Apart(cache) && Idle()
      requires q.c == cache.cluster && q.w.AreaOf(q.c, q.goal) == cache.areanum
      requires cache.starttraveltime > 0
      requires cache.traveltimes[..] == Zeros(|q.g.into|) == cache.reachabilities[..]
      modifies updateheap, updateheappos, areaupdate, cache.traveltimes
      ensures Tracks(q, Start(q.g, q.goal, cache.starttraveltime), cache)
    {
      hide World.Valid, Graph.Valid;
      q.FirstLink(q.goal);
      areaupdate[clusterareanum] := AreaUpdate(cache.areanum, cache.starttraveltime, startareatraveltimes);
      cache.traveltimes[clusterareanum] := cache.starttraveltime;
      updateheap[0] := clusterareanum;
      updateheappos[clusterareanum] := 1;
      assert updateheap[..1] == [clusterareanum];
    }

    method EmptyHeap(ghost q: Query, w: World, cache: RoutingCache)
      requires Valid() && q.Ok() && q.w == w && q.c == cache.cluster && q.travelflags == cache.travelflags
        && Apart(cache)
      requires cache.starttraveltime > 0
      requires Tracks(q, Start(q.g, q.goal, cache.starttraveltime), cache)
      requires Search(q.g, q.goal, cache.starttraveltime).fits
      modifies updateheap, updateheappos, areaupdate, cache.traveltimes, cache.reachabilities
      ensures Idle()
      ensures var r := Search(q.g, q.goal, cache.starttraveltime);
        cache.traveltimes[..] == r.times && cache.reachabilities[..] == r.exit
    {
      hide Query.Ok, World.Valid, Graph.Valid, Distinct, Holds, Step, FixedPoint;
      var heapcount := 1;
      ghost var r := Search(q.g, q.goal, cache.starttraveltime);
      ghost var s, k: nat := Start(q.g, q.goal, cache.starttraveltime), |q.g.into|;
      ghost var _, _ := SearchIsFixedPoint(q.g, q.goal, cache.starttraveltime);
      while heapcount > 0
        invariant Tracks(q, s, cache) && heapcount == |s.heap| && StartsAt(q.goal, cache.starttraveltime, s)
        invariant Run(q.g, q.goal, s, k) == r
        decreases k
      {
        assert k > 0;
        RunFits(q.g, q.goal, Step(q.g, q.goal, s), k - 1);
        heapcount := Round(q, w, cache, heapcount, s);
        s, k := Step(q.g, q.goal, s), k - 1;
      }
      HoldsNothing();
    }

    /** One round of the main loop: pop the area with the least time and go back over the links into it. */
    method Round(ghost q: Query, w: World, cache: RoutingCache, count: nat, ghost s: State) returns (count': nat)
      requires Valid() && q.Ok() && q.w == w && q.c == cache.cluster && q.travelflags == cache.travelflags
        && Apart(cache)
      requires Tracks(q, s, cache) && count == |s.heap| > 0 && StartsAt(q.goal, cache.starttraveltime, s)
      requires Step(q.g, q.goal, s).fits
      modifies updateheap, updateheappos, areaupdate, cache.traveltimes, cache.reachabilities
      ensures var r := Step(q.g, q.goal, s);
        Tracks(q, r, cache) && count' == |r.heap| && StartsAt(q.goal, cache.starttraveltime, r)
    {
      hide Query.Ok, World.Valid, Graph.Valid, Distinct, Holds, Pop, Expand;
      ghost var p := Popped(q.g, q.goal, s);
      TracksKeyed(q, s, cache);
      var cur;
      cur, count' := PopRoot(count, s.heap, s.times);
      count' := ScanLinks(q, w, cache, cur, count', p);
      ExpandStart(q.g, q.goal, cache.starttraveltime, p, cur, 0);
    }

    lemma TracksKeyed(q: Query, s: State, cache: RoutingCache)
      requires Valid() && q.Ok() && Tracks(q, s, cache)
      ensures KeyedBy(s.heap, s.times) && Holds(s.heap)
    {
    }

    lemma HoldsNothing()
      requires Valid() && Holds([])
      ensures Idle()
    {
      assert forall v | 0 <= v < updateheappos.Length :: updateheappos[v] == updateheappos[..][v];
    }
  }
}
