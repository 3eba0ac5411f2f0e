/** The area routing search over one cluster, on unbounded travel times.
    Nodes are the numbers areas have inside the cluster; arcs run against the direction of travel. */
module AreaSearch {
  import opened Counting
  import opened UpdateHeap

  /** A reachability leading into a node: it leaves node `from` by that node's reachability number
      `exit`, and is entry number `entry` among all reversed links of the node it leads into. */
  datatype Arc = Arc(from: nat, exit: nat, entry: nat, time: nat)

  /** `into[b]` lists the arcs the search may use into b, in search order;
      `cross[b][exit][entry]` is the time to cross b between an entry and an exit. */
  datatype Graph = Graph(into: seq<seq<Arc>>, cross: seq<seq<seq<nat>>>) {

    ghost predicate ArcOk(b: nat, i: nat)
      requires |cross| == |into| && b < |into| && i < |into[b]|
    {
      var a := into[b][i];
      && a.from < |into| && a.exit < |cross[a.from]|
      && forall e | 0 <= e < |cross[b]| :: a.entry < |cross[b][e]| && 1 <= cross[b][e][a.entry]
    }

    ghost predicate Valid() {
      && |cross| == |into|
      && forall b, i | 0 <= b < |into| && 0 <= i < |into[b]| :: ArcOk(b, i)
    }

    ghost predicate IsArc(b: nat, i: nat) {
      b < |into| && i < |into[b]|
    }

    /** A node and one of its reachabilities name one arc. */
    ghost predicate ExitsAreUnique() {
      forall b1: nat, i1: nat, b2: nat, i2: nat | IsArc(b1, i1) && IsArc(b2, i2)
        && into[b1][i1].from == into[b2][i2].from && into[b1][i1].exit == into[b2][i2].exit ::
        b1 == b2 && i1 == i2
    }
  }

  /** time 0: not reached yet. `fits`: every sum formed so far is below 65536. */
  datatype State = State(heap: seq<nat>, times: seq<nat>, exit: seq<nat>, fits: bool)

  ghost predicate StateOk(g: Graph, goal: nat, s: State) {
    && g.Valid() && goal < |g.into|
    && |s.times| == |g.into| == |s.exit|
    && InRange(s.heap, |g.into|) && Distinct(s.heap)
    && (forall i | 0 <= i < |s.heap| :: s.times[s.heap[i]] != 0)
    && (forall v | 0 <= v < |g.into| && v != goal && s.times[v] != 0 :: s.exit[v] < |g.cross[v]|)
  }

  /** Time from entry `entry` of node b to b's own stored exit; crossing the goal is free. */
  function Enter(g: Graph, goal: nat, s: State, b: nat, entry: nat): nat
    requires b < |g.into| && |g.cross| == |g.into| == |s.exit|
    requires b != goal ==> s.exit[b] < |g.cross[b]| && entry < |g.cross[b][s.exit[b]]|
  {
    if b == goal then 0 else g.cross[b][s.exit[b]][entry]
  }

  /** The travel time offered to the node that arc i into b comes from. */
  function Through(g: Graph, goal: nat, s: State, b: nat, i: nat): (t: nat)
    requires StateOk(g, goal, s) && g.IsArc(b, i) && s.times[b] != 0
    ensures t >= s.times[b] && (b != goal ==> t > s.times[b])
  {
    assert g.ArcOk(b, i);
    s.times[b] + Enter(g, goal, s, b, g.into[b][i].entry) + g.into[b][i].time
  }

  function Relax(g: Graph, goal: nat, s: State, b: nat, i: nat): (r: State)
    requires StateOk(g, goal, s) && g.IsArc(b, i) && s.times[b] != 0
    ensures StateOk(g, goal, r)
    ensures forall v | 0 <= v < |g.into| && s.times[v] != 0 :: r.times[v] != 0
  {
    assert g.ArcOk(b, i);
    var t := Through(g, goal, s, b, i);
    var x := g.into[b][i].from;
    var fits := s.fits && t < 65536;
    if s.times[x] == 0 || s.times[x] > t then
      var times := s.times[x := t];
      var heap := Raise(s.heap, times, x);
      assert Distinct(heap) && forall y :: y in heap <==> y in s.heap || y == x by {
        RaiseContents(s.heap, times, x);
      }
      assert forall k | 0 <= k < |heap| :: heap[k] in heap;
      State(heap, times, s.exit[x := g.into[b][i].exit], fits)
    else
      s.(fits := fits)
  }

  /** Relax the arcs into b from number i on. */
  function Expand(g: Graph, goal: nat, s: State, b: nat, i: nat): (r: State)
    requires StateOk(g, goal, s) && b < |g.into| && i <= |g.into[b]| && s.times[b] != 0
    ensures StateOk(g, goal, r)
    ensures forall v | 0 <= v < |g.into| && s.times[v] != 0 :: r.times[v] != 0
    decreases |g.into[b]| - i
  {
    if i == |g.into[b]| then s else Expand(g, goal, Relax(g, goal, s, b, i), b, i + 1)
  }

  /** Drop the root of the heap. */
  function Popped(g: Graph, goal: nat, s: State): (r: State)
    requires StateOk(g, goal, s) && s.heap != []
    ensures StateOk(g, goal, r) && r.times == s.times && r.exit == s.exit && r.fits == s.fits
  {
    var heap := Pop(s.heap, s.times);
    assert Distinct(heap) && forall y :: y in heap <==> y in s.heap && y != s.heap[0] by {
      PopContents(s.heap, s.times);
    }
    assert forall k | 0 <= k < |heap| :: heap[k] in heap;
    s.(heap := heap)
  }

  function Step(g: Graph, goal: nat, s: State): (r: State)
    requires StateOk(g, goal, s) && s.heap != []
    ensures StateOk(g, goal, r)
  {
    Expand(g, goal, Popped(g, goal, s), s.heap[0], 0)
  }

  /** At most k rounds of the main loop. */
  function Run(g: Graph, goal: nat, s: State, k: nat): (r: State)
    requires StateOk(g, goal, s)
    ensures StateOk(g, goal, r)
    decreases k
  {
    if k == 0 || s.heap == [] then s else Run(g, goal, Step(g, goal, s), k - 1)
  }

  function Zeros(n: nat): (z: seq<nat>)
    ensures |z| == n && forall i | 0 <= i < n :: z[i] == 0
  {
    seq(n, i => 0)
  }

  function Start(g: Graph, goal: nat, start: nat): (s: State)
    requires g.Valid() && goal < |g.into| && start > 0
    ensures StateOk(g, goal, s)
  {
    State([goal], Zeros(|g.into|)[goal := start], Zeros(|g.into|), start < 65536)
  }

  /** The whole search. A goal without reachabilities has no node, and nothing is labelled. */
  function Search(g: Graph, goal: nat, start: nat): (r: State)
    requires g.Valid() && start > 0
    ensures |r.times| == |g.into| == |r.exit|
    ensures goal < |g.into| ==> StateOk(g, goal, r)
  {
    if goal >= |g.into| then State([], Zeros(|g.into|), Zeros(|g.into|), true)
    else Run(g, goal, Start(g, goal, start), |g.into|)
  }

  // ----- the invariant of the search

  /** Arc i into the finished node b offers its source no better time. */
  ghost predicate Relaxed(g: Graph, goal: nat, s: State, b: nat, i: nat)
    requires StateOk(g, goal, s)
  {
    g.IsArc(b, i) && s.times[b] != 0 && g.into[b][i].from < |s.times| &&
    0 < s.times[g.into[b][i].from] <= Through(g, goal, s, b, i)
  }

  /** x's stored reachability is arc i into b, and x's label is the time that arc offers. */
  ghost predicate Uses(g: Graph, goal: nat, s: State, x: nat, b: nat, i: nat)
    requires StateOk(g, goal, s)
  {
    && g.IsArc(b, i) && s.times[b] != 0 && x < |s.times|
    && g.into[b][i].from == x && g.into[b][i].exit == s.exit[x]
    && s.times[x] == Through(g, goal, s, b, i)
  }

  /** `done`: nodes that left the heap, `cur` the last of them. */
  ghost predicate Queue(g: Graph, goal: nat, start: nat, done: set<nat>, cur: nat, s: State) {
    && StateOk(g, goal, s) && Ordered(s.heap, s.times)
    && goal in done && cur in done && cur < |g.into|
    && s.times[goal] == start
    && (forall x | x in done :: x < |g.into| && 0 < s.times[x] <= s.times[cur] && x !in s.heap)
    && (forall x | 0 <= x < |g.into| && s.times[x] != 0 :: x in done || (x in s.heap && s.times[cur] <= s.times[x]))
  }

  /** A reached node x got its time from arc number arc[x] into the finished node via[x]. */
  ghost predicate Explained(g: Graph, goal: nat, done: set<nat>, via: seq<nat>, arc: seq<nat>, s: State)
    requires StateOk(g, goal, s)
  {
    && |via| == |arc| == |g.into|
    && forall x: nat {:trigger Uses(g, goal, s, x, via[x], arc[x])} | x < |g.into| && s.times[x] != 0 && x != goal ::
         via[x] in done && Uses(g, goal, s, x, via[x], arc[x])
  }

  /** All arcs into finished nodes are relaxed, of `cur` the first `upto`. */
  ghost predicate Settled(g: Graph, goal: nat, done: set<nat>, cur: nat, upto: nat, s: State)
    requires StateOk(g, goal, s)
  {
    forall b: nat, i: nat | b in done && g.IsArc(b, i) && (b == cur ==> i < upto) :: Relaxed(g, goal, s, b, i)
  }

  /** No sum reached 65536: the start time, and what every relaxed arc offers. */
  ghost predicate FitsOk(g: Graph, goal: nat, start: nat, done: set<nat>, cur: nat, upto: nat, s: State)
    requires StateOk(g, goal, s) && (forall b | b in done :: b < |g.into| && s.times[b] != 0)
  {
    s.fits <==>
    && start < 65536
    && forall b: nat, i: nat | b in done && g.IsArc(b, i) && (b == cur ==> i < upto) ::
      Through(g, goal, s, b, i) < 65536
  }

  ghost predicate Inv(g: Graph, goal: nat, start: nat, done: set<nat>, cur: nat, upto: nat,
                      via: seq<nat>, arc: seq<nat>, s: State) {
    && Queue(g, goal, start, done, cur, s) && upto <= |g.into[cur]|
    && Explained(g, goal, done, via, arc, s)
    && Settled(g, goal, done, cur, upto, s)
    && FitsOk(g, goal, start, done, cur, upto, s)
  }

  /** Finished nodes keep their time and their exit. */
  ghost predicate Frozen(done: set<nat>, s: State, r: State) {
    && |s.times| == |r.times| && |s.exit| == |r.exit|
    && forall x | x in done && x < |s.times| && x < |s.exit| :: s.times[x] == r.times[x] && s.exit[x] == r.exit[x]
  }

  /** Relaxing changes at most the source of the arc, and never a finished node. */
  lemma RelaxQueue(g: Graph, goal: nat, start: nat, done: set<nat>, cur: nat, i: nat, s: State)
    requires Queue(g, goal, start, done, cur, s) && g.IsArc(cur, i)
    ensures var r := Relax(g, goal, s, cur, i);
      var x := g.into[cur][i].from;
      && Queue(g, goal, start, done, cur, r) && Frozen(done, s, r)
      && x < |g.into| && 0 < r.times[x] <= Through(g, goal, s, cur, i)
      && (forall y | 0 <= y < |g.into| && y != x :: r.times[y] == s.times[y] && r.exit[y] == s.exit[y])
      && (s.times[x] != 0 ==> r.times[x] <= s.times[x])
      && ((r.times[x] == s.times[x] && r.exit[x] == s.exit[x])
          || (x !in done && r.times[x] == Through(g, goal, s, cur, i) && r.exit[x] == g.into[cur][i].exit))
  {
    var t := Through(g, goal, s, cur, i);
    var x := g.into[cur][i].from;
    assert g.ArcOk(cur, i);
    if s.times[x] == 0 || s.times[x] > t {
      assert x !in done;
      RaiseContents(s.heap, s.times[x := t], x);
      RaiseOrders(s.heap, s.times, x, t);
    }
  }

  /** What arc i into b offers depends only on b's own time and exit. */
  lemma ThroughFrozen(g: Graph, goal: nat, s: State, r: State, b: nat, i: nat)
    requires StateOk(g, goal, s) && StateOk(g, goal, r) && g.IsArc(b, i) && s.times[b] != 0
    requires r.times[b] == s.times[b] && r.exit[b] == s.exit[b]
    ensures Through(g, goal, r, b, i) == Through(g, goal, s, b, i)
  {
  }

  lemma RelaxInv(g: Graph, goal: nat, start: nat, done: set<nat>, cur: nat, i: nat,
                 via: seq<nat>, arc: seq<nat>, s: State) returns (via': seq<nat>, arc': seq<nat>)
    requires Inv(g, goal, start, done, cur, i, via, arc, s) && i < |g.into[cur]|
    ensures var r := Relax(g, goal, s, cur, i);
      Inv(g, goal, start, done, cur, i + 1, via', arc', r) && Frozen(done, s, r)
  {
    var x := g.into[cur][i].from;
    var r := Relax(g, goal, s, cur, i);
    RelaxQueue(g, goal, start, done, cur, i, s);
    if r.times[x] == s.times[x] && r.exit[x] == s.exit[x] {
      via', arc' := via, arc;
    } else {
      via', arc' := via[x := cur], arc[x := i];
    }
    ThroughFrozen(g, goal, s, r, cur, i);
    forall y: nat | y < |g.into| && r.times[y] != 0 && y != goal
      ensures via'[y] in done && Uses(g, goal, r, y, via'[y], arc'[y])
    {
      if via'[y] == via[y] && arc'[y] == arc[y] && r.times[y] == s.times[y] && r.exit[y] == s.exit[y] {
        assert Uses(g, goal, s, y, via[y], arc[y]);
        ThroughFrozen(g, goal, s, r, via[y], arc[y]);
      }
    }
    forall b: nat, j: nat | b in done && g.IsArc(b, j) && (b == cur ==> j < i + 1)
      ensures Relaxed(g, goal, r, b, j)
    {
      if b != cur || j != i {
        assert Relaxed(g, goal, s, b, j);
        ThroughFrozen(g, goal, s, r, b, j);
      }
    }
    RelaxFits(g, goal, start, done, cur, i, s);
  }

  lemma RelaxFits(g: Graph, goal: nat, start: nat, done: set<nat>, cur: nat, i: nat, s: State)
    requires Queue(g, goal, start, done, cur, s) && g.IsArc(cur, i) && FitsOk(g, goal, start, done, cur, i, s)
    ensures var r := Relax(g, goal, s, cur, i);
      (forall b | b in done :: b < |g.into| && r.times[b] != 0) && FitsOk(g, goal, start, done, cur, i + 1, r)
  {
    var r := Relax(g, goal, s, cur, i);
    RelaxQueue(g, goal, start, done, cur, i, s);
    forall b: nat, j: nat | b in done && g.IsArc(b, j) ensures Through(g, goal, r, b, j) == Through(g, goal, s, b, j) {
      ThroughFrozen(g, goal, s, r, b, j);
    }
    if r.fits {
      forall b: nat, j: nat | b in done && g.IsArc(b, j) && (b == cur ==> j < i + 1)
        ensures Through(g, goal, r, b, j) < 65536
      {
        assert b != cur || j != i ==> Through(g, goal, s, b, j) < 65536;
      }
    }
  }

  lemma {:induction false} ExpandInv(g: Graph, goal: nat, start: nat, done: set<nat>, cur: nat, i: nat,
                                     via: seq<nat>, arc: seq<nat>, s: State) returns (via': seq<nat>, arc': seq<nat>)
    requires Inv(g, goal, start, done, cur, i, via, arc, s)
    ensures var r := Expand(g, goal, s, cur, i);
      Inv(g, goal, start, done, cur, |g.into[cur]|, via', arc', r) && Frozen(done, s, r)
    decreases |g.into[cur]| - i
  {
    if i == |g.into[cur]| {
      via', arc' := via, arc;
    } else {
      via', arc' := RelaxInv(g, goal, start, done, cur, i, via, arc, s);
      via', arc' := ExpandInv(g, goal, start, done, cur, i + 1, via', arc', Relax(g, goal, s, cur, i));
    }
  }

  lemma PoppedQueue(g: Graph, goal: nat, start: nat, done: set<nat>, cur: nat, s: State)
    requires Queue(g, goal, start, done, cur, s) && s.heap != []
    ensures s.heap[0] < |g.into| && s.heap[0] !in done
    ensures s.times[cur] <= s.times[s.heap[0]]
    ensures Queue(g, goal, start, done + {s.heap[0]}, s.heap[0], Popped(g, goal, s))
  {
    var b := s.heap[0];
    PopContents(s.heap, s.times);
    PopOrders(s.heap, s.times);
    assert b in s.heap;
    forall k | 0 <= k < |s.heap| ensures s.times[b] <= s.times[s.heap[k]] {
      RootIsLeast(s.heap, s.times, k);
    }
  }

  lemma PoppedExplained(g: Graph, goal: nat, done: set<nat>, b: nat, via: seq<nat>, arc: seq<nat>, s: State, p: State)
    requires StateOk(g, goal, s) && StateOk(g, goal, p) && p.times == s.times && p.exit == s.exit
    requires Explained(g, goal, done, via, arc, s)
    ensures Explained(g, goal, done + {b}, via, arc, p)
  {
    forall x: nat | x < |g.into| && p.times[x] != 0 && x != goal
      ensures via[x] in done + {b} && Uses(g, goal, p, x, via[x], arc[x])
    {
      assert Uses(g, goal, s, x, via[x], arc[x]);
    }
  }

  lemma PoppedSettled(g: Graph, goal: nat, start: nat, done: set<nat>, cur: nat, b: nat, s: State, p: State)
    requires StateOk(g, goal, s) && StateOk(g, goal, p) && p.times == s.times && p.exit == s.exit && p.fits == s.fits
    requires cur < |g.into| && Settled(g, goal, done, cur, |g.into[cur]|, s)
    requires b < |g.into| && s.times[b] != 0 && forall c | c in done :: c < |g.into| && s.times[c] != 0
    requires FitsOk(g, goal, start, done, cur, |g.into[cur]|, s)
    ensures Settled(g, goal, done + {b}, b, 0, p)
    ensures b !in done ==> FitsOk(g, goal, start, done + {b}, b, 0, p)
  {
    forall c: nat, i: nat | g.IsArc(c, i) && s.times[c] != 0
      ensures Through(g, goal, p, c, i) == Through(g, goal, s, c, i)
    {
      ThroughFrozen(g, goal, s, p, c, i);
    }
    forall c: nat, i: nat | c in done + {b} && g.IsArc(c, i) && (c == b ==> i < 0)
      ensures Relaxed(g, goal, p, c, i)
    {
      assert Relaxed(g, goal, s, c, i);
    }
  }

  lemma StepInv(g: Graph, goal: nat, start: nat, done: set<nat>, cur: nat,
                via: seq<nat>, arc: seq<nat>, s: State) returns (via': seq<nat>, arc': seq<nat>)
    requires cur < |g.into| && Inv(g, goal, start, done, cur, |g.into[cur]|, via, arc, s) && s.heap != []
    ensures s.heap[0] < |g.into| && s.heap[0] !in done
    ensures s.times[cur] <= s.times[s.heap[0]]
    ensures var b := s.heap[0];
      var r := Step(g, goal, s);
      Inv(g, goal, start, done + {b}, b, |g.into[b]|, via', arc', r) && Frozen(done + {b}, s, r)
  {
    hide Expand, Settled, Explained, FitsOk, Pop, Ordered;
    var b := s.heap[0];
    PoppedQueue(g, goal, start, done, cur, s);
    PoppedExplained(g, goal, done, b, via, arc, s, Popped(g, goal, s));
    PoppedSettled(g, goal, start, done, cur, b, s, Popped(g, goal, s));
    via', arc' := ExpandInv(g, goal, start, done + {b}, b, 0, via, arc, Popped(g, goal, s));
  }

  /** The first round: the goal is the only queued node. */
  lemma FirstStepInv(g: Graph, goal: nat, start: nat) returns (via': seq<nat>, arc': seq<nat>)
    requires g.Valid() && goal < |g.into| && start > 0
    ensures Inv(g, goal, start, {goal}, goal, |g.into[goal]|, via', arc', Step(g, goal, Start(g, goal, start)))
  {
    var s := Start(g, goal, start);
    via', arc' := ExpandInv(g, goal, start, {goal}, goal, 0, Zeros(|g.into|), Zeros(|g.into|), Popped(g, goal, s));
  }

  /** Enough rounds empty the heap: every round finishes a node, and there are |g.into| nodes. */
  lemma {:induction false} RunInv(g: Graph, goal: nat, start: nat, done: set<nat>, cur: nat,
                                  via: seq<nat>, arc: seq<nat>, s: State, k: nat)
    returns (done': set<nat>, cur': nat, via': seq<nat>, arc': seq<nat>)
    requires cur < |g.into| && Inv(g, goal, start, done, cur, |g.into[cur]|, via, arc, s)
    requires k + |done| >= |g.into|
    ensures var r := Run(g, goal, s, k);
      && cur' < |g.into| && Inv(g, goal, start, done', cur', |g.into[cur']|, via', arc', r)
      && r.heap == [] && done <= done' && Frozen(done, s, r)
    decreases k
  {
    hide Step, Ordered, Explained, Settled, FitsOk, InRange, Graph.ArcOk;
    done', cur', via', arc' := done, cur, via, arc;
    BoundedSet(done, |g.into|);
    if k == 0 {
      if s.heap != [] {
        PoppedQueue(g, goal, start, done, cur, s);
      }
    } else if s.heap != [] {
      via', arc' := StepInv(g, goal, start, done, cur, via, arc, s);
      done', cur', via', arc' :=
        RunInv(g, goal, start, done + {s.heap[0]}, s.heap[0], via', arc', Step(g, goal, s), k - 1);
    }
  }

  // ----- a sum that does not fit is not forgotten

  lemma {:induction false} ExpandFits(g: Graph, goal: nat, s: State, b: nat, i: nat)
    requires StateOk(g, goal, s) && b < |g.into| && i <= |g.into[b]| && s.times[b] != 0
    requires Expand(g, goal, s, b, i).fits
    ensures s.fits
    decreases |g.into[b]| - i
  {
    if i < |g.into[b]| {
      ExpandFits(g, goal, Relax(g, goal, s, b, i), b, i + 1);
    }
  }

  lemma {:induction false} RunFits(g: Graph, goal: nat, s: State, k: nat)
    requires StateOk(g, goal, s) && Run(g, goal, s, k).fits
    ensures s.fits
    decreases k
  {
    hide Expand, Pop;
    if k > 0 && s.heap != [] {
      RunFits(g, goal, Step(g, goal, s), k - 1);
      ExpandFits(g, goal, Popped(g, goal, s), s.heap[0], 0);
    }
  }

  /** The start time is the goal's, and nothing is faster. */
  ghost predicate StartsAt(goal: nat, start: nat, s: State) {
    && goal < |s.times| && s.times[goal] == start > 0
    && forall v | 0 <= v < |s.times| && s.times[v] != 0 :: s.times[v] >= start
  }

  lemma RelaxStart(g: Graph, goal: nat, start: nat, s: State, b: nat, i: nat)
    requires StateOk(g, goal, s) && g.IsArc(b, i) && s.times[b] != 0 && StartsAt(goal, start, s)
    ensures StartsAt(goal, start, Relax(g, goal, s, b, i))
    ensures Through(g, goal, s, b, i) >= start
  {
  }

  lemma {:induction false} ExpandStart(g: Graph, goal: nat, start: nat, s: State, b: nat, i: nat)
    requires StateOk(g, goal, s) && b < |g.into| && i <= |g.into[b]| && s.times[b] != 0 && StartsAt(goal, start, s)
    ensures StartsAt(goal, start, Expand(g, goal, s, b, i))
    decreases |g.into[b]| - i
  {
    if i < |g.into[b]| {
      RelaxStart(g, goal, start, s, b, i);
      ExpandStart(g, goal, start, Relax(g, goal, s, b, i), b, i + 1);
    }
  }

  // ----- what the search computes

  /** The goal has the start time, every other reached node has the time its stored arc offers,
      and no arc into a reached node offers its source a better one. */
  ghost predicate FixedPoint(g: Graph, goal: nat, start: nat, via: seq<nat>, arc: seq<nat>, r: State) {
    && StateOk(g, goal, r) && |via| == |arc| == |g.into|
    && r.times[goal] == start > 0
    && (forall x: nat {:trigger Uses(g, goal, r, x, via[x], arc[x])} | x < |g.into| && r.times[x] != 0 && x != goal ::
          Uses(g, goal, r, x, via[x], arc[x]))
    && (forall b: nat, i: nat | g.IsArc(b, i) && r.times[b] != 0 :: Relaxed(g, goal, r, b, i))
  }

  lemma InvIsFixedPoint(g: Graph, goal: nat, start: nat, done: set<nat>, cur: nat,
                        via: seq<nat>, arc: seq<nat>, r: State)
    requires start > 0 && cur < |g.into| && Inv(g, goal, start, done, cur, |g.into[cur]|, via, arc, r) && r.heap == []
    ensures FixedPoint(g, goal, start, via, arc, r)
    ensures forall x: nat | x < |g.into| :: r.times[x] != 0 <==> x in done
    ensures r.fits <==> start < 65536 && forall b: nat, i: nat | g.IsArc(b, i) && r.times[b] != 0 ::
      Through(g, goal, r, b, i) < 65536
  {
    hide Uses, Relaxed;
    forall x: nat | x < |g.into| && r.times[x] != 0 && x != goal ensures Uses(g, goal, r, x, via[x], arc[x]) {
    }
  }

  /** The main loop ends within |g.into| rounds, at a fixed point; no sum reached 65536 exactly when
      no time the fixed point offers does. */
  lemma SearchIsFixedPoint(g: Graph, goal: nat, start: nat) returns (via: seq<nat>, arc: seq<nat>)
    requires g.Valid() && goal < |g.into| && start > 0
    ensures var r := Search(g, goal, start);
      && r.heap == [] && FixedPoint(g, goal, start, via, arc, r)
      && (r.fits <==> start < 65536 && forall b: nat, i: nat | g.IsArc(b, i) && r.times[b] != 0 ::
        Through(g, goal, r, b, i) < 65536)
  {
    hide Step, Inv;
    var s := Start(g, goal, start);
    via, arc := FirstStepInv(g, goal, start);
    var done, cur;
    done, cur, via, arc := RunInv(g, goal, start, {goal}, goal, via, arc, Step(g, goal, s), |g.into| - 1);
    InvIsFixedPoint(g, goal, start, done, cur, via, arc, Search(g, goal, start));
  }

  /** Nodes in the order they leave the heap, with the time they leave it at. */
  function Pops(g: Graph, goal: nat, s: State, k: nat): seq<(nat, nat)>
    requires StateOk(g, goal, s)
    decreases k
  {
    if k == 0 || s.heap == [] then []
    else [(s.heap[0], s.times[s.heap[0]])] + Pops(g, goal, Step(g, goal, s), k - 1)
  }

  lemma {:induction false} PopsOrdered(g: Graph, goal: nat, start: nat, done: set<nat>, cur: nat,
                                       via: seq<nat>, arc: seq<nat>, s: State, k: nat)
    requires cur < |g.into| && Inv(g, goal, start, done, cur, |g.into[cur]|, via, arc, s)
    requires k + |done| >= |g.into|
    ensures PopsFrom(g, goal, done, s.times[cur], Pops(g, goal, s, k), Run(g, goal, s, k))
    decreases k
  {
    hide Step, Settled, Explained, FitsOk, Ordered, PopsFrom;
    if k > 0 && s.heap != [] {
      var b, t := s.heap[0], Step(g, goal, s);
      var via', arc' := StepInv(g, goal, start, done, cur, via, arc, s);
      PopsOrdered(g, goal, start, done + {b}, b, via', arc', t, k - 1);
      var r := RunKeeps(g, goal, start, done + {b}, b, via', arc', t, k - 1);
      PopsPrepend(g, goal, done, s.times[cur], b, t.times[b], Pops(g, goal, t, k - 1), r);
    } else {
      var _, _, _, _ := RunInv(g, goal, start, done, cur, via, arc, s, k);
      PopsNothing(g, goal, start, done, cur, via, arc, s);
    }
  }

  /** The last finished node keeps its time through the rest of the run. */
  lemma RunKeeps(g: Graph, goal: nat, start: nat, done: set<nat>, cur: nat,
                 via: seq<nat>, arc: seq<nat>, s: State, k: nat) returns (r: State)
    requires cur < |g.into| && Inv(g, goal, start, done, cur, |g.into[cur]|, via, arc, s)
    requires k + |done| >= |g.into|
    ensures r == Run(g, goal, s, k) && |r.times| == |g.into| == |s.times|
    ensures 0 < r.times[cur] == s.times[cur]
  {
    hide Step, Settled, Explained, FitsOk, Ordered;
    var _, _, _, _ := RunInv(g, goal, start, done, cur, via, arc, s, k);
    r := Run(g, goal, s, k);
  }

  lemma PopsNothing(g: Graph, goal: nat, start: nat, done: set<nat>, cur: nat, via: seq<nat>, arc: seq<nat>, s: State)
    requires cur < |g.into| && Inv(g, goal, start, done, cur, |g.into[cur]|, via, arc, s) && s.heap == []
    ensures PopsFrom(g, goal, done, s.times[cur], [], s)
  {
    hide Settled, Explained, FitsOk, Ordered;
  }

  /** p lists the nodes reached in r that are not in `done`, each once at its final time,
      in non-decreasing time from `least` on. */
  ghost predicate PopsFrom(g: Graph, goal: nat, done: set<nat>, least: nat, p: seq<(nat, nat)>, r: State) {
    && |r.times| == |g.into|
    && (forall i | 0 <= i < |p| ::
      p[i].0 < |g.into| && p[i].0 !in done && p[i].1 == r.times[p[i].0] && least <= p[i].1 && 0 < p[i].1)
    && (forall i, j | 0 <= i < j < |p| :: p[i].0 != p[j].0 && p[i].1 <= p[j].1)
    && (forall x: nat | x < |g.into| && r.times[x] != 0 && x !in done :: exists i :: 0 <= i < |p| && p[i].0 == x)
  }

  lemma PopsPrepend(g: Graph, goal: nat, done: set<nat>, least: nat, b: nat, t: nat, tail: seq<(nat, nat)>, r: State)
    requires PopsFrom(g, goal, done + {b}, t, tail, r)
    requires b < |g.into| && b !in done && 0 < t == r.times[b] && least <= t
    ensures PopsFrom(g, goal, done, least, [(b, t)] + tail, r)
  {
    var p := [(b, t)] + tail;
    forall x: nat | x < |g.into| && r.times[x] != 0 && x !in done ensures exists i :: 0 <= i < |p| && p[i].0 == x {
      if x == b {
        assert p[0].0 == x;
      } else {
        var i :| 0 <= i < |tail| && tail[i].0 == x;
        assert p[i + 1].0 == x;
      }
    }
  }

  /** Nodes leave the heap in non-decreasing time, each reached node exactly once and at its final time. */
  lemma PopsInOrder(g: Graph, goal: nat, start: nat)
    requires g.Valid() && goal < |g.into| && start > 0
    ensures var p := Pops(g, goal, Start(g, goal, start), |g.into|);
      |p| <= |g.into| && PopsFrom(g, goal, {}, start, p, Search(g, goal, start))
  {
    hide Step, Settled, Explained, FitsOk, StateOk, PopsFrom, Ordered;
    var s := Start(g, goal, start);
    var t := Step(g, goal, s);
    var via, arc := FirstStepInv(g, goal, start);
    PopsOrdered(g, goal, start, {goal}, goal, via, arc, t, |g.into| - 1);
    var _, _, _, _ := RunInv(g, goal, start, {goal}, goal, via, arc, t, |g.into| - 1);
    PopsLength(g, goal, s, |g.into|);
    assert {} + {goal} == {goal};
    PopsPrepend(g, goal, {}, start, goal, start, Pops(g, goal, t, |g.into| - 1), Search(g, goal, start));
  }

  lemma {:induction false} PopsLength(g: Graph, goal: nat, s: State, k: nat)
    requires StateOk(g, goal, s)
    ensures |Pops(g, goal, s, k)| <= k
    decreases k
  {
    hide Step;
    if k > 0 && s.heap != [] {
      PopsLength(g, goal, Step(g, goal, s), k - 1);
    }
  }

  // ----- routes

  /** A route to the goal: travel along arc i into node `to`, then go on. */
  datatype Route = Arrived | Hop(to: nat, i: nat, rest: Route)

  /** p leads from node x to the goal. */
  ghost predicate IsRoute(g: Graph, goal: nat, x: nat, p: Route)
    decreases p
  {
    match p
    case Arrived => x == goal
    case Hop(b, i, rest) => g.IsArc(b, i) && g.into[b][i].from == x && IsRoute(g, goal, b, rest)
  }

  /** Travel time of a route: each hop, and the crossing of each node it passes through
      from the entry it arrives by to the exit it leaves by. */
  ghost function Cost(g: Graph, goal: nat, x: nat, p: Route): nat
    requires g.Valid() && IsRoute(g, goal, x, p)
    decreases p
  {
    match p
    case Arrived => 0
    case Hop(b, i, rest) =>
      assert g.ArcOk(b, i);
      g.into[b][i].time + Cost(g, goal, b, rest) +
      match rest
      case Arrived => 0
      case Hop(c, j, _) => assert g.ArcOk(c, j); g.cross[b][g.into[c][j].exit][g.into[b][i].entry]
  }

  /** p leaves every node by its stored exit, and goes no further once at the goal. */
  ghost predicate Follows(g: Graph, goal: nat, r: State, x: nat, p: Route)
    decreases p
  {
    match p
    case Arrived => true
    case Hop(b, i, rest) =>
      && x != goal && x < |r.exit| && g.IsArc(b, i)
      && g.into[b][i].from == x && g.into[b][i].exit == r.exit[x]
      && Follows(g, goal, r, b, rest)
  }

  ghost function Entered(p: Route): set<nat> {
    match p
    case Arrived => {}
    case Hop(b, _, rest) => {b} + Entered(rest)
  }

  ghost predicate NoNodeTwice(x: nat, p: Route)
    decreases p
  {
    match p
    case Arrived => true
    case Hop(b, _, rest) => x !in Entered(p) && NoNodeTwice(b, rest)
  }

  /** q goes the way of p, as far as q goes. */
  ghost predicate PartOf(q: Route, p: Route) {
    q.Hop? ==> p.Hop? && q.to == p.to && q.i == p.i && PartOf(q.rest, p.rest)
  }

  /** Following stored exits from a reached node ends at the goal, passes no node twice,
      and costs exactly the node's time less the start time. */
  lemma FollowingReachesGoal(g: Graph, goal: nat, start: nat, x: nat) returns (p: Route)
    requires g.Valid() && goal < |g.into| && start > 0
    requires x < |g.into| && Search(g, goal, start).times[x] != 0
    ensures var r := Search(g, goal, start);
      && IsRoute(g, goal, x, p) && Follows(g, goal, r, x, p) && NoNodeTwice(x, p)
      && Cost(g, goal, x, p) + start == r.times[x]
  {
    hide Search, FixedPoint;
    var via, arc := SearchIsFixedPoint(g, goal, start);
    p := FollowFrom(g, goal, start, via, arc, Search(g, goal, start), x);
  }

  lemma {:induction false} FollowFrom(g: Graph, goal: nat, start: nat, via: seq<nat>, arc: seq<nat>, r: State, x: nat)
    returns (p: Route)
    requires FixedPoint(g, goal, start, via, arc, r) && x < |g.into| && r.times[x] != 0
    ensures IsRoute(g, goal, x, p) && Follows(g, goal, r, x, p) && NoNodeTwice(x, p)
    ensures forall y | y in Entered(p) :: y == goal || (y < |g.into| && r.times[y] < r.times[x])
    ensures x == goal <==> p.Arrived?
    ensures Cost(g, goal, x, p) + start == r.times[x]
    decreases if x == goal then 0 else 1, r.times[x]
  {
    if x == goal {
      p := Arrived;
    } else {
      assert Uses(g, goal, r, x, via[x], arc[x]);
      var q := FollowFrom(g, goal, start, via, arc, r, via[x]);
      p := Hop(via[x], arc[x], q);
    }
  }

  /** There is no other way to follow the stored exits: every such walk goes the way of the route p. */
  lemma {:induction false} FollowingIsUnique(g: Graph, goal: nat, r: State, x: nat, p: Route, q: Route)
    requires g.ExitsAreUnique()
    requires IsRoute(g, goal, x, p) && Follows(g, goal, r, x, p) && Follows(g, goal, r, x, q)
    ensures PartOf(q, p)
    decreases p
  {
    if q.Hop? {
      assert p.Hop?;
      assert g.IsArc(p.to, p.i) && g.IsArc(q.to, q.i);
      FollowingIsUnique(g, goal, r, p.to, p.rest, q.rest);
    }
  }

  lemma {:induction false} RoutesAreReached(g: Graph, goal: nat, start: nat, via: seq<nat>, arc: seq<nat>, r: State,
                                            x: nat, p: Route)
    requires FixedPoint(g, goal, start, via, arc, r) && IsRoute(g, goal, x, p)
    ensures x < |g.into| && r.times[x] != 0
    decreases p
  {
    if p.Hop? {
      RoutesAreReached(g, goal, start, via, arc, r, p.to, p.rest);
      assert Relaxed(g, goal, r, p.to, p.i);
    }
  }

  /** A node is reached exactly when some route leads from it to the goal. */
  lemma ReachedIffRoute(g: Graph, goal: nat, start: nat, x: nat)
    requires g.Valid() && goal < |g.into| && start > 0 && x < |g.into|
    ensures Search(g, goal, start).times[x] != 0 <==> exists p :: IsRoute(g, goal, x, p)
  {
    hide Search;
    var via, arc := SearchIsFixedPoint(g, goal, start);
    if Search(g, goal, start).times[x] != 0 {
      var p := FollowingReachesGoal(g, goal, start, x);
    }
    if p :| IsRoute(g, goal, x, p) {
      RoutesAreReached(g, goal, start, via, arc, Search(g, goal, start), x, p);
    }
  }

  ghost predicate SameCrossing(g: Graph, b: nat, i: nat, e1: nat, e2: nat)
    requires g.Valid() && g.IsArc(b, i) && e1 < |g.cross[b]| && e2 < |g.cross[b]|
  {
    assert g.ArcOk(b, i);
    g.cross[b][e1][g.into[b][i].entry] == g.cross[b][e2][g.into[b][i].entry]
  }

  /** Crossing a node takes the same time whatever exit is taken. */
  ghost predicate ExitIndependent(g: Graph)
    requires g.Valid()
  {
    forall b: nat, i: nat, e1: nat, e2: nat | g.IsArc(b, i) && e1 < |g.cross[b]| && e2 < |g.cross[b]| ::
      SameCrossing(g, b, i, e1, e2)
  }

  lemma {:induction false} NoRouteIsFaster(g: Graph, goal: nat, start: nat, via: seq<nat>, arc: seq<nat>, r: State,
                                           x: nat, p: Route)
    requires FixedPoint(g, goal, start, via, arc, r) && ExitIndependent(g) && IsRoute(g, goal, x, p)
    ensures x < |g.into| && 0 < r.times[x] <= r.times[goal] + Cost(g, goal, x, p)
    decreases p
  {
    if p.Hop? {
      NoRouteIsFaster(g, goal, start, via, arc, r, p.to, p.rest);
      assert Relaxed(g, goal, r, p.to, p.i) && g.ArcOk(p.to, p.i);
      if p.rest.Hop? {
        assert g.ArcOk(p.rest.to, p.rest.i);
        assert p.to != goal ==> SameCrossing(g, p.to, p.i, g.into[p.rest.to][p.rest.i].exit, r.exit[p.to]);
      }
    }
  }

  /** When crossing times do not depend on the exit, the times are those of the fastest routes. */
  lemma SearchIsFastest(g: Graph, goal: nat, start: nat, x: nat)
    requires g.Valid() && goal < |g.into| && start > 0 && ExitIndependent(g)
    requires x < |g.into| && Search(g, goal, start).times[x] != 0
    ensures var r := Search(g, goal, start);
      && (forall p | IsRoute(g, goal, x, p) :: r.times[x] <= start + Cost(g, goal, x, p))
      && (exists p :: IsRoute(g, goal, x, p) && r.times[x] == start + Cost(g, goal, x, p))
  {
    hide Search;
    var via, arc := SearchIsFixedPoint(g, goal, start);
    forall p | IsRoute(g, goal, x, p) ensures Search(g, goal, start).times[x] <= start + Cost(g, goal, x, p) {
      NoRouteIsFaster(g, goal, start, via, arc, Search(g, goal, start), x, p);
    }
    var p := FollowingReachesGoal(g, goal, start, x);
  }
}
