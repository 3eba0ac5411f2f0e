/** The binary heap the area search queues on: heap slot `i` holds a node, ordered by `key[node]`.
    The functions below say what the sift loops compute, as swaps along one root path. */
module UpdateHeap {
  import opened Counting

  function Parent(i: nat): (p: nat)
    requires 0 < i
    ensures p < i
  {
    (i - 1) / 2
  }

  ghost predicate InRange(h: seq<nat>, n: nat) {
    forall i | 0 <= i < |h| :: h[i] < n
  }

  /** Heap order at slot i: its parent's key is no larger. */
  ghost predicate OrderedAt(h: seq<nat>, key: seq<nat>, i: nat)
    requires i < |h| && InRange(h, |key|)
  {
    i > 0 ==> key[h[Parent(i)]] <= key[h[i]]
  }

  ghost predicate Ordered(h: seq<nat>, key: seq<nat>)
    requires InRange(h, |key|)
  {
    forall i | 0 <= i < |h| :: OrderedAt(h, key, i)
  }

  /** Ordered but for slot p, whose key may be too small; p's children still fit below p's parent. */
  ghost predicate OrderedButUp(h: seq<nat>, key: seq<nat>, p: nat)
    requires p < |h| && InRange(h, |key|)
  {
    && (forall i | 0 <= i < |h| && i != p :: OrderedAt(h, key, i))
    && (forall i | 0 < i < |h| && Parent(i) == p && p > 0 :: key[h[Parent(p)]] <= key[h[i]])
  }

  /** Ordered but for the children of slot p, whose key may be too large. */
  ghost predicate OrderedButDown(h: seq<nat>, key: seq<nat>, p: nat)
    requires p < |h| && InRange(h, |key|)
  {
    && (forall i | 0 <= i < |h| && (i == 0 || Parent(i) != p) :: OrderedAt(h, key, i))
    && (forall i | 0 < i < |h| && Parent(i) == p && p > 0 :: key[h[Parent(p)]] <= key[h[i]])
  }

  function Swap(h: seq<nat>, i: nat, j: nat): (r: seq<nat>)
    requires i < |h| && j < |h|
    ensures |r| == |h| && r[i] == h[j] && r[j] == h[i]
    ensures forall k | 0 <= k < |h| && k != i && k != j :: r[k] == h[k]
    ensures forall n: nat | InRange(h, n) :: InRange(r, n)
  {
    h[i := h[j]][j := h[i]]
  }

  /** What the upward sift leaves in the heap. */
  function SiftUp(h: seq<nat>, key: seq<nat>, p: nat): (r: seq<nat>)
    requires p < |h| && InRange(h, |key|)
    ensures |r| == |h| && InRange(r, |key|)
    decreases p
  {
    if p == 0 || key[h[Parent(p)]] <= key[h[p]] then h
    else SiftUp(Swap(h, p, Parent(p)), key, Parent(p))
  }

  /** The child the downward sift compares with: the smaller one, the left one on a tie. */
  function Child(h: seq<nat>, key: seq<nat>, p: nat): (c: nat)
    requires 2 * p + 1 < |h| && InRange(h, |key|)
    ensures p < c < |h| && Parent(c) == p
  {
    if 2 * p + 2 < |h| && key[h[2 * p + 2]] < key[h[2 * p + 1]] then 2 * p + 2 else 2 * p + 1
  }

  /** What the downward sift leaves in the heap. */
  function SiftDown(h: seq<nat>, key: seq<nat>, p: nat): (r: seq<nat>)
    requires p < |h| && InRange(h, |key|)
    ensures |r| == |h| && InRange(r, |key|)
    decreases |h| - p
  {
    if 2 * p + 1 >= |h| then h
    else
      var c := Child(h, key, p);
      if key[h[p]] <= key[h[c]] then h else SiftDown(Swap(h, p, c), key, c)
  }

  /** One round of the downward sift. */
  lemma SiftDownRound(h: seq<nat>, key: seq<nat>, p: nat)
    requires p < |h| && InRange(h, |key|)
    ensures 2 * p + 1 >= |h| || key[h[p]] <= key[h[Child(h, key, p)]] ==> SiftDown(h, key, p) == h
    ensures 2 * p + 1 < |h| && key[h[p]] > key[h[Child(h, key, p)]] ==>
      SiftDown(h, key, p) == SiftDown(Swap(h, p, Child(h, key, p)), key, Child(h, key, p))
  {
  }

  // ----- both sifts keep the queued nodes

  lemma SwapContents(h: seq<nat>, i: nat, j: nat)
    requires i < |h| && j < |h|
    ensures Distinct(h) ==> Distinct(Swap(h, i, j))
    ensures forall x :: x in Swap(h, i, j) <==> x in h
  {
    var r := Swap(h, i, j);
    forall x | x in h ensures x in r {
      var k :| 0 <= k < |h| && h[k] == x;
      assert r[if k == i then j else if k == j then i else k] == x;
    }
    forall x | x in r ensures x in h {
      var k :| 0 <= k < |r| && r[k] == x;
      assert h[if k == i then j else if k == j then i else k] == x;
    }
  }

  lemma {:induction false} SiftUpContents(h: seq<nat>, key: seq<nat>, p: nat)
    requires p < |h| && InRange(h, |key|) && Distinct(h)
    ensures Distinct(SiftUp(h, key, p))
    ensures forall x :: x in SiftUp(h, key, p) <==> x in h
    decreases p
  {
    if p == 0 || key[h[Parent(p)]] <= key[h[p]] {
    } else {
      SwapContents(h, p, Parent(p));
      SiftUpContents(Swap(h, p, Parent(p)), key, Parent(p));
    }
  }

  lemma {:induction false} SiftDownContents(h: seq<nat>, key: seq<nat>, p: nat)
    requires p < |h| && InRange(h, |key|) && Distinct(h)
    ensures Distinct(SiftDown(h, key, p))
    ensures forall x :: x in SiftDown(h, key, p) <==> x in h
    decreases |h| - p
  {
    if 2 * p + 1 >= |h| {
    } else {
      var c := Child(h, key, p);
      if key[h[p]] <= key[h[c]] {
      } else {
        SwapContents(h, p, c);
        SiftDownContents(Swap(h, p, c), key, c);
      }
    }
  }

  // ----- both sifts restore heap order

  lemma {:induction false} SiftUpOrders(h: seq<nat>, key: seq<nat>, p: nat)
    requires p < |h| && InRange(h, |key|) && OrderedButUp(h, key, p)
    ensures Ordered(SiftUp(h, key, p), key)
    decreases p
  {
    if p == 0 || key[h[Parent(p)]] <= key[h[p]] {
      assert OrderedAt(h, key, p);
    } else {
      var q := Parent(p);
      var r := Swap(h, p, q);
      assert OrderedAt(h, key, q);
      forall i | 0 <= i < |r| && i != q ensures OrderedAt(r, key, i) {
        assert i != p ==> OrderedAt(h, key, i);
      }
      forall i | 0 < i < |r| && Parent(i) == q && q > 0 ensures key[r[Parent(q)]] <= key[r[i]] {
        assert i != p ==> OrderedAt(h, key, i);
      }
      SiftUpOrders(r, key, q);
    }
  }

  lemma {:induction false} SiftDownOrders(h: seq<nat>, key: seq<nat>, p: nat)
    requires p < |h| && InRange(h, |key|) && OrderedButDown(h, key, p)
    ensures Ordered(SiftDown(h, key, p), key)
    decreases |h| - p
  {
    SiftDownRound(h, key, p);
    hide SiftDown;
    if 2 * p + 1 >= |h| {
      assert forall i | 0 <= i < |h| :: i == 0 || Parent(i) != p;
    } else {
      var c := Child(h, key, p);
      if key[h[p]] <= key[h[c]] {
        ChildFits(h, key, p);
      } else {
        SwapWithChild(h, key, p);
        SiftDownOrders(Swap(h, p, c), key, c);
      }
    }
  }

  lemma ChildFits(h: seq<nat>, key: seq<nat>, p: nat)
    requires 2 * p + 1 < |h| && InRange(h, |key|) && OrderedButDown(h, key, p)
    requires key[h[p]] <= key[h[Child(h, key, p)]]
    ensures Ordered(h, key)
  {
    forall i | 0 <= i < |h| ensures OrderedAt(h, key, i) {
      if i > 0 && Parent(i) == p { assert i == 2 * p + 1 || i == 2 * p + 2; }
    }
  }

  lemma SwapWithChild(h: seq<nat>, key: seq<nat>, p: nat)
    requires 2 * p + 1 < |h| && InRange(h, |key|) && OrderedButDown(h, key, p)
    requires key[h[p]] > key[h[Child(h, key, p)]]
    ensures OrderedButDown(Swap(h, p, Child(h, key, p)), key, Child(h, key, p))
  {
    var c := Child(h, key, p);
    var r := Swap(h, p, c);
    forall i | 0 <= i < |r| && (i == 0 || Parent(i) != c) ensures OrderedAt(r, key, i) {
      if i > 0 && Parent(i) == p {
        assert i == 2 * p + 1 || i == 2 * p + 2;
      } else {
        assert OrderedAt(h, key, i);
      }
    }
    forall i | 0 < i < |r| && Parent(i) == c && c > 0 ensures key[r[Parent(c)]] <= key[r[i]] {
      assert OrderedAt(h, key, i);
    }
  }

  /** The root of an ordered heap has the smallest key. */
  lemma {:induction false} RootIsLeast(h: seq<nat>, key: seq<nat>, i: nat)
    requires i < |h| && InRange(h, |key|) && Ordered(h, key)
    ensures key[h[0]] <= key[h[i]]
    decreases i
  {
    if i > 0 {
      assert OrderedAt(h, key, i);
      RootIsLeast(h, key, Parent(i));
    }
  }

  // ----- queueing and popping on an ordered heap

  /** Slot of a queued node. */
  function IndexOf(h: seq<nat>, x: nat): (i: nat)
    requires x in h
    ensures i < |h| && h[i] == x
  {
    if h[0] == x then 0 else 1 + IndexOf(h[1..], x)
  }

  /** Queue x, or move it up after its key dropped. */
  function Raise(h: seq<nat>, key: seq<nat>, x: nat): (r: seq<nat>)
    requires x < |key| && InRange(h, |key|)
    ensures InRange(r, |key|) && |r| == if x in h then |h| else |h| + 1
  {
    if x in h then SiftUp(h, key, IndexOf(h, x)) else SiftUp(h + [x], key, |h|)
  }

  /** Drop the root: the last entry takes its slot and sinks. */
  function Pop(h: seq<nat>, key: seq<nat>): (r: seq<nat>)
    requires h != [] && InRange(h, |key|)
    ensures InRange(r, |key|) && |r| == |h| - 1
  {
    if |h| == 1 then [] else SiftDown(LastToRoot(h), key, 0)
  }

  lemma RaiseContents(h: seq<nat>, key: seq<nat>, x: nat)
    requires x < |key| && InRange(h, |key|) && Distinct(h)
    ensures Distinct(Raise(h, key, x)) && (forall y :: y in Raise(h, key, x) <==> y in h || y == x)
  {
    if x in h {
      SiftUpContents(h, key, IndexOf(h, x));
    } else {
      SiftUpContents(h + [x], key, |h|);
    }
  }

  lemma RaiseOrders(h: seq<nat>, old_key: seq<nat>, x: nat, t: nat)
    requires x < |old_key| && InRange(h, |old_key|) && Distinct(h) && Ordered(h, old_key)
    requires x in h ==> t <= old_key[x]
    ensures Ordered(Raise(h, old_key[x := t], x), old_key[x := t])
  {
    var key := old_key[x := t];
    var g := if x in h then h else h + [x];
    var p := if x in h then IndexOf(h, x) else |h|;
    assert Distinct(g) && g[p] == x;
    forall i | 0 <= i < |g| && i != p ensures OrderedAt(g, key, i) {
      assert OrderedAt(h, old_key, i);
      assert i > 0 ==> Parent(i) < |h|;
    }
    forall i | 0 < i < |g| && Parent(i) == p && p > 0 ensures key[g[Parent(p)]] <= key[g[i]] {
      assert OrderedAt(h, old_key, i) && OrderedAt(h, old_key, p);
    }
    SiftUpOrders(g, key, p);
  }

  /** The heap that the downward sift starts from after a pop. */
  function LastToRoot(h: seq<nat>): (r: seq<nat>)
    requires |h| > 1
    ensures |r| == |h| - 1
    ensures forall n: nat | InRange(h, n) :: InRange(r, n)
  {
    [h[|h| - 1]] + h[1..|h| - 1]
  }

  lemma PopContents(h: seq<nat>, key: seq<nat>)
    requires h != [] && InRange(h, |key|) && Distinct(h)
    ensures Distinct(Pop(h, key)) && (forall y :: y in Pop(h, key) <==> y in h && y != h[0])
  {
    if |h| > 1 {
      var g := LastToRoot(h);
      forall y ensures y in g <==> y in h && y != h[0] {
        if y in h && y != h[0] {
          var k :| 0 <= k < |h| && h[k] == y;
          assert g[if k == |h| - 1 then 0 else k] == y;
        }
      }
      SiftDownContents(g, key, 0);
    }
  }

  lemma PopOrders(h: seq<nat>, key: seq<nat>)
    requires h != [] && InRange(h, |key|) && Ordered(h, key)
    ensures Ordered(Pop(h, key), key)
  {
    if |h| > 1 {
      var g := LastToRoot(h);
      forall i | 0 <= i < |g| && (i == 0 || Parent(i) != 0) ensures OrderedAt(g, key, i) {
        assert OrderedAt(h, key, i);
      }
      SiftDownOrders(g, key, 0);
    }
  }

  // ----- the position table

  /** `pos` is the 1-based inverse of the heap, 0 for a node not queued. */
  ghost predicate Inverse(pos: seq<nat>, h: seq<nat>) {
    && (forall i | 0 <= i < |h| :: h[i] < |pos| && pos[h[i]] == i + 1)
    && (forall v | 0 <= v < |pos| && pos[v] != 0 :: pos[v] <= |h| && h[pos[v] - 1] == v)
  }

  lemma InverseGivesIndex(pos: seq<nat>, h: seq<nat>, x: nat)
    requires x < |pos| && Inverse(pos, h)
    ensures Distinct(h) && InRange(h, |pos|)
    ensures pos[x] != 0 <==> x in h
    ensures x in h ==> IndexOf(h, x) == pos[x] - 1
  {
    if x in h {
      var k :| 0 <= k < |h| && h[k] == x;
      assert pos[h[k]] == k + 1;
      assert h[IndexOf(h, x)] == x;
    }
  }

  lemma InverseSwap(pos: seq<nat>, h: seq<nat>, i: nat, j: nat)
    requires i < |h| && j < |h| && i != j && Inverse(pos, h)
    ensures Inverse(pos[h[i] := j + 1][h[j] := i + 1], Swap(h, i, j))
  {
    var r := Swap(h, i, j);
    var q := pos[h[i] := j + 1][h[j] := i + 1];
    assert h[i] != h[j];
    forall k | 0 <= k < |r| ensures r[k] < |q| && q[r[k]] == k + 1 {
      assert k != i && k != j ==> pos[h[k]] == k + 1;
    }
  }

  lemma InversePop(pos: seq<nat>, h: seq<nat>)
    requires Inverse(pos, h) && |h| > 1
    ensures Inverse(pos[h[0] := 0][h[|h| - 1] := 1], LastToRoot(h))
  {
    var r := LastToRoot(h);
    var last := h[|h| - 1];
    var q := pos[h[0] := 0][last := 1];
    assert pos[last] == |h| && pos[h[0]] == 1;
    forall i | 0 <= i < |r| ensures r[i] < |q| && q[r[i]] == i + 1 {
      if i > 0 {
        assert r[i] == h[i] && pos[h[i]] == i + 1;
      }
    }
    forall v | 0 <= v < |q| && q[v] != 0 ensures q[v] <= |r| && r[q[v] - 1] == v {
      if v != last {
        assert v != h[0] && pos[v] != 0 && h[pos[v] - 1] == v;
      }
    }
  }

  /** While a node is unqueued there is a free slot. */
  lemma InverseRoom(pos: seq<nat>, h: seq<nat>, x: nat)
    requires Inverse(pos, h) && x < |pos| && pos[x] == 0
    ensures |h| < |pos|
  {
    var queued := Elements(h);
    DistinctSize(h);
    BoundedSet(queued + {x}, |pos|);
    assert x !in queued;
  }
}
