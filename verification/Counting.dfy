/** Sizes of finite sets of numbers. */
module Counting {

  ghost predicate Distinct<T>(s: seq<T>) {
    forall i, j | 0 <= i < j < |s| :: s[i] != s[j]
  }

  ghost function Elements<T>(s: seq<T>): set<T> {
    set i | 0 <= i < |s| :: s[i]
  }

  lemma ElementsAppend<T>(s: seq<T>, x: T)
    ensures Elements(s + [x]) == Elements(s) + {x}
    ensures Distinct(s) && x !in Elements(s) ==> Distinct(s + [x])
    ensures x in Elements(s) <==> x in s
  {
    var t := s + [x];
    assert t[|s|] == x && forall i | 0 <= i < |s| :: t[i] == s[i];
  }

  lemma {:induction false} DistinctSize<T>(s: seq<T>)
    requires Distinct(s)
    ensures |Elements(s)| == |s|
  {
    if s != [] {
      var k := |s| - 1;
      DistinctSize(s[..k]);
      assert Elements(s) == Elements(s[..k]) + {s[k]};
    }
  }

  /** A set of numbers below n has at most n of them, and n only if it has all. */
  lemma {:induction false} BoundedSet(a: set<nat>, n: nat)
    requires forall x | x in a :: x < n
    ensures |a| <= n && (|a| == n ==> forall x: nat | x < n :: x in a)
  {
    if n > 0 {
      BoundedSet(a - {n - 1}, n - 1);
      if n - 1 in a {
        assert |a| == |a - {n - 1}| + 1;
      } else {
        assert a == a - {n - 1};
      }
    }
  }

  /** Every element once, in the order in which they come first. */
  ghost function Firsts(s: seq<nat>): (r: seq<nat>)
    ensures Distinct(r) && forall x :: x in r <==> x in s
  {
    if s == [] then [] else
      var k := |s| - 1;
      assert s == s[..k] + [s[k]];
      if s[k] in s[..k] then Firsts(s[..k]) else Firsts(s[..k]) + [s[k]]
  }

  lemma FirstsMore(s: seq<nat>, x: nat)
    ensures Firsts(s) <= Firsts(s + [x])
  {
    assert (s + [x])[..|s|] == s;
  }

  lemma {:induction false} FirstsOfPart(s: seq<nat>, t: seq<nat>)
    ensures Firsts(s) <= Firsts(s + t)
  {
    hide Firsts;
    if t == [] {
      assert s + t == s;
    } else {
      var k := |t| - 1;
      assert s + t == (s + t[..k]) + [t[k]];
      FirstsOfPart(s, t[..k]);
      FirstsMore(s + t[..k], t[k]);
    }
  }

  lemma FirstsCount(s: seq<nat>)
    ensures Elements(Firsts(s)) == Elements(s) && |Firsts(s)| == |Elements(s)|
  {
    DistinctSize(Firsts(s));
    assert forall x :: x in Elements(s) <==> x in s;
    assert forall x :: x in Elements(Firsts(s)) <==> x in Firsts(s);
  }

  /** The numbers below n. */
  ghost function Range(n: nat): (r: set<nat>)
    ensures |r| == n && forall x: nat :: x in r <==> x < n
  {
    if n == 0 then {} else Range(n - 1) + {n - 1}
  }
}
