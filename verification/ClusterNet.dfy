/** Areas and the reachabilities between them as a graph with some areas marked as cluster portals. */
module ClusterNet {
  import opened AasFile

  /** portal: is the area marked as a cluster portal; reach: the areas its reachabilities lead to. */
  datatype Net = Net(portal: seq<bool>, reach: seq<seq<nat>>) {
    ghost predicate Valid() {
      && |portal| == |reach| > 0
      && forall a, j | 0 <= a < |reach| && 0 <= j < |reach[a]| :: reach[a][j] < |reach|
    }

    predicate IsArea(a: nat) { 0 < a < |portal| }

    /** An area that can be put in a cluster: it is no portal. */
    predicate Free(a: nat) { IsArea(a) && !portal[a] }

    ghost predicate Reaches(a: nat, b: nat)
      requires Valid()
    {
      IsArea(a) && IsArea(b) && b in reach[a]
    }

    ghost predicate Linked(a: nat, b: nat)
      requires Valid()
    {
      Reaches(a, b) || Reaches(b, a)
    }

    /** Free areas, each linked to the next by a reachability in either direction. */
    ghost predicate IsChain(p: seq<nat>)
      requires Valid()
    {
      && |p| > 0 && (forall i | 0 <= i < |p| :: Free(p[i]))
      && (forall i | 0 <= i < |p| - 1 :: Linked(p[i], p[i + 1]))
    }

    ghost predicate Joins(p: seq<nat>, a: nat, b: nat)
      requires Valid()
    {
      IsChain(p) && p[0] == a && p[|p| - 1] == b
    }

    ghost predicate Joined(a: nat, b: nat)
      requires Valid()
    {
      exists p :: Joins(p, a, b)
    }

    /** A free area that has reachabilities, or that a free area reaches. */
    ghost predicate Attached(a: nat)
      requires Valid()
    {
      Free(a) && (reach[a] != [] || exists y: nat :: Free(y) && Reaches(y, a))
    }

    lemma JoinedAttached(a: nat, b: nat)
      requires Valid() && Joined(a, b) && a != b
      ensures Attached(a)
    {
      var p :| Joins(p, a, b);
      assert Linked(p[0], p[0 + 1]);
    }

    lemma JoinedSelf(a: nat)
      requires Valid() && Free(a)
      ensures Joined(a, a)
    {
      assert Joins([a], a, a);
    }

    lemma JoinedNext(a: nat, b: nat, c: nat)
      requires Valid() && Joined(a, b) && Free(c) && Linked(b, c)
      ensures Joined(a, c)
    {
      var p :| Joins(p, a, b);
      assert Joins(p + [c], a, c);
    }

    lemma JoinedBack(a: nat, b: nat)
      requires Valid() && Joined(a, b)
      ensures Joined(b, a)
    {
      var p :| Joins(p, a, b);
      var q := seq(|p|, i requires 0 <= i < |p| => p[|p| - 1 - i]);
      forall i | 0 <= i < |q| - 1 ensures Linked(q[i], q[i + 1]) {
        assert Linked(p[|p| - 2 - i], p[|p| - 2 - i + 1]);
      }
      assert Joins(q, b, a);
    }

    lemma JoinedThrough(a: nat, b: nat, c: nat)
      requires Valid() && Joined(a, b) && Joined(b, c)
      ensures Joined(a, c)
    {
      var p :| Joins(p, a, b);
      var q :| Joins(q, b, c);
      var r := p + q[1..];
      forall i | 0 <= i < |r| - 1 ensures Linked(r[i], r[i + 1]) {
        if i < |p| - 1 {
          assert Linked(p[i], p[i + 1]);
        } else {
          assert Linked(q[i - |p| + 1], q[i - |p| + 2]);
        }
      }
      assert Joins(r, a, c);
    }
  }

  /** Do the settings of area a say what the graph says? */
  ghost predicate IsFit(net: Net, s: AreaSettings, reachability: seq<Reachability>, a: nat)
    requires net.Valid() && a < |net.portal|
  {
    && ((s.contents & AREACONTENTS_CLUSTERPORTAL != 0) == net.portal[a])
    && |net.reach[a]| == s.numreachableareas && s.firstreachablearea + s.numreachableareas <= |reachability|
    && forall j | 0 <= j < s.numreachableareas :: net.reach[a][j] == reachability[s.firstreachablearea + j].areanum
  }

  ghost predicate Fits(net: Net, settings: seq<AreaSettings>, reachability: seq<Reachability>) {
    && net.Valid() && |settings| == |net.portal|
    && forall a | 0 <= a < |settings| :: IsFit(net, settings[a], reachability, a)
  }

  /** Every reachability of an area exists and leads to an area or to area 0. */
  ghost predicate FileOk(settings: seq<AreaSettings>, reachability: seq<Reachability>) {
    && |settings| > 0
    && (forall a | 0 <= a < |settings| ::
      settings[a].firstreachablearea + settings[a].numreachableareas <= |reachability|)
    && (forall l | 0 <= l < |reachability| :: reachability[l].areanum < |settings|)
  }

  ghost function Targets(s: AreaSettings, reachability: seq<Reachability>): seq<nat>
    requires s.firstreachablearea + s.numreachableareas <= |reachability|
  {
    seq<nat>(s.numreachableareas,
      j requires 0 <= j < s.numreachableareas => reachability[s.firstreachablearea + j].areanum)
  }

  ghost function NetOf(settings: seq<AreaSettings>, reachability: seq<Reachability>): (net: Net)
    requires FileOk(settings, reachability)
    ensures Fits(net, settings, reachability)
  {
    Net(seq(|settings|, a requires 0 <= a < |settings| => settings[a].contents & AREACONTENTS_CLUSTERPORTAL != 0),
        seq(|settings|, a requires 0 <= a < |settings| => Targets(settings[a], reachability)))
  }
}
