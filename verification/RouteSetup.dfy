/** What is computed once from a loaded file before any route is searched: the reversed reachability index
    and the times for crossing areas. */
module RouteSetup {
  import opened AasFile
  import opened RouteWorld

  /** Reachabilities of an area that get a reversed link. */
  function Indexed(s: AreaSettings): nat {
    if s.numreachableareas < 128 then s.numreachableareas else 128
  }

  ghost predicate SliceOk(settings: seq<AreaSettings>, reachability: seq<Reachability>, a: nat)
    requires a < |settings|
  {
    && settings[a].firstreachablearea + settings[a].numreachableareas <= |reachability|
    && forall l | settings[a].firstreachablearea <= l < settings[a].firstreachablearea
      + settings[a].numreachableareas ::
         reachability[l].areanum < |settings|
  }

  /** Every area has its own slice of the reachabilities. */
  ghost predicate SlicesOk(settings: seq<AreaSettings>, reachability: seq<Reachability>) {
    && |settings| > 0
    && (forall a | 0 <= a < |settings| :: SliceOk(settings, reachability, a))
    && (forall a, b | 0 <= a < b < |settings| :: Apart(settings, a, b))
  }

  ghost predicate Apart(settings: seq<AreaSettings>, a: nat, b: nat)
    requires a < |settings| && b < |settings|
  {
    || settings[a].firstreachablearea + settings[a].numreachableareas <= settings[b].firstreachablearea
    || settings[b].firstreachablearea + settings[b].numreachableareas <= settings[a].firstreachablearea
  }

  /** The links into b from areas 1..a-1 and from the first n reachabilities of a, the latest first. */
  ghost function Links(settings: seq<AreaSettings>, reachability: seq<Reachability>, b: nat, a: nat,
                       n: nat): seq<ReversedLink>
    requires SlicesOk(settings, reachability) && 0 < a <= |settings|
    requires a < |settings| ==> n <= Indexed(settings[a])
    requires a == |settings| ==> n == 0
    decreases a, n
  {
    if n > 0 then
      assert SliceOk(settings, reachability, a);
      var l := settings[a].firstreachablearea + n - 1;
      (if reachability[l].areanum == b then [ReversedLink(l, a)] else []) + Links(settings, reachability, b, a, n - 1)
    else if a > 1 then Links(settings, reachability, b, a - 1, Indexed(settings[a - 1]))
    else []
  }

  /** Is link l of a among areas 1..a0-1 and the first n of a0? */
  ghost predicate Seen(settings: seq<AreaSettings>, a0: nat, n: nat, x: ReversedLink) {
    && 0 < x.areanum < |settings| && settings[x.areanum].firstreachablearea <= x.linknum
    && x.linknum - settings[x.areanum].firstreachablearea < Indexed(settings[x.areanum])
    && (x.areanum < a0 || (x.areanum == a0 && x.linknum - settings[a0].firstreachablearea < n))
  }

  /** Reachability n-1 of a is the last seen. */
  ghost predicate IsLast(settings: seq<AreaSettings>, a: nat, n: nat, x: ReversedLink)
    requires a < |settings| && n > 0
  {
    x == ReversedLink(settings[a].firstreachablearea + n - 1, a)
  }

  lemma SeenMore(settings: seq<AreaSettings>, a: nat, n: nat, x: ReversedLink)
    requires 0 < a < |settings| && 0 < n <= Indexed(settings[a])
    ensures Seen(settings, a, n, x) <==> Seen(settings, a, n - 1, x) || IsLast(settings, a, n, x)
  {
  }

  lemma SeenArea(settings: seq<AreaSettings>, a: nat, x: ReversedLink)
    requires 1 < a <= |settings|
    ensures Seen(settings, a, 0, x) <==> Seen(settings, a - 1, Indexed(settings[a - 1]), x)
  {
  }

  /** The list holds exactly the links into b. */
  lemma {:induction false} LinksAre(settings: seq<AreaSettings>, reachability: seq<Reachability>, b: nat, a: nat,
                                    n: nat, x: ReversedLink)
    requires SlicesOk(settings, reachability) && 0 < a <= |settings|
    requires a < |settings| ==> n <= Indexed(settings[a])
    requires a == |settings| ==> n == 0
    ensures x in Links(settings, reachability, b, a, n) <==>
      Seen(settings, a, n, x) && x.linknum < |reachability| && reachability[x.linknum].areanum == b
    decreases a, n
  {
    hide Seen, SlicesOk;
    SlicesExist(settings, reachability);
    if n > 0 {
      assert SliceOk(settings, reachability, a);
      LinksAre(settings, reachability, b, a, n - 1, x);
      SeenMore(settings, a, n, x);
    } else if a > 1 {
      LinksAre(settings, reachability, b, a - 1, Indexed(settings[a - 1]), x);
      SeenArea(settings, a, x);
    } else {
      NoneSeen(settings, x);
    }
  }

  lemma NoneSeen(settings: seq<AreaSettings>, x: ReversedLink)
    ensures !Seen(settings, 1, 0, x)
  {
  }

  /** The last reachability of a has not been seen before. */
  lemma LastIsNew(settings: seq<AreaSettings>, reachability: seq<Reachability>, a: nat, n: nat, x: ReversedLink)
    requires SlicesOk(settings, reachability) && 0 < a < |settings| && 0 < n <= Indexed(settings[a])
      && Seen(settings, a, n - 1, x)
    ensures x.linknum != settings[a].firstreachablearea + n - 1
  {
    if x.areanum < a {
      assert Apart(settings, x.areanum, a);
    }
  }

  /** No reachability is listed twice. */
  lemma {:induction false} LinksOnce(settings: seq<AreaSettings>, reachability: seq<Reachability>, b: nat, a: nat,
                                     n: nat, i: nat, j: nat)
    requires SlicesOk(settings, reachability) && 0 < a <= |settings|
    requires a < |settings| ==> n <= Indexed(settings[a])
    requires a == |settings| ==> n == 0
    requires i < j < |Links(settings, reachability, b, a, n)|
    ensures Links(settings, reachability, b, a, n)[i].linknum != Links(settings, reachability, b, a, n)[j].linknum
    decreases a, n
  {
    hide Seen, SlicesOk;
    SlicesExist(settings, reachability);
    var r := Links(settings, reachability, b, a, n);
    if n > 0 {
      assert SliceOk(settings, reachability, a);
      var l := settings[a].firstreachablearea + n - 1;
      var rest := Links(settings, reachability, b, a, n - 1);
      if reachability[l].areanum != b {
        assert r == rest;
        LinksOnce(settings, reachability, b, a, n - 1, i, j);
      } else if i > 0 {
        assert r == [ReversedLink(l, a)] + rest;
        LinksOnce(settings, reachability, b, a, n - 1, i - 1, j - 1);
      } else {
        assert r == [ReversedLink(l, a)] + rest;
        assert r[j] == rest[j - 1] && rest[j - 1] in rest;
        LinksAre(settings, reachability, b, a, n - 1, r[j]);
        LastIsNew(settings, reachability, a, n, r[j]);
      }
    } else if a > 1 {
      LinksOnce(settings, reachability, b, a - 1, Indexed(settings[a - 1]), i, j);
    }
  }

  /** The index: every area's list is that of the links into it, over all areas. */
  method CreateReversedReachability(settings: seq<AreaSettings>, reachability: seq<Reachability>)
    returns (reversed: seq<seq<ReversedLink>>)
    requires SlicesOk(settings, reachability)
    ensures |reversed| == |settings|
    ensures forall b | 0 <= b < |settings| :: reversed[b] == Links(settings, reachability, b, |settings|, 0)
  {
    hide SlicesOk;
    SlicesExist(settings, reachability);
    var first := new seq<ReversedLink>[|settings|](_ => []);
    for a := 1 to |settings|
      invariant forall b | 0 <= b < |settings| :: first[b] == Links(settings, reachability, b, a, 0)
    {
      var count := Indexed(settings[a]);
      var n := 0;
      while n < count
        invariant 0 <= n <= count
        invariant forall b | 0 <= b < |settings| :: first[b] == Links(settings, reachability, b, a, n)
      {
        assert SliceOk(settings, reachability, a);
        var linknum := settings[a].firstreachablearea + n;
        var b := reachability[linknum].areanum;
        first[b] := [ReversedLink(linknum, a)] + first[b];
        n := n + 1;
      }
    }
    reversed := first[..];
  }

  lemma SlicesExist(settings: seq<AreaSettings>, reachability: seq<Reachability>)
    requires SlicesOk(settings, reachability)
    ensures |settings| > 0 && forall a | 0 <= a < |settings| :: SliceOk(settings, reachability, a)
  {
  }

  // ----- times for crossing an area

  const DISTANCEFACTOR_CROUCH: real := 1.3
  const DISTANCEFACTOR_SWIM: real := 1.0
  const DISTANCEFACTOR_WALK: real := 0.33

  /** How an area is crossed. */
  datatype Gait = Crouch | Swim | Walk

  function Factor(g: Gait): real {
    match g
    case Crouch => DISTANCEFACTOR_CROUCH
    case Swim => DISTANCEFACTOR_SWIM
    case Walk => DISTANCEFACTOR_WALK
  }

  /** VectorLength, a parameter here: a square root. */
  ghost predicate IsLength(length: Vec3 -> real) {
    forall v: Vec3 :: length(v) >= 0.0 && length(v) * length(v) == v.x * v.x + v.y * v.y + v.z * v.z
  }

  function Minus(a: Vec3, b: Vec3): Vec3 { Vec3(a.x - b.x, a.y - b.y, a.z - b.z) }

  /** Without its fraction, at least 1, and then cut off to 16 bits. */
  function CutOff(d: real): nat {
    if d.Floor <= 0 then 1 else d.Floor % 65536
  }

  /** Time for crossing an area of this kind. */
  function AreaTravelTime(length: Vec3 -> real, g: Gait, start: Vec3, end: Vec3): nat {
    CutOff(length(Minus(start, end)) * Factor(g))
  }

  lemma CutOffFacts(d: real)
    requires d >= 0.0
    ensures CutOff(d) < 65536 && (CutOff(d) == 0 <==> d.Floor > 0 && d.Floor % 65536 == 0)
    ensures d < 65536.0 ==> CutOff(d) >= 1 && (d < 1.0 || CutOff(d) as real <= d < CutOff(d) as real + 1.0)
  {
    var i := d.Floor;
    assert i as real <= d < i as real + 1.0;
    if d < 65536.0 {
      assert i < 65536;
    }
  }

  /** A time is 0 exactly when the scaled distance is cut off from a positive multiple of 65536; below 65536 it is
      the scaled distance without its fraction, but at least 1. */
  lemma TravelTimeIsPositive(length: Vec3 -> real, g: Gait, start: Vec3, end: Vec3)
    requires IsLength(length)
    ensures var d := length(Minus(start, end)) * Factor(g); var t := AreaTravelTime(length, g, start, end);
      && t < 65536 && (t == 0 <==> d.Floor > 0 && d.Floor % 65536 == 0)
      && (d < 65536.0 ==> t >= 1 && (d < 1.0 || t as real <= d < t as real + 1.0))
  {
    assert length(Minus(start, end)) >= 0.0;
    Scaled(length(Minus(start, end)), g);
    CutOffFacts(length(Minus(start, end)) * Factor(g));
  }

  lemma Scaled(d: real, g: Gait)
    requires d >= 0.0
    ensures d * Factor(g) >= 0.0
  {
  }

  /** Entry n of row l of area i: from where link n into i arrives to where reachability l of i starts. */
  ghost predicate IsCrossing(settings: seq<AreaSettings>, reachability: seq<Reachability>,
                             reversed: seq<seq<ReversedLink>>,
                             gait: seq<Gait>, length: Vec3 -> real, i: nat, l: nat, n: nat, t: nat)
    requires |settings| == |reversed| == |gait| && i < |settings| && l < settings[i].numreachableareas
      && n < |reversed[i]|
  {
    && reversed[i][n].linknum < |reachability| && settings[i].firstreachablearea + l < |reachability|
    && t == AreaTravelTime(length, gait[i], reachability[reversed[i][n].linknum].end,
      reachability[settings[i].firstreachablearea + l].start)
  }

  /** d is the distance between two points, scaled. */
  ghost predicate IsScaledDistance(d: real, f: real, a: Vec3, b: Vec3) {
    d >= 0.0 && d * d == f * f * ((b.x - a.x) * (b.x - a.x) + (b.y - a.y) * (b.y - a.y) + (b.z - a.z) * (b.z - a.z))
  }

  lemma ScaledSquare(l: real, f: real, q: real)
    requires l * l == q
    ensures (l * f) * (l * f) == f * f * q
  {
    assert (l * f) * (l * f) == f * f * (l * l);
  }

  lemma SquareBack(x: real, y: real)
    ensures (x - y) * (x - y) == (y - x) * (y - x)
  {
  }

  /** What an entry amounts to: the distance from where the link arrives to where the reachability starts, times 1.3
      crouching, 1 swimming and 0.33 walking, without its fraction and in 16 bits; 1 if that distance is below 1. */
  lemma EntryIsDistance(settings: seq<AreaSettings>, reachability: seq<Reachability>,
                        reversed: seq<seq<ReversedLink>>, gait: seq<Gait>, length: Vec3 -> real,
                        i: nat, l: nat, n: nat, t: nat) returns (d: real)
    requires |settings| == |reversed| == |gait| && i < |settings| && l < settings[i].numreachableareas
    requires n < |reversed[i]| && IsLength(length)
    requires IsCrossing(settings, reachability, reversed, gait, length, i, l, n, t)
    ensures var m, k := reversed[i][n].linknum, settings[i].firstreachablearea + l;
      && m < |reachability| && k < |reachability|
      && IsScaledDistance(d, match gait[i] case Crouch => 1.3 case Swim => 1.0 case Walk => 0.33,
                          reachability[m].end, reachability[k].start)
    ensures t == if d < 1.0 then 1 else d.Floor % 65536
  {
    var a, b := reachability[reversed[i][n].linknum].end, reachability[settings[i].firstreachablearea + l].start;
    var v := Minus(a, b);
    d := length(v) * Factor(gait[i]);
    LengthIs(length, v);
    Scaled(length(v), gait[i]);
    ScaledSquare(length(v), Factor(gait[i]), v.x * v.x + v.y * v.y + v.z * v.z);
    SquareBack(a.x, b.x);
    SquareBack(a.y, b.y);
    SquareBack(a.z, b.z);
  }

  lemma LengthIs(length: Vec3 -> real, v: Vec3)
    requires IsLength(length)
    ensures length(v) >= 0.0 && length(v) * length(v) == v.x * v.x + v.y * v.y + v.z * v.z
  {
  }

  /** The first rows of area i, and the first m entries of the next. */
  ghost predicate RowsDone(settings: seq<AreaSettings>, reachability: seq<Reachability>,
                           reversed: seq<seq<ReversedLink>>,
                           gait: seq<Gait>, length: Vec3 -> real, i: nat, rows: seq<seq<nat>>)
    requires |settings| == |reversed| == |gait| && i < |settings|
  {
    && |rows| <= settings[i].numreachableareas
    && forall l, n | 0 <= l < |rows| && 0 <= n < |rows[l]| :: n < |reversed[i]| &&
         IsCrossing(settings, reachability, reversed, gait, length, i, l, n, rows[l][n])
  }

  /** All rows and all entries of area i. */
  ghost predicate TableDone(settings: seq<AreaSettings>, reachability: seq<Reachability>,
                            reversed: seq<seq<ReversedLink>>,
                            gait: seq<Gait>, length: Vec3 -> real, i: nat, rows: seq<seq<nat>>)
    requires |settings| == |reversed| == |gait| && i < |settings|
  {
    && RowsDone(settings, reachability, reversed, gait, length, i, rows) && |rows| == settings[i].numreachableareas
    && forall l | 0 <= l < |rows| :: |rows[l]| == |reversed[i]|
  }

  /** The times of one area: a row for each way out, an entry for each way in. */
  method AreaTravelTimes(settings: seq<AreaSettings>, reachability: seq<Reachability>, reversed: seq<seq<ReversedLink>>,
                         gait: seq<Gait>, length: Vec3 -> real, i: nat) returns (rows: seq<seq<nat>>)
    requires SlicesOk(settings, reachability) && |settings| == |reversed| == |gait| && i < |settings|
    requires forall n | 0 <= n < |reversed[i]| :: reversed[i][n].linknum < |reachability|
    ensures TableDone(settings, reachability, reversed, gait, length, i, rows)
  {
    hide IsLength, AreaTravelTime;
    SlicesExist(settings, reachability);
    assert SliceOk(settings, reachability, i);
    rows := [];
    var l := 0;
    while l < settings[i].numreachableareas
      invariant 0 <= l == |rows| <= settings[i].numreachableareas
      invariant RowsDone(settings, reachability, reversed, gait, length, i, rows)
      invariant forall k | 0 <= k < l :: |rows[k]| == |reversed[i]|
    {
      var row: seq<nat> := [];
      var n := 0;
      while n < |reversed[i]|
        invariant 0 <= n == |row| <= |reversed[i]|
        invariant forall m | 0 <= m < n :: IsCrossing(settings, reachability, reversed, gait, length, i, l, m, row[m])
      {
        var end := reachability[reversed[i][n].linknum].end;
        row := row + [AreaTravelTime(length, gait[i], end, reachability[settings[i].firstreachablearea + l].start)];
        n := n + 1;
      }
      rows := rows + [row];
      l := l + 1;
    }
  }

  method CalculateAreaTravelTimes(settings: seq<AreaSettings>, reachability: seq<Reachability>,
                                  reversed: seq<seq<ReversedLink>>,
                                  gait: seq<Gait>, length: Vec3 -> real) returns (areatraveltimes: seq<seq<seq<nat>>>)
    requires SlicesOk(settings, reachability) && |settings| == |reversed| == |gait|
    requires forall i, n | 0 <= i < |reversed| && 0 <= n < |reversed[i]| :: reversed[i][n].linknum < |reachability|
    ensures |areatraveltimes| == |settings|
    ensures forall i | 0 <= i < |settings| ::
      TableDone(settings, reachability, reversed, gait, length, i, areatraveltimes[i])
  {
    areatraveltimes := [];
    var i := 0;
    while i < |settings|
      invariant 0 <= i == |areatraveltimes| <= |settings|
      invariant forall k | 0 <= k < i ::
        TableDone(settings, reachability, reversed, gait, length, k, areatraveltimes[k])
    {
      var rows := AreaTravelTimes(settings, reachability, reversed, gait, length, i);
      areatraveltimes := areatraveltimes + [rows];
      i := i + 1;
    }
  }

  /** The greatest of the first entries of all rows, 0 if there is none. */
  ghost predicate IsLongest(rows: seq<seq<nat>>, numlinks: nat, maxt: nat) {
    && (forall l | 0 <= l < |rows| :: numlinks <= |rows[l]|)
    && (forall l, n | 0 <= l < |rows| && 0 <= n < numlinks :: rows[l][n] <= maxt)
    && (maxt == 0 || exists l, n :: 0 <= l < |rows| && 0 <= n < numlinks && rows[l][n] == maxt)
  }

  /** The longest time for crossing a portal's area; 0 if there is no way through it. */
  method PortalMaxTravelTime(rows: seq<seq<nat>>, numlinks: nat) returns (maxt: nat)
    requires forall l | 0 <= l < |rows| :: numlinks <= |rows[l]|
    ensures IsLongest(rows, numlinks, maxt)
  {
    maxt := 0;
    var l := 0;
    while l < |rows|
      invariant 0 <= l <= |rows|
      invariant forall k, n | 0 <= k < l && 0 <= n < numlinks :: rows[k][n] <= maxt
      invariant maxt == 0 || exists k, n :: 0 <= k < |rows| && 0 <= n < numlinks && rows[k][n] == maxt
    {
      var n := 0;
      while n < numlinks
        invariant 0 <= n <= numlinks
        invariant forall k, m | 0 <= k < l && 0 <= m < numlinks :: rows[k][m] <= maxt
        invariant forall m | 0 <= m < n :: rows[l][m] <= maxt
        invariant maxt == 0 || exists k, m :: 0 <= k < |rows| && 0 <= m < numlinks && rows[k][m] == maxt
      {
        if rows[l][n] > maxt {
          maxt := rows[l][n];
        }
        n := n + 1;
      }
      l := l + 1;
    }
  }

  // ----- what routing needs of it

  /** The world has the index and the tables computed here. */
  ghost predicate SetUp(w: World, gait: seq<Gait>, length: Vec3 -> real) {
    && SlicesOk(w.settings, w.reachability) && w.SizesOk() && |gait| == |w.settings| && IsLength(length)
    && (forall b | 0 <= b < |w.settings| :: w.reversed[b] == Links(w.settings, w.reachability, b, |w.settings|, 0))
    && (forall i | 0 <= i < |w.settings| ::
      TableDone(w.settings, w.reachability, w.reversed, gait, length, i, w.areatraveltimes[i]))
  }

  /** The reversed index is exactly what routing takes it for: every link a reachability, each once, none missing. */
  lemma SetUpLinks(w: World, gait: seq<Gait>, length: Vec3 -> real)
    requires SetUp(w, gait, length)
    ensures w.LinksOk()
    ensures forall a: nat, n: nat | w.IsArea(a) && n < w.settings[a].numreachableareas && n < 128 :: w.IsListed(a, n)
  {
    hide World.SizesOk, TableDone, SlicesOk, Links, IsLength;
    var s, r := w.settings, w.reachability;
    assert w.SizesOk() && |s| > 0 && |w.reversed| == |s| by { SetUpSizes(w, gait, length); }
    forall b: nat, i: nat | b < |s| && i < |w.reversed[b]| ensures w.LinkOk(b, i) {
      assert w.reversed[b][i] in w.reversed[b];
      LinksAre(s, r, b, |s|, 0, w.reversed[b][i]);
    }
    forall b: nat, i: nat, j: nat | b < |s| && i < j < |w.reversed[b]|
      ensures w.reversed[b][i].linknum != w.reversed[b][j].linknum
    {
      LinksOnce(s, r, b, |s|, 0, i, j);
    }
    forall a: nat, n: nat | w.IsArea(a) && n < s[a].numreachableareas && n < 128 ensures w.IsListed(a, n) {
      SetUpListed(w, gait, length, a, n);
    }
  }

  lemma SetUpSizes(w: World, gait: seq<Gait>, length: Vec3 -> real)
    requires SetUp(w, gait, length)
    ensures w.SizesOk() && |w.settings| > 0 && |w.reversed| == |w.settings|
  {
    hide TableDone, Links, IsLength;
  }

  lemma SetUpListed(w: World, gait: seq<Gait>, length: Vec3 -> real, a: nat, n: nat)
    requires SetUp(w, gait, length) && w.IsArea(a) && n < w.settings[a].numreachableareas && n < 128
    ensures w.IsListed(a, n)
  {
    hide World.SizesOk, TableDone, Links, IsLength;
    var s, r := w.settings, w.reachability;
    SetUpSizes(w, gait, length);
    SlicesExist(s, r);
    assert SliceOk(s, r, a);
    var l := s[a].firstreachablearea + n;
    LinksAre(s, r, r[l].areanum, |s|, 0, ReversedLink(l, a));
  }

  /** The tables have an entry for every way through an area, none of them 0 unless cut off to 16 bits. */
  lemma SetUpCrossings(w: World, gait: seq<Gait>, length: Vec3 -> real, b: nat)
    requires SetUp(w, gait, length) && b < |w.settings| && b < |w.areatraveltimes|
    ensures w.SizesOk() && |w.areatraveltimes[b]| == w.settings[b].numreachableareas
    ensures w.CrossingsOk(b) <==>
      forall e, i | 0 <= e < |w.areatraveltimes[b]| && 0 <= i < |w.areatraveltimes[b][e]| ::
        w.areatraveltimes[b][e][i] != 0
  {
    hide World.SizesOk, SlicesOk, Links, IsLength;
    SetUpSizes(w, gait, length);
    assert TableDone(w.settings, w.reachability, w.reversed, gait, length, b, w.areatraveltimes[b]);
  }
}
