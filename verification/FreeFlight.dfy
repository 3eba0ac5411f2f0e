/** Flying freely, and the speed needed for a jump. */
module FreeFlight {
  import opened AasFile

  function Plus(a: Vec3, b: Vec3): Vec3 { Vec3(a.x + b.x, a.y + b.y, a.z + b.z) }

  function Scale(a: Vec3, s: real): Vec3 { Vec3(a.x * s, a.y * s, a.z * s) }

  function FrameTime(frametime: real): real { if frametime <= 0.0 then 0.1 else frametime }

  /** Half a frame's gravity, as the distance it makes in a frame. */
  function HalfGravity(gravity: real, frametime: real): real { 0.5 * gravity * frametime * frametime }

  /** Where a body thrown from p with velocity v is after time t. */
  function Parabola(p: Vec3, v: Vec3, gravity: real, t: real): Vec3 {
    Vec3(p.x + v.x * t, p.y + v.y * t, p.z + v.z * t - gravity * t * t / 2.0)
  }

  /** A little above the ground, where prediction starts. */
  function Lifted(origin: Vec3): Vec3 { Vec3(origin.x, origin.y, origin.z + 0.25) }

  /** Thrown with this velocity from 0.25 above origin, a body is at p after n times dt, and makes v in the next dt. */
  ghost predicate IsThrown(origin: Vec3, velocity: Vec3, gravity: real, dt: real, n: real, p: Vec3, v: Vec3) {
    var t := n * dt;
    && p.x == origin.x + velocity.x * t && p.y == origin.y + velocity.y * t
    && p.z == origin.z + 0.25 + velocity.z * t - gravity * t * t / 2.0
    && v.x == velocity.x * dt && v.y == velocity.y * dt && v.z == (velocity.z - gravity * t) * dt
  }

  /** The frames of a prediction in which nothing is touched: no ground, no water, no command, no collision.
      Velocities are distances per frame; half of gravity comes before the move, half after it. */
  method Predict(origin: Vec3, velocity: Vec3, gravity: real, frametime: real, maxframes: nat)
    returns (org: Vec3, carried: Vec3)
    ensures var dt := if frametime <= 0.0 then 0.1 else frametime;
      IsThrown(origin, velocity, gravity, dt, maxframes as real, org, carried)
  {
    hide IsThrown, Lifted, Scale, HalfGravity, FrameTime, After, Slowed, Plus;
    var dt := FrameTime(frametime);
    org := Lifted(origin);
    var vel := Scale(velocity, dt);
    var halfgrav := HalfGravity(gravity, dt);
    var n := 0;
    StartsThere(Lifted(origin), vel, halfgrav);
    while n < maxframes
      invariant 0 <= n <= maxframes
      invariant org == After(Lifted(origin), Scale(velocity, dt), halfgrav, n as real)
      invariant vel == Slowed(Scale(velocity, dt), halfgrav, n as real)
    {
      NextFrame(Lifted(origin), Scale(velocity, dt), halfgrav, n as real);
      vel := Vec3(vel.x, vel.y, vel.z - halfgrav);
      org := Plus(org, vel);
      vel := Vec3(vel.x, vel.y, vel.z - halfgrav);
      n := n + 1;
    }
    carried := vel;
    ThrownAfter(origin, velocity, gravity, frametime, n as real);
  }

  lemma ThrownAfter(origin: Vec3, velocity: Vec3, gravity: real, frametime: real, n: real)
    ensures var dt, t := FrameTime(frametime), if frametime <= 0.0 then 0.1 else frametime;
      t == dt && IsThrown(origin, velocity, gravity, t, n,
                          After(Lifted(origin), Scale(velocity, dt), HalfGravity(gravity, dt), n),
                          Slowed(Scale(velocity, dt), HalfGravity(gravity, dt), n))
  {
    hide After, Slowed, HalfGravity;
    FramesAreTime(Lifted(origin), velocity, gravity, FrameTime(frametime), n);
  }

  /** After n frames, in terms of frames. */
  function After(p: Vec3, v: Vec3, halfgrav: real, n: real): Vec3 {
    Vec3(p.x + v.x * n, p.y + v.y * n, p.z + v.z * n - halfgrav * (n * n))
  }

  function Slowed(v: Vec3, halfgrav: real, n: real): Vec3 {
    Vec3(v.x, v.y, v.z - 2.0 * (halfgrav * n))
  }

  lemma StartsThere(p: Vec3, v: Vec3, halfgrav: real)
    ensures After(p, v, halfgrav, 0.0) == p && Slowed(v, halfgrav, 0.0) == v
  {
  }

  lemma NextFrame(p: Vec3, v: Vec3, halfgrav: real, n: real)
    ensures var v0 := Slowed(v, halfgrav, n);
      var mid := Vec3(v0.x, v0.y, v0.z - halfgrav);
      && Plus(After(p, v, halfgrav, n), mid) == After(p, v, halfgrav, n + 1.0)
      && Vec3(mid.x, mid.y, mid.z - halfgrav) == Slowed(v, halfgrav, n + 1.0)
  {
    assert halfgrav * ((n + 1.0) * (n + 1.0)) == halfgrav * (n * n) + 2.0 * (halfgrav * n) + halfgrav;
    assert v.x * (n + 1.0) == v.x * n + v.x && v.y * (n + 1.0) == v.y * n + v.y && v.z * (n + 1.0) == v.z * n + v.z;
    assert halfgrav * (n + 1.0) == halfgrav * n + halfgrav;
  }

  lemma FramesAreTime(p: Vec3, v: Vec3, gravity: real, dt: real, n: real)
    ensures After(p, Scale(v, dt), HalfGravity(gravity, dt), n) == Parabola(p, v, gravity, n * dt)
    ensures Slowed(Scale(v, dt), HalfGravity(gravity, dt), n) == Scale(Vec3(v.x, v.y, v.z - gravity * (n * dt)), dt)
  {
    hide HalfGravity;
    Regroup(v.x, dt, n);
    Regroup(v.y, dt, n);
    Regroup(v.z, dt, n);
    Gravities(gravity, dt, n);
    SlowedBy(v.z, gravity * (n * dt), dt);
  }

  lemma SlowedBy(v: real, w: real, dt: real)
    ensures (v - w) * dt == v * dt - w * dt
  {
  }

  lemma Regroup(v: real, dt: real, n: real)
    ensures v * dt * n == v * (n * dt)
  {
  }

  lemma Gravities(gravity: real, dt: real, n: real)
    ensures HalfGravity(gravity, dt) * (n * n) == gravity * (n * dt) * (n * dt) / 2.0
    ensures 2.0 * (HalfGravity(gravity, dt) * n) == gravity * (n * dt) * dt
  {
    assert 0.5 * gravity * dt * dt * (n * n) == 0.5 * (gravity * (n * dt) * (n * dt));
  }

  // ----- jumps

  /** sqrt, a parameter here. */
  ghost predicate IsRoot(root: real -> real) {
    forall x: real {:trigger root(x)} :: x >= 0.0 ==> root(x) >= 0.0 && root(x) * root(x) == x
  }

  /** A body thrown upwards from start with zvel is at the height of end after time t. */
  ghost predicate AtHeight(zvel: real, gravity: real, start: Vec3, end: Vec3, t: real) {
    start.z + zvel * t - gravity * t * t / 2.0 == end.z
  }

  function SumOfSquares(x: real, y: real): real { x * x + y * y }

  function Square(x: real): real { x * x }

  /** Thrown at this horizontal speed, and upwards with zvel, a body is at end after time t. */
  ghost predicate Arrives(zvel: real, gravity: real, start: Vec3, end: Vec3, speed: real, t: real) {
    Square(speed * t) == SumOfSquares(end.x - start.x, end.y - start.y) && AtHeight(zvel, gravity, start, end, t)
  }

  /** It can be made: at a speed up to the greatest, coming down. */
  ghost predicate CanJump(zvel: real, gravity: real, maxvelocity: real, start: Vec3, end: Vec3) {
    exists speed: real, t: real ::
      0.0 <= speed <= maxvelocity && t > 0.0 && t * gravity >= zvel && Arrives(zvel, gravity, start, end, speed, t)
  }

  function MaxJump(zvel: real, gravity: real): real
    requires gravity > 0.0
  {
    0.5 * gravity * (zvel / gravity) * (zvel / gravity)
  }

  /** Time from the start to the top. */
  function TopTime(zvel: real, gravity: real): real
    requires gravity > 0.0
  {
    zvel / gravity
  }

  lemma TopTimeIs(zvel: real, gravity: real)
    requires gravity > 0.0
    ensures gravity * TopTime(zvel, gravity) == zvel && (zvel >= 0.0 ==> TopTime(zvel, gravity) >= 0.0)
    ensures MaxJump(zvel, gravity) == 0.5 * gravity * TopTime(zvel, gravity) * TopTime(zvel, gravity)
  {
  }

  lemma FromTheTop(g: real, u: real, t: real)
    ensures g * u * t - g * t * t / 2.0 == 0.5 * g * u * u - 0.5 * g * ((t - u) * (t - u))
  {
  }

  /** The height to fall from the top is what is fallen in the time since. */
  lemma Heights(zvel: real, gravity: real, start: Vec3, end: Vec3, t: real)
    requires gravity > 0.0
    ensures var s := t - TopTime(zvel, gravity);
      AtHeight(zvel, gravity, start, end, t) <==> start.z + MaxJump(zvel, gravity) - end.z == 0.5 * gravity * (s * s)
  {
    hide TopTime, MaxJump;
    TopTimeIs(zvel, gravity);
    FromTheTop(gravity, TopTime(zvel, gravity), t);
  }

  lemma Positive(g: real, s: real)
    requires g > 0.0
    ensures s * s >= 0.0 && 0.5 * g * (s * s) >= 0.0
  {
    if s >= 0.0 { assert s * s >= 0.0; } else { assert (-s) * (-s) >= 0.0; }
    Nonnegative(0.5 * g, s * s);
  }

  lemma Nonnegative(x: real, y: real)
    requires x >= 0.0 && y >= 0.0
    ensures x * y >= 0.0
  {
  }

  lemma TooHigh(zvel: real, gravity: real, maxvelocity: real, start: Vec3, end: Vec3)
    requires gravity > 0.0 && start.z + MaxJump(zvel, gravity) - end.z < 0.0
    ensures !CanJump(zvel, gravity, maxvelocity, start, end)
  {
    hide MaxJump, TopTime, AtHeight;
    forall t: real ensures !AtHeight(zvel, gravity, start, end, t) {
      Heights(zvel, gravity, start, end, t);
      Positive(gravity, t - TopTime(zvel, gravity));
    }
  }

  lemma RootIs(root: real -> real, x: real, height: real, gravity: real)
    requires IsRoot(root) && gravity > 0.0 && height >= 0.0 && x == height / (0.5 * gravity)
    ensures x >= 0.0 && root(x) >= 0.0 && 0.5 * gravity * (root(x) * root(x)) == height
  {
    assert x * (0.5 * gravity) == height;
    if x < 0.0 {
      Negative(-x, 0.5 * gravity);
    }
  }

  lemma Negative(x: real, y: real)
    requires x > 0.0 && y > 0.0
    ensures x * y > 0.0 && (-x) * y < 0.0
  {
  }

  lemma SquaresEqual(a: real, b: real)
    requires a >= 0.0 && b >= 0.0 && a * a == b * b
    ensures a == b
  {
    assert (a - b) * (a + b) == 0.0 && (b - a) * (a + b) == 0.0;
    if a > b {
      Negative(a - b, a + b);
    }
    if b > a {
      Negative(b - a, a + b);
    }
  }

  lemma Divided(g: real, x: real, y: real)
    requires g > 0.0 && 0.5 * g * x == 0.5 * g * y
    ensures x == y
  {
  }

  lemma Later(gravity: real, u: real, t: real)
    requires gravity > 0.0
    ensures t * gravity >= gravity * u <==> t >= u
  {
    if t >= u {
      Nonnegative(t - u, gravity);
      assert (t - u) * gravity == t * gravity - gravity * u;
    } else {
      Negative(u - t, gravity);
      assert (u - t) * gravity == gravity * u - t * gravity;
    }
  }

  /** The time of the jump: coming down it is at the height of the end then, and at no other time. */
  lemma FallTime(zvel: real, gravity: real, start: Vec3, end: Vec3, t: real, other: real)
    requires gravity > 0.0 && t >= 0.0 && 0.5 * gravity * (t * t) == start.z + MaxJump(zvel, gravity) - end.z
    ensures var time := t + TopTime(zvel, gravity);
      && AtHeight(zvel, gravity, start, end, time) && time * gravity >= zvel && (zvel >= 0.0 ==> time >= 0.0)
      && (other * gravity >= zvel && AtHeight(zvel, gravity, start, end, other) ==> other == time)
  {
    hide MaxJump, TopTime, AtHeight;
    var u := TopTime(zvel, gravity);
    TopTimeIs(zvel, gravity);
    Heights(zvel, gravity, start, end, t + u);
    Heights(zvel, gravity, start, end, other);
    Later(gravity, u, t + u);
    Later(gravity, u, other);
    if other * gravity >= zvel && AtHeight(zvel, gravity, start, end, other) {
      Divided(gravity, (other - u) * (other - u), t * t);
      SquaresEqual(other - u, t);
    }
  }

  lemma DistanceIs(root: real -> real, x: real, y: real)
    requires IsRoot(root)
    ensures var d := root(SumOfSquares(x, y)); d >= 0.0 && Square(d) == SumOfSquares(x, y)
  {
    Positive(1.0, x);
    Positive(1.0, y);
  }

  lemma SpeedIs(distance: real, time: real)
    requires distance >= 0.0 && time > 0.0
    ensures distance / time >= 0.0 && (distance / time) * time == distance
      && Square((distance / time) * time) == Square(distance)
  {
  }

  lemma OneSpeed(speed: real, other: real, time: real)
    requires time > 0.0 && speed >= 0.0 && other >= 0.0 && Square(speed * time) == Square(other * time)
    ensures speed == other
  {
    Nonnegative(speed, time);
    Nonnegative(other, time);
    SquaresEqual(speed * time, other * time);
    assert (speed - other) * time == 0.0;
  }

  /** The speed that takes the bot there in that time is the only one that does. */
  lemma Speed(zvel: real, gravity: real, maxvelocity: real, start: Vec3, end: Vec3, t: real, distance: real)
    requires gravity > 0.0 && t >= 0.0 && 0.5 * gravity * (t * t) == start.z + MaxJump(zvel, gravity) - end.z
    requires t + TopTime(zvel, gravity) > 0.0 && distance >= 0.0
    requires Square(distance) == SumOfSquares(end.x - start.x, end.y - start.y)
    ensures var time := t + TopTime(zvel, gravity);
      && distance / time >= 0.0 && Arrives(zvel, gravity, start, end, distance / time, time)
      && (distance / time <= maxvelocity <==> CanJump(zvel, gravity, maxvelocity, start, end))
  {
    hide MaxJump, TopTime, AtHeight, Square, SumOfSquares, Arrives;
    var time := t + TopTime(zvel, gravity);
    FallTime(zvel, gravity, start, end, t, time);
    SpeedArrives(zvel, gravity, start, end, time, distance);
    if CanJump(zvel, gravity, maxvelocity, start, end) {
      var v: real, s: real :|
        0.0 <= v <= maxvelocity && s > 0.0 && s * gravity >= zvel && Arrives(zvel, gravity, start, end, v, s);
      ArrivesAtHeight(zvel, gravity, start, end, v, s);
      FallTime(zvel, gravity, start, end, t, s);
      OnlySpeed(zvel, gravity, start, end, time, distance, v);
    }
  }

  lemma ArrivesAtHeight(zvel: real, gravity: real, start: Vec3, end: Vec3, speed: real, t: real)
    requires Arrives(zvel, gravity, start, end, speed, t)
    ensures AtHeight(zvel, gravity, start, end, t)
  {
  }

  lemma SpeedArrives(zvel: real, gravity: real, start: Vec3, end: Vec3, time: real, distance: real)
    requires time > 0.0 && distance >= 0.0 && AtHeight(zvel, gravity, start, end, time)
    requires Square(distance) == SumOfSquares(end.x - start.x, end.y - start.y)
    ensures distance / time >= 0.0 && Arrives(zvel, gravity, start, end, distance / time, time)
  {
    hide AtHeight, Square, SumOfSquares;
    SpeedIs(distance, time);
  }

  lemma OnlySpeed(zvel: real, gravity: real, start: Vec3, end: Vec3, time: real, distance: real, v: real)
    requires time > 0.0 && distance >= 0.0 && v >= 0.0 && Arrives(zvel, gravity, start, end, v, time)
    requires Square(distance) == SumOfSquares(end.x - start.x, end.y - start.y)
    ensures v == distance / time
  {
    hide AtHeight, Square, SumOfSquares;
    SpeedIs(distance, time);
    OneSpeed(distance / time, v, time);
  }

  lemma SquaresOrdered(a: real, b: real)
    requires a >= 0.0 && b >= 0.0
    ensures a < b <==> a * a < b * b
  {
    if a < b {
      Negative(b - a, a + b);
      assert (b - a) * (a + b) == b * b - a * a;
    } else {
      Nonnegative(a - b, a + b);
      assert (a - b) * (a + b) == a * a - b * b;
    }
  }

  lemma Scaled(g: real, x: real)
    requires g > 0.0
    ensures x < 0.0 <==> 0.5 * g * x < 0.0
  {
    if x < 0.0 {
      Negative(-x, g);
    } else {
      Nonnegative(0.5 * g, x);
    }
  }

  /** The time comes out negative exactly for a start downwards to an end above. */
  lemma TimeSign(zvel: real, gravity: real, start: Vec3, end: Vec3, t: real)
    requires gravity > 0.0 && t >= 0.0 && 0.5 * gravity * (t * t) == start.z + MaxJump(zvel, gravity) - end.z
    ensures t + TopTime(zvel, gravity) < 0.0 <==> zvel < 0.0 && end.z > start.z
  {
    hide MaxJump, TopTime;
    var u := TopTime(zvel, gravity);
    TopTimeIs(zvel, gravity);
    TopTimeSign(zvel, gravity);
    if u < 0.0 {
      SquaresOrdered(t, -u);
      Scaled(gravity, t * t - u * u);
      assert (-u) * (-u) == u * u;
      assert 0.5 * gravity * (t * t - u * u) == 0.5 * gravity * (t * t) - 0.5 * gravity * u * u;
    }
  }

  lemma TopTimeSign(zvel: real, gravity: real)
    requires gravity > 0.0
    ensures TopTime(zvel, gravity) < 0.0 <==> zvel < 0.0
  {
    hide TopTime;
    TopTimeIs(zvel, gravity);
    var u := TopTime(zvel, gravity);
    if u >= 0.0 {
      Nonnegative(gravity, u);
    } else {
      Negative(-u, gravity);
    }
  }

  lemma BeforeStart(zvel: real, gravity: real, maxvelocity: real, start: Vec3, end: Vec3, t: real)
    requires gravity > 0.0 && t >= 0.0 && 0.5 * gravity * (t * t) == start.z + MaxJump(zvel, gravity) - end.z
    requires t + TopTime(zvel, gravity) <= 0.0
    ensures !CanJump(zvel, gravity, maxvelocity, start, end)
  {
    hide MaxJump, TopTime, AtHeight;
    if CanJump(zvel, gravity, maxvelocity, start, end) {
      var speed: real, time: real :|
        0.0 <= speed <= maxvelocity && time > 0.0 && time * gravity >= zvel
          && Arrives(zvel, gravity, start, end, speed, time);
      FallTime(zvel, gravity, start, end, t, time);
    }
  }

  lemma Backwards(distance: real, time: real)
    requires distance >= 0.0 && time < 0.0
    ensures distance / time <= 0.0
  {
    var v := distance / time;
    assert v * time == distance && v * (-time) == -(v * time);
    if v > 0.0 {
      Negative(v, -time);
    }
  }

  /** Upwards by a start downwards: the formula has a solution, but before the start. */
  predicate Misjudged(zvel: real, gravity: real, start: Vec3, end: Vec3)
    requires gravity > 0.0
  {
    zvel < 0.0 && start.z < end.z <= start.z + MaxJump(zvel, gravity)
  }

  /** The horizontal speed for a jump from start to end, with the time it takes; the greatest speed if it cannot be
      made. Only an end above a start downwards is misjudged, as one to be reached, with a speed that is not
      positive. */
  method HorizontalVelocityForJump(zvel: real, start: Vec3, end: Vec3, gravity: real, maxvelocity: real,
                                   root: real -> real)
    returns (ok: bool, velocity: real, ghost time: real)
    requires gravity > 0.0 && IsRoot(root)
    ensures !Misjudged(zvel, gravity, start, end) ==> (ok <==> CanJump(zvel, gravity, maxvelocity, start, end))
    ensures !Misjudged(zvel, gravity, start, end) && ok ==>
      0.0 <= velocity <= maxvelocity && time > 0.0 && Arrives(zvel, gravity, start, end, velocity, time)
    ensures Misjudged(zvel, gravity, start, end) ==>
      !CanJump(zvel, gravity, maxvelocity, start, end) && (maxvelocity >= 0.0 ==> ok && velocity <= 0.0)
    ensures !ok ==> velocity == maxvelocity
  {
    hide IsRoot, CanJump, Arrives, AtHeight, Square, SumOfSquares;
    var maxjump := 0.5 * gravity * (zvel / gravity) * (zvel / gravity);
    var height2fall := start.z + maxjump - end.z;
    time := 0.0;
    if height2fall < 0.0 {
      TooHigh(zvel, gravity, maxvelocity, start, end);
      return false, maxvelocity, time;
    }
    var t := root(height2fall / (0.5 * gravity));
    RootIs(root, height2fall / (0.5 * gravity), height2fall, gravity);
    TimeSign(zvel, gravity, start, end, t);
    var dir := Vec3(end.x - start.x, end.y - start.y, end.z - start.z);
    if t + zvel / gravity <= 0.0 { BeforeStart(zvel, gravity, maxvelocity, start, end, t); }
    if t + zvel / gravity == 0.0 {
      return false, maxvelocity, time;
    }
    time := t + zvel / gravity;
    var distance := root(SumOfSquares(dir.x, dir.y));
    velocity := distance / (t + zvel / gravity);
    DistanceIs(root, dir.x, dir.y);
    if time > 0.0 { Speed(zvel, gravity, maxvelocity, start, end, t, distance); } else { Backwards(distance, time); }
    if velocity > maxvelocity {
      return false, maxvelocity, time;
    }
    ok := true;
  }

  /** So it goes for a way up of 5 units with 10 units a second downwards: success, backwards in time. */
  method FallUpwards(root: real -> real) returns (ok: bool, velocity: real)
    requires IsRoot(root)
    ensures ok && velocity <= 0.0 && !CanJump(-10.0, 10.0, 320.0, Vec3(0.0, 0.0, 0.0), Vec3(8.0, 0.0, 5.0))
  {
    hide IsRoot, CanJump;
    ghost var time;
    ok, velocity, time := HorizontalVelocityForJump(-10.0, Vec3(0.0, 0.0, 0.0), Vec3(8.0, 0.0, 5.0), 10.0, 320.0, root);
  }
}
