/**
 * One movement step, shared by the client's PredictMovement and the
 * server's handling of a PlayerInputMessage: normalise the intent, set the
 * velocity to 200 units per second along it, advance the position by
 * velocity * dt and clamp the position to the world rectangle.
 *
 * Both sides run the same step with dt = 1/60, which is what lets the
 * client replay unacknowledged inputs and land where the server will.
 */
module Movement {
  import opened Protocol

  /** moveSpeed, in world units per second. */
  const MOVE_SPEED: real := 200.0
  /** The fixed step both sides use per input (1.0f / 60.0f). */
  const INPUT_DT: real := 1.0 / 60.0

  function Abs(a: real): (r: real)
    ensures r >= 0.0 && (r == a || r == -a)
  {
    if a < 0.0 then -a else a
  }

  /** One Newton step towards the square root of s, from a positive guess. */
  function NewtonStep(g: real, s: real): (h: real)
    requires g > 0.0 && s >= 0.0
    ensures h > 0.0
  {
    (g + s / g) / 2.0
  }

  /**
   * The length sqrt(moveX^2 + moveY^2) used for normalisation, as a
   * rational stand-in: two Newton steps from |x| + |y|. It is zero exactly
   * for the zero intent, and exact for an intent along one axis.
   */
  function Magnitude(x: real, y: real): (m: real)
    ensures m >= 0.0
    ensures m == 0.0 <==> x == 0.0 && y == 0.0
  {
    if x == 0.0 && y == 0.0 then 0.0
    else
      var s := x * x + y * y;
      SumOfSquares(x, y);
      var g := Abs(x) + Abs(y);
      NewtonStep(NewtonStep(g, s), s)
  }

  /** A Newton step at the exact root stays there. */
  lemma NewtonFixed(g: real)
    requires g > 0.0
    ensures NewtonStep(g, g * g) == g
  {
    assert (g * g) / g == g;
  }

  /** Along one axis the stand-in is the exact length. */
  lemma MagnitudeAxis(a: real)
    ensures Magnitude(a, 0.0) == Abs(a)
    ensures Magnitude(0.0, a) == Abs(a)
  {
    if a != 0.0 {
      var g := Abs(a);
      assert a * a + 0.0 * 0.0 == g * g;
      assert 0.0 * 0.0 + a * a == g * g;
      assert Abs(a) + Abs(0.0) == g && Abs(0.0) + Abs(a) == g;
      NewtonFixed(g);
      assert Magnitude(a, 0.0) == NewtonStep(NewtonStep(g, g * g), g * g);
      assert Magnitude(0.0, a) == NewtonStep(NewtonStep(g, g * g), g * g);
    }
  }

  /** Off the axes the stand-in is not the Euclidean length: for (1, 1) it is 17/12, not the square root of 2. */
  lemma MagnitudeDiagonal()
    ensures Magnitude(1.0, 1.0) == 17.0 / 12.0
    ensures Magnitude(1.0, 1.0) * Magnitude(1.0, 1.0) != 2.0
  {
    assert NewtonStep(2.0, 2.0) == 1.5;
    assert NewtonStep(1.5, 2.0) == 17.0 / 12.0;
  }

  /** The normalised intent; a zero-length intent is left as it is. */
  function Direction(moveX: real, moveY: real): (d: Vec)
    ensures moveX == 0.0 && moveY == 0.0 ==> d == ZERO
  {
    var length := Magnitude(moveX, moveY);
    if length > 0.0 then Vec(moveX / length, moveY / length) else Vec(moveX, moveY)
  }

  /** One coordinate clamped to [0, hi] by the two successive ifs. */
  function Clamp(v: real, hi: real): (c: real)
    requires hi >= 0.0
    ensures 0.0 <= c <= hi
    ensures 0.0 <= v <= hi ==> c == v
  {
    var low := if v < 0.0 then 0.0 else v;
    if low > hi then hi else low
  }

  /**
   * PredictMovement(player, moveX, moveY, dt), and the body of
   * GameServer::ReceivePlayerInputMessage after its lookup.
   */
  function PredictMovement(p: Player, moveX: real, moveY: real, dt: real): (q: Player)
    ensures q.position.InWorld()
    ensures q.id == p.id && q.size == p.size && q.color == p.color
  {
    Advance(p, Direction(moveX, moveY), dt)
  }

  /** Full speed along a direction for dt seconds, then clamped to the world. */
  function Advance(p: Player, d: Vec, dt: real): (q: Player)
    ensures q.position.InWorld()
    ensures q.id == p.id && q.size == p.size && q.color == p.color
    ensures q.velocity == Vec(d.x * MOVE_SPEED, d.y * MOVE_SPEED)
  {
    var velocity := Vec(d.x * MOVE_SPEED, d.y * MOVE_SPEED);
    var x := p.position.x + velocity.x * dt;
    var y := p.position.y + velocity.y * dt;
    p.(position := Vec(Clamp(x, WORLD_WIDTH as real), Clamp(y, WORLD_HEIGHT as real)),
       velocity := velocity)
  }

  /** With no intent the player stops, and a player inside the world stays put. */
  lemma PredictIdle(p: Player, dt: real)
    ensures PredictMovement(p, 0.0, 0.0, dt).velocity == ZERO
    ensures p.position.InWorld() ==> PredictMovement(p, 0.0, 0.0, dt).position == p.position
  {
  }

  /** Any positive intent along x alone normalises to the unit vector (1, 0). */
  lemma DirectionAlongX(a: real)
    requires a > 0.0
    ensures Direction(a, 0.0) == Vec(1.0, 0.0)
  {
    MagnitudeAxis(a);
    assert Magnitude(a, 0.0) == a;
    assert a / a == 1.0;
    assert 0.0 / a == 0.0;
  }

  /**
   * Holding D alone (or any positive x intent) moves right at full speed,
   * stopping at the right edge; y is untouched.
   */
  lemma PredictAlongX(p: Player, a: real, dt: real)
    requires p.position.InWorld() && a > 0.0 && dt >= 0.0
    ensures PredictMovement(p, a, 0.0, dt).velocity == Vec(MOVE_SPEED, 0.0)
    ensures PredictMovement(p, a, 0.0, dt).position
         == Vec(if p.position.x + MOVE_SPEED * dt > WORLD_WIDTH as real then WORLD_WIDTH as real
                else p.position.x + MOVE_SPEED * dt,
                p.position.y)
  {
    DirectionAlongX(a);
    var q := Advance(p, Vec(1.0, 0.0), dt);
    assert PredictMovement(p, a, 0.0, dt) == q;
    assert q.position == Vec(Clamp(p.position.x + MOVE_SPEED * dt, WORLD_WIDTH as real),
                             Clamp(p.position.y + 0.0 * dt, WORLD_HEIGHT as real));
  }

  /** A step of zero duration only sets the velocity. */
  lemma PredictZeroDuration(p: Player, moveX: real, moveY: real)
    requires p.position.InWorld()
    ensures PredictMovement(p, moveX, moveY, 0.0).position == p.position
  {
  }
}
