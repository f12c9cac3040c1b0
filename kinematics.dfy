/**
 * The bookkeeping of one animation tick that is not force-field related:
 * the rotating global hue, and the part of a particle's update that moves it,
 * bounces it off the panel's walls, keeps it inside the panel, jitters and
 * damps its velocity. The force integration that precedes the move is not part
 * of this model: the velocity it leaves behind is an input here.
 */
module Kinematics {

  // The tick's factors (hue step 0.005, rebound -0.8, jitter 0.1, damping
  // 0.99) are written as literals so that the products stay linear.

  // PANEL_SIZE, the range of the random positions a reset draws
  const PanelWidth: int := 800
  const PanelHeight: int := 600

  /** The global hue after one tick: advance by 0.005, back to 0 once above 1. */
  function NextHue(h: real): (r: real)
    ensures 0.0 <= h <= 1.0 ==> 0.0 <= r <= 1.0
    ensures r == 0.0 <==> h + 0.005 > 1.0 || h + 0.005 == 0.0
    ensures r != 0.0 ==> r == h + 0.005
  {
    var advanced := h + 0.005;
    if advanced > 1.0 then 0.0 else advanced
  }

  /** The global hue n ticks after the panel was created. */
  function HueAfter(n: nat): real {
    if n == 0 then 0.0 else NextHue(HueAfter(n - 1))
  }

  /**
   * Starting from 0, the hue runs through 0, 0.005, ..., 1.0 and wraps:
   * it is periodic with period 201 ticks and always lies in [0, 1].
   */
  lemma {:induction false} HueIsPeriodic(n: nat)
    ensures HueAfter(n) == (n % 201) as real * 0.005
    ensures 0.0 <= HueAfter(n) <= 1.0
  {
    if n > 0 {
      HueIsPeriodic(n - 1);
      var k := (n - 1) % 201;
      var before := HueAfter(n - 1);
      TickCounterWraps(n);
      if k < 200 {
        assert before + 0.005 == (k + 1) as real * 0.005 <= 1.0;
      } else {
        assert before + 0.005 > 1.0;
      }
    }
  }

  /** The tick count modulo 201 steps by one and wraps from 200 to 0. */
  lemma TickCounterWraps(n: nat)
    requires n > 0
    ensures (n - 1) % 201 < 200 ==> n % 201 == (n - 1) % 201 + 1
    ensures (n - 1) % 201 == 200 ==> n % 201 == 0
  {
    assert n == 201 * ((n - 1) / 201) + (n - 1) % 201 + 1;
  }

  /** One coordinate of a particle: where it is and how fast it moves. */
  datatype Axis = Axis(pos: real, vel: real)

  /**
   * Bounce and clamp along one axis of extent `limit`: a position outside
   * [0, limit] reverses and damps the velocity by the factor -0.8 and is put
   * back on the nearest wall; a position inside is left alone.
   */
  function Bounce(pos: real, vel: real, limit: nat): (r: Axis)
    ensures 0.0 <= r.pos <= limit as real
    ensures 0.0 <= pos <= limit as real <==> r.pos == pos
    ensures 0.0 <= pos <= limit as real ==> r.vel == vel
    ensures !(0.0 <= pos <= limit as real) ==> r.vel == -0.8 * vel
    ensures pos < 0.0 ==> r.pos == 0.0
    ensures pos > limit as real ==> r.pos == limit as real
  {
    var vel' := if pos < 0.0 || pos > limit as real then vel * -0.8 else vel;
    var pos' := if pos <= limit as real then pos else limit as real;
    Axis(if pos' >= 0.0 then pos' else 0.0, vel')
  }

  /** The clamped position is the point of [0, limit] nearest to the raw one. */
  lemma BounceClampsToNearest(pos: real, vel: real, limit: nat, q: real)
    requires 0.0 <= q <= limit as real
    ensures var d := Bounce(pos, vel, limit).pos - pos;
      var e := q - pos;
      (if d >= 0.0 then d else -d) <= (if e >= 0.0 then e else -e)
  {
  }

  /** A particle's position and velocity. */
  datatype Motion = Motion(x: real, y: real, vx: real, vy: real)

  /** The velocity after the force-field loop, which this model takes as given. */
  datatype Velocity = Velocity(vx: real, vy: real)

  /** The two `nextFloat()` values a particle's update draws for its jitter. */
  datatype Jitter = Jitter(ux: real, uy: real)

  /** A velocity component times the speed multiplier: the displacement of one tick. */
  function Scaled(v: real, speed: real): real { v * speed }

  /** A velocity component after jitter and damping. */
  function Settle(v: real, u: real): real {
    (v + (u - 0.5) * 0.1) * 0.99
  }

  /**
   * A particle's update after the force loop has left velocity `after`:
   * move by velocity times speed, bounce and clamp each axis to the panel,
   * then jitter and damp the velocity.
   */
  function Move(m: Motion, speed: real, width: nat, height: nat, after: Velocity, j: Jitter): (r: Motion)
    ensures 0.0 <= r.x <= width as real && 0.0 <= r.y <= height as real
  {
    var alongX := Bounce(m.x + Scaled(after.vx, speed), after.vx, width);
    var alongY := Bounce(m.y + Scaled(after.vy, speed), after.vy, height);
    Motion(alongX.pos, alongY.pos, Settle(alongX.vel, j.ux), Settle(alongY.vel, j.uy))
  }

  /**
   * The update of a whole list of particles, one velocity and one jitter draw
   * each: every particle ends inside the panel.
   */
  function MoveAll(ms: seq<Motion>, speed: real, width: nat, height: nat, after: seq<Velocity>, jitter: seq<Jitter>): (r: seq<Motion>)
    requires |after| == |ms| && |jitter| == |ms|
    ensures |r| == |ms|
    ensures forall i :: 0 <= i < |ms| ==> r[i] == Move(ms[i], speed, width, height, after[i], jitter[i])
    ensures forall i :: 0 <= i < |r| ==> 0.0 <= r[i].x <= width as real && 0.0 <= r[i].y <= height as real
  {
    seq(|ms|, i requires 0 <= i < |ms| => Move(ms[i], speed, width, height, after[i], jitter[i]))
  }

  /**
   * The position after a move is the raw position exactly when that stays
   * inside the panel, and the velocity before jitter is scaled by -0.8
   * exactly on an axis whose raw position left the panel.
   */
  lemma MoveBouncesExactlyOffWalls(m: Motion, speed: real, width: nat, height: nat, after: Velocity, j: Jitter)
    ensures var r := Move(m, speed, width, height, after, j);
      var rawX := m.x + Scaled(after.vx, speed);
      var rawY := m.y + Scaled(after.vy, speed);
      && (r.x == rawX <==> 0.0 <= rawX <= width as real)
      && (r.y == rawY <==> 0.0 <= rawY <= height as real)
      && r.vx == Settle(if 0.0 <= rawX <= width as real then after.vx else -0.8 * after.vx, j.ux)
      && r.vy == Settle(if 0.0 <= rawY <= height as real then after.vy else -0.8 * after.vy, j.uy)
  {
  }

  /** A particle reset: `nextInt(width)`, `nextInt(height)` and three `nextFloat()`. */
  datatype ResetDraw = ResetDraw(ix: int, iy: int, uvx: real, uvy: real, uhue: real)

  /** The ranges `java.util.Random` draws from. */
  predicate FromRandom(d: ResetDraw) {
    && 0 <= d.ix < PanelWidth && 0 <= d.iy < PanelHeight
    && 0.0 <= d.uvx < 1.0 && 0.0 <= d.uvy < 1.0 && 0.0 <= d.uhue < 1.0
  }

  /** The position and velocity a reset gives a particle. */
  function Respawn(d: ResetDraw): (r: Motion)
    ensures FromRandom(d) ==>
      && 0.0 <= r.x < PanelWidth as real && 0.0 <= r.y < PanelHeight as real
      && -1.0 <= r.vx < 1.0 && -1.0 <= r.vy < 1.0
  {
    Motion(d.ix as real, d.iy as real, (d.uvx - 0.5) * 2.0, (d.uvy - 0.5) * 2.0)
  }
}
