/**
  The horizontal part of Move: choosing the target speed, the deadband
  around it, the blend towards it, and the displacement handed to the
  character controller.

  Mathf.Lerp is modelled exactly; the rounding to three decimals that follows
  it is the parameter `quantize`, and the magnitude of an analog stick uses
  the parameter `sqrt`. The world-space direction built from the body's
  right and forward axes is an input, already normalised by the engine.
 */
module Locomotion {
  import opened Controller

  /** The move, sprint and analog fields of the input snapshot. */
  datatype MoveInput = MoveInput(x: real, y: real, sprint: bool, analog: bool)

  /** Unity's Vector2 equality is approximate: equal to zero when the squared length is below 1e-10. */
  const ZeroSqrMagnitude: real := 0.0000000001

  /** The squared length of the move vector. */
  function SqrMagnitude(m: MoveInput): (r: real)
    ensures r >= 0.0
  {
    m.x * m.x + m.y * m.y
  }

  /** `move == Vector2.zero` as the engine evaluates it. */
  predicate NoMove(m: MoveInput)
  {
    SqrMagnitude(m) < ZeroSqrMagnitude
  }

  /** The speed the character heads for: 0 without move input, else sprint or walk speed. */
  function TargetSpeed(c: Config, m: MoveInput): (r: real)
    ensures NoMove(m) ==> r == 0.0
    ensures !NoMove(m) && m.sprint ==> r == c.sprintSpeed
    ensures !NoMove(m) && !m.sprint ==> r == c.moveSpeed
  {
    if NoMove(m) then 0.0 else if m.sprint then c.sprintSpeed else c.moveSpeed
  }

  /** Mathf.Clamp01. */
  function Clamp01(t: real): real
  {
    if t < 0.0 then 0.0 else if t > 1.0 then 1.0 else t
  }

  /** Mathf.Lerp: the interpolation parameter is clamped to [0, 1]. */
  function Lerp(a: real, b: real, t: real): (r: real)
    ensures t <= 0.0 ==> r == a
    ensures t >= 1.0 ==> r == b
    ensures a <= b ==> a <= r <= b
    ensures b <= a ==> b <= r <= a
  {
    var u := Clamp01(t);
    var p := (b - a) * u;
    LerpStep(a, b, u, p);
    a + p
  }

  /** The step a + (b - a)*u takes from a, for u in [0, 1]. */
  lemma LerpStep(a: real, b: real, u: real, p: real)
    requires 0.0 <= u <= 1.0 && p == (b - a) * u
    ensures u == 0.0 ==> p == 0.0
    ensures u == 1.0 ==> p == b - a
    ensures a <= b ==> 0.0 <= p <= b - a
    ensures b <= a ==> b - a <= p <= 0.0
  {
    if a <= b {
      FractionOf(b - a, u, p);
    } else {
      FractionOf(a - b, u, -p);
    }
  }

  /** A fraction u in [0, 1] of a non-negative w lies in [0, w]. */
  lemma FractionOf(w: real, u: real, p: real)
    requires w >= 0.0 && 0.0 <= u <= 1.0 && p == w * u
    ensures 0.0 <= p <= w
  {
    assert w * (1.0 - u) >= 0.0;
    assert w * (1.0 - u) == w - w * u;
  }

  /** The factor the target speed is scaled by when blending: the stick's length, or 1. */
  function InputMagnitude(m: MoveInput, sqrt: real -> real): real
  {
    if m.analog then sqrt(SqrMagnitude(m)) else 1.0
  }

  /** What the blend heads for: the target speed scaled by the input magnitude. */
  function BlendGoal(c: Config, m: MoveInput, sqrt: real -> real): real
  {
    TargetSpeed(c, m) * InputMagnitude(m, sqrt)
  }

  /** Whether the current speed is inside the band of half-width 0.1 around the target. */
  predicate WithinDeadband(current: real, target: real)
  {
    target - SpeedOffset <= current <= target + SpeedOffset
  }

  /**
    The speed Move uses this frame. Inside the deadband it is exactly the
    target; outside it the current speed is blended towards the (scaled)
    target at rate SpeedChangeRate*dt and rounded.
   */
  function HorizontalSpeed(c: Config, m: MoveInput, current: real, dt: real,
                           sqrt: real -> real, quantize: real -> real): (r: real)
    ensures WithinDeadband(current, TargetSpeed(c, m)) ==> r == TargetSpeed(c, m)
    ensures !WithinDeadband(current, TargetSpeed(c, m)) ==>
              r == quantize(Lerp(current, BlendGoal(c, m, sqrt), dt * c.speedChangeRate))
  {
    var target := TargetSpeed(c, m);
    if !WithinDeadband(current, target) then
      quantize(Lerp(current, BlendGoal(c, m, sqrt), dt * c.speedChangeRate))
    else
      target
  }

  /**
    Without the rounding, the blended speed lies between the current speed and
    the scaled target, and a full-rate blend (SpeedChangeRate*dt >= 1) reaches it.
   */
  lemma BlendStaysBetween(c: Config, m: MoveInput, current: real, dt: real, sqrt: real -> real)
    requires !WithinDeadband(current, TargetSpeed(c, m))
    ensures var goal := BlendGoal(c, m, sqrt);
            var r := HorizontalSpeed(c, m, current, dt, sqrt, x => x);
            && (current <= goal ==> current <= r <= goal)
            && (goal <= current ==> goal <= r <= current)
            && (dt * c.speedChangeRate >= 1.0 ==> r == goal)
  {
  }

  /**
    A corollary of HorizontalSpeed's deadband clause: a measured speed equal
    to the target is returned exactly, whatever the rounding does.
   */
  lemma SnappedSpeedIsStable(c: Config, m: MoveInput, dt: real, sqrt: real -> real, quantize: real -> real)
    ensures HorizontalSpeed(c, m, TargetSpeed(c, m), dt, sqrt, quantize) == TargetSpeed(c, m)
  {
  }

  /** The horizontal world-space direction of travel (the engine's normalised right*x + forward*y). */
  datatype Heading = Heading(x: real, z: real)

  /**
    The displacement requested from the character controller: the heading
    scaled by speed*dt, plus the vertical velocity times dt. With no move
    input the direction is the zero vector, so only the vertical part remains.
   */
  function Displacement(m: MoveInput, heading: Heading, speed: real, verticalVelocity: real, dt: real): (d: Vec3)
    ensures d.y == verticalVelocity * dt
    ensures NoMove(m) ==> d.x == 0.0 && d.z == 0.0
    ensures !NoMove(m) ==> d.x == heading.x * (speed * dt) && d.z == heading.z * (speed * dt)
  {
    var h := if NoMove(m) then Heading(0.0, 0.0) else heading;
    Vec3(h.x * (speed * dt), verticalVelocity * dt, h.z * (speed * dt))
  }
}
