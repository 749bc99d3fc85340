/**
  The vertical-motion step of the controller (JumpAndGravity): ground-resting,
  jump acceptance, the jump and fall timers, and gravity integration.

  The ground flag is an input: the frame update runs this step before the
  ground check, so the flag seen here is the previous frame's contact. The
  square root the engine computes the take-off speed with is a parameter.
 */
module Motor {
  import opened Controller

  /** Take-off speed of a jump: the same expression for ground and air jumps. */
  function JumpVelocity(c: Config, multiplier: real, sqrt: real -> real): real
  {
    sqrt(c.jumpHeight * multiplier * -2.0 * c.gravity)
  }

  /**
    Whether the step accepts the pending jump: on the ground only once the
    jump timeout has run out, in the air only while fewer than
    `extraJumpCount` jumps have been counted.
   */
  predicate JumpAccepted(c: Config, s: Player, grounded: bool)
  {
    s.jump && (if grounded then s.jumpTimeoutDelta <= 0.0 else s.jumpCount < c.extraJumpCount)
  }

  /** A countdown timer advanced by one frame: it only moves while it is not below zero. */
  function CountDown(t: real, dt: real): real
  {
    if t >= 0.0 then t - dt else t
  }

  /** Gravity integration: applied only below the terminal velocity. */
  function WithGravity(c: Config, v: real, dt: real): real
  {
    if v < TerminalVelocity then v + c.gravity * dt else v
  }

  /** The grounded branch, before gravity. */
  function GroundedPhase(c: Config, s: Player, dt: real, sqrt: real -> real): Player
  {
    var resting := if s.verticalVelocity < 0.0 then RestingVelocity else s.verticalVelocity;
    var accept := JumpAccepted(c, s, true);
    s.(fallTimeoutDelta := c.fallTimeout,
       verticalVelocity := if accept then JumpVelocity(c, s.jumpMultiplier, sqrt) else resting,
       jumpCount := if accept then 1 else 0,
       jump := s.jump && !accept,
       jumpTimeoutDelta := CountDown(s.jumpTimeoutDelta, dt))
  }

  /** The airborne branch, before gravity. */
  function AirbornePhase(c: Config, s: Player, dt: real, sqrt: real -> real): Player
  {
    var accept := JumpAccepted(c, s, false);
    s.(jumpTimeoutDelta := c.jumpTimeout,
       fallTimeoutDelta := CountDown(s.fallTimeoutDelta, dt),
       verticalVelocity := if accept then JumpVelocity(c, s.jumpMultiplier, sqrt) else s.verticalVelocity,
       jumpCount := if accept then s.jumpCount + 1 else s.jumpCount,
       jump := s.jump && !accept)
  }

  /**
    One call of JumpAndGravity. The contract lists what a caller can rely on:
    which fields it owns, when the jump flag is consumed, how the jump counter
    and the two timers move, and what the vertical velocity ends at.
   */
  function JumpAndGravity(c: Config, s: Player, grounded: bool, dt: real, sqrt: real -> real): (r: Player)
    // Only the vertical-motion fields are written.
    ensures r.grounded == s.grounded && r.jumpMultiplier == s.jumpMultiplier
    ensures r.speed == s.speed && r.position == s.position
    // The jump flag is cleared exactly when a jump is accepted, and otherwise left pending.
    ensures r.jump <==> s.jump && !JumpAccepted(c, s, grounded)
    // Jump counting: a grounded step restarts the count, an airborne step adds the accepted jump.
    ensures grounded ==> (r.jumpCount == 0 || r.jumpCount == 1)
    ensures grounded ==> (r.jumpCount == 1 <==> JumpAccepted(c, s, grounded))
    ensures !grounded ==> r.jumpCount == s.jumpCount + (if JumpAccepted(c, s, grounded) then 1 else 0)
    ensures !grounded && JumpAccepted(c, s, grounded) ==> r.jumpCount <= c.extraJumpCount
    // A grounded jump needs an expired jump timeout.
    ensures grounded && JumpAccepted(c, s, grounded) ==> s.jumpTimeoutDelta <= 0.0
    // Timers: each branch re-arms one timer and counts the other one down.
    ensures grounded ==> r.fallTimeoutDelta == c.fallTimeout
    ensures !grounded ==> r.jumpTimeoutDelta == c.jumpTimeout
    ensures grounded && s.jumpTimeoutDelta >= 0.0 ==> r.jumpTimeoutDelta == s.jumpTimeoutDelta - dt
    ensures grounded && s.jumpTimeoutDelta < 0.0 ==> r.jumpTimeoutDelta == s.jumpTimeoutDelta
    ensures !grounded && s.fallTimeoutDelta >= 0.0 ==> r.fallTimeoutDelta == s.fallTimeoutDelta - dt
    ensures !grounded && s.fallTimeoutDelta < 0.0 ==> r.fallTimeoutDelta == s.fallTimeoutDelta
    // Vertical velocity.
    ensures JumpAccepted(c, s, grounded) ==>
              r.verticalVelocity == WithGravity(c, JumpVelocity(c, s.jumpMultiplier, sqrt), dt)
    ensures grounded && !JumpAccepted(c, s, grounded) && s.verticalVelocity < 0.0 ==>
              r.verticalVelocity == RestingVelocity + c.gravity * dt
    ensures !JumpAccepted(c, s, grounded) && !(grounded && s.verticalVelocity < 0.0) ==>
              r.verticalVelocity == WithGravity(c, s.verticalVelocity, dt)
  {
    var p := if grounded then GroundedPhase(c, s, dt, sqrt) else AirbornePhase(c, s, dt, sqrt);
    p.(verticalVelocity := WithGravity(c, p.verticalVelocity, dt))
  }

  /** Gravity changes the velocity exactly when it is below the terminal velocity. */
  lemma GravityGuard(c: Config, v: real, dt: real)
    requires c.gravity * dt != 0.0
    ensures WithGravity(c, v, dt) != v <==> v < TerminalVelocity
    ensures v < TerminalVelocity ==> WithGravity(c, v, dt) - v == c.gravity * dt
  {
  }

  /**
    With the timers' resets aside, a step never raises a timer: for a
    non-negative frame time each timer either is re-armed by its branch or
    does not grow.
   */
  lemma TimersOnlyRiseByReset(c: Config, s: Player, grounded: bool, dt: real, sqrt: real -> real)
    requires dt >= 0.0
    ensures var r := JumpAndGravity(c, s, grounded, dt, sqrt);
            && (r.jumpTimeoutDelta <= s.jumpTimeoutDelta || (!grounded && r.jumpTimeoutDelta == c.jumpTimeout))
            && (r.fallTimeoutDelta <= s.fallTimeoutDelta || (grounded && r.fallTimeoutDelta == c.fallTimeout))
  {
  }

  /**
    With the shipped defaults (JumpHeight 1.2, Gravity -15) and the normal
    multiplier, the take-off speed is the square root of 36, i.e. 6 units/s.
   */
  lemma DefaultJumpVelocity(sqrt: real -> real)
    ensures JumpVelocity(Defaults, NormalJumpMultiplier, sqrt) == sqrt(36.0)
  {
  }
}
