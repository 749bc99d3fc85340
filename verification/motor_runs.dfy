/**
  Sequences of vertical-motion steps. Between two steps the input system may
  overwrite the pending jump flag; a frame records that write, the ground
  flag the step sees and the frame time. The lemmas state the invariants the
  step keeps over any such sequence.
 */
module MotorRuns {
  import opened Controller
  import opened Motor

  /** What the input system does to the jump flag before a step. */
  datatype JumpWrite = Keep | Write(pressed: bool)

  datatype Frame = Frame(grounded: bool, dt: real, write: JumpWrite)

  function ApplyWrite(s: Player, w: JumpWrite): Player
  {
    match w
    case Keep => s
    case Write(b) => s.(jump := b)
  }

  /** One frame: the input write, then JumpAndGravity. */
  function Step(c: Config, s: Player, f: Frame, sqrt: real -> real): Player
  {
    JumpAndGravity(c, ApplyWrite(s, f.write), f.grounded, f.dt, sqrt)
  }

  /** Whether the frame's step accepts a jump. */
  predicate Accepts(c: Config, s: Player, f: Frame)
  {
    JumpAccepted(c, ApplyWrite(s, f.write), f.grounded)
  }

  function Run(c: Config, s: Player, frames: seq<Frame>, sqrt: real -> real): Player
    decreases |frames|
  {
    if |frames| == 0 then s else Run(c, Step(c, s, frames[0], sqrt), frames[1..], sqrt)
  }

  /** The number of frames of the run whose step accepts a jump. */
  function AcceptedJumps(c: Config, s: Player, frames: seq<Frame>, sqrt: real -> real): nat
    decreases |frames|
  {
    if |frames| == 0 then 0
    else (if Accepts(c, s, frames[0]) then 1 else 0)
         + AcceptedJumps(c, Step(c, s, frames[0], sqrt), frames[1..], sqrt)
  }

  predicate JumpCountBounded(c: Config, s: Player)
  {
    0 <= s.jumpCount <= JumpCap(c)
  }

  /** A step keeps the jump counter within [0, max(1, ExtraJumpCount)]. */
  lemma StepKeepsJumpCountBounded(c: Config, s: Player, f: Frame, sqrt: real -> real)
    requires JumpCountBounded(c, s)
    ensures JumpCountBounded(c, Step(c, s, f, sqrt))
  {
  }

  /**
    Starting within the bound (in particular from zero), the jump counter never
    leaves [0, max(1, ExtraJumpCount)], however the steps and jump presses go.
   */
  lemma {:induction false} JumpCountBoundedOverRun(c: Config, s: Player, frames: seq<Frame>, sqrt: real -> real)
    requires JumpCountBounded(c, s)
    ensures JumpCountBounded(c, Run(c, s, frames, sqrt))
    decreases |frames|
  {
    if |frames| > 0 {
      StepKeepsJumpCountBounded(c, s, frames[0], sqrt);
      JumpCountBoundedOverRun(c, Step(c, s, frames[0], sqrt), frames[1..], sqrt);
    }
  }

  /**
    While airborne the counter counts exactly the accepted jumps, and those
    stop once it reaches ExtraJumpCount: a character that left the ground
    with count j gets at most max(0, ExtraJumpCount - j) air jumps.
   */
  lemma {:induction false} AirJumpsCounted(c: Config, s: Player, frames: seq<Frame>, sqrt: real -> real)
    requires forall i :: 0 <= i < |frames| ==> !frames[i].grounded
    ensures Run(c, s, frames, sqrt).jumpCount == s.jumpCount + AcceptedJumps(c, s, frames, sqrt)
    ensures s.jumpCount <= c.extraJumpCount ==>
              AcceptedJumps(c, s, frames, sqrt) <= c.extraJumpCount - s.jumpCount
    ensures s.jumpCount >= c.extraJumpCount ==> AcceptedJumps(c, s, frames, sqrt) == 0
    decreases |frames|
  {
    if |frames| > 0 {
      var t := Step(c, s, frames[0], sqrt);
      assert !frames[0].grounded;
      AirJumpsCounted(c, t, frames[1..], sqrt);
    }
  }

  /**
    A jump that is not re-pressed is consumed at most once: with no writes
    from the input system the run accepts at most one jump, and only if one
    was pending; the flag is still set at the end exactly when none was
    accepted, so a buffered jump waits until it is accepted.
   */
  lemma {:induction false} PendingJumpPersists(c: Config, s: Player, frames: seq<Frame>, sqrt: real -> real)
    requires forall i :: 0 <= i < |frames| ==> frames[i].write == Keep
    ensures AcceptedJumps(c, s, frames, sqrt) <= (if s.jump then 1 else 0)
    ensures Run(c, s, frames, sqrt).jump <==> s.jump && AcceptedJumps(c, s, frames, sqrt) == 0
    decreases |frames|
  {
    if |frames| > 0 {
      assert frames[0].write == Keep;
      PendingJumpPersists(c, Step(c, s, frames[0], sqrt), frames[1..], sqrt);
    }
  }

  /**
    An airborne step re-arms the jump timeout, so with a positive JumpTimeout
    the first grounded step after it never accepts a jump, whatever the input.
   */
  lemma LandingBlocksJump(c: Config, s: Player, air: Frame, land: Frame, sqrt: real -> real)
    requires !air.grounded && land.grounded
    requires c.jumpTimeout > 0.0
    ensures !Accepts(c, Step(c, s, air, sqrt), land)
    ensures Step(c, Step(c, s, air, sqrt), land, sqrt).jumpCount == 0
  {
  }

  /**
    After the jump timeout is re-armed, k grounded frames of equal length dt
    count it down to JumpTimeout - k*dt, and none of them accepts a jump while
    JumpTimeout - (k-1)*dt is still positive.
   */
  lemma {:induction false} LandingLockout(c: Config, s: Player, frames: seq<Frame>, dt: real, sqrt: real -> real)
    requires dt > 0.0
    requires s.jumpTimeoutDelta > (|frames| - 1) as real * dt
    requires forall i :: 0 <= i < |frames| ==> frames[i].grounded && frames[i].dt == dt
    ensures Run(c, s, frames, sqrt).jumpTimeoutDelta == s.jumpTimeoutDelta - |frames| as real * dt
    ensures AcceptedJumps(c, s, frames, sqrt) == 0
    decreases |frames|
  {
    if |frames| > 0 {
      var f := frames[0];
      assert f.grounded && f.dt == dt;
      var t := Step(c, s, f, sqrt);
      assert s.jumpTimeoutDelta > 0.0 by {
        assert (|frames| - 1) as real * dt >= 0.0;
      }
      assert t.jumpTimeoutDelta == s.jumpTimeoutDelta - dt;
      assert t.jumpTimeoutDelta > (|frames[1..]| - 1) as real * dt;
      LandingLockout(c, t, frames[1..], dt, sqrt);
    }
  }

  predicate TimersAbove(s: Player, floor: real)
  {
    s.jumpTimeoutDelta >= floor && s.fallTimeoutDelta >= floor
  }

  /**
    The timer floor: since a timer only counts down while it is not negative,
    with frame times at most d neither timer drops below -d, provided both
    timeouts are configured at least -d and the timers start there.
   */
  lemma {:induction false} TimersStayAboveFloor(c: Config, s: Player, frames: seq<Frame>, d: real, sqrt: real -> real)
    requires c.jumpTimeout >= -d && c.fallTimeout >= -d
    requires TimersAbove(s, -d)
    requires forall i :: 0 <= i < |frames| ==> frames[i].dt <= d
    ensures TimersAbove(Run(c, s, frames, sqrt), -d)
    decreases |frames|
  {
    if |frames| > 0 {
      assert frames[0].dt <= d;
      TimersStayAboveFloor(c, Step(c, s, frames[0], sqrt), frames[1..], d, sqrt);
    }
  }

  /** The total frame time of a run. */
  function Elapsed(frames: seq<Frame>): real
    decreases |frames|
  {
    if |frames| == 0 then 0.0 else frames[0].dt + Elapsed(frames[1..])
  }

  /** A frame of free fall: airborne, no jump written. */
  predicate FreeFall(f: Frame)
  {
    !f.grounded && f.write == Keep && f.dt >= 0.0
  }

  /** One free-fall frame adds Gravity*dt to a velocity below +53 and keeps the flag clear. */
  lemma FallFrame(c: Config, s: Player, f: Frame, sqrt: real -> real)
    requires c.gravity <= 0.0 && FreeFall(f)
    requires s.verticalVelocity < TerminalVelocity && !s.jump
    ensures Step(c, s, f, sqrt).verticalVelocity == s.verticalVelocity + c.gravity * f.dt
    ensures Step(c, s, f, sqrt).verticalVelocity <= s.verticalVelocity
    ensures !Step(c, s, f, sqrt).jump
  {
    assert c.gravity * f.dt <= 0.0 by {
      assert -c.gravity >= 0.0;
      assert (-c.gravity) * f.dt >= 0.0;
    }
  }

  /**
    As written, the terminal velocity (+53) never stops a fall: starting
    below +53 with no jump pending, free-fall frames take the vertical
    velocity to v + Gravity*T after a total time T, without bound.
   */
  lemma {:induction false} FallIsUnbounded(c: Config, s: Player, frames: seq<Frame>, sqrt: real -> real)
    requires c.gravity <= 0.0
    requires s.verticalVelocity < TerminalVelocity && !s.jump
    requires forall i :: 0 <= i < |frames| ==> FreeFall(frames[i])
    ensures Run(c, s, frames, sqrt).verticalVelocity == s.verticalVelocity + c.gravity * Elapsed(frames)
    decreases |frames|
  {
    if |frames| > 0 {
      var f := frames[0];
      assert FreeFall(f);
      FallFrame(c, s, f, sqrt);
      var t := Step(c, s, f, sqrt);
      FallIsUnbounded(c, t, frames[1..], sqrt);
      assert c.gravity * Elapsed(frames) == c.gravity * f.dt + c.gravity * Elapsed(frames[1..]);
    }
  }

  /**
    As written, the guard stops gravity only for fast upward motion: an
    airborne character moving up at +53 or more, with no jump, keeps that
    vertical velocity on every following frame.
   */
  lemma {:induction false} FastRiseNeverSlows(c: Config, s: Player, frames: seq<Frame>, sqrt: real -> real)
    requires s.verticalVelocity >= TerminalVelocity && !s.jump
    requires forall i :: 0 <= i < |frames| ==> !frames[i].grounded && frames[i].write == Keep
    ensures Run(c, s, frames, sqrt).verticalVelocity == s.verticalVelocity
    decreases |frames|
  {
    if |frames| > 0 {
      assert !frames[0].grounded && frames[0].write == Keep;
      FastRiseNeverSlows(c, Step(c, s, frames[0], sqrt), frames[1..], sqrt);
    }
  }
}
