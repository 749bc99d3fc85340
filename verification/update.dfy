/**
  One frame of the controller (Update) and runs of frames interleaved with
  jump-board callbacks.

  Update calls, in this order: the vertical step, the ground check, Move and
  the respawn guard. The ground check's result is therefore stored and only
  seen by the next frame's vertical step. The engine's ground query, its
  collision-resolving move, its square root and its rounding are inputs.
 */
module Frames {
  import opened Controller
  import opened Motor
  import opened MotorRuns
  import opened Locomotion
  import opened Respawn
  import opened Jumpboard

  /** The engine services the controller calls. */
  datatype Engine = Engine(
    sqrt: real -> real,
    quantize: real -> real,
    resolve: (Vec3, Vec3) -> Vec3)  // position, requested displacement -> position after collisions

  /**
    What one frame supplies: the frame time, the input system's write to the
    jump flag, this frame's ground-sphere result, the move input, the
    controller's measured horizontal speed and the world direction of travel.
   */
  datatype FrameInput = FrameInput(
    dt: real,
    write: JumpWrite,
    contact: bool,
    move: MoveInput,
    currentSpeed: real,
    heading: Heading)

  /** Move: choose the speed and hand the displacement to the engine. */
  function Move(c: Config, s: Player, f: FrameInput, e: Engine): (r: Player)
    ensures r == s.(speed := r.speed, position := r.position)
    ensures WithinDeadband(f.currentSpeed, TargetSpeed(c, f.move)) ==> r.speed == TargetSpeed(c, f.move)
    ensures r.position == e.resolve(s.position, Displacement(f.move, f.heading, r.speed, s.verticalVelocity, f.dt))
  {
    var speed := HorizontalSpeed(c, f.move, f.currentSpeed, f.dt, e.sqrt, e.quantize);
    s.(speed := speed, position := e.resolve(s.position, Displacement(f.move, f.heading, speed, s.verticalVelocity, f.dt)))
  }

  /** The state right after this frame's vertical step. */
  function Vertical(c: Config, s: Player, f: FrameInput, e: Engine): Player
  {
    JumpAndGravity(c, ApplyWrite(s, f.write), s.grounded, f.dt, e.sqrt)
  }

  /** Update: vertical step with the stored ground flag, ground check, Move, respawn guard. */
  function Update(c: Config, s: Player, f: FrameInput, e: Engine): (r: Player)
    // The ground contact sensed this frame is stored for the next one.
    ensures r.grounded == f.contact
    // The jump flag is consumed by the vertical step, judged on the stored ground flag.
    ensures r.jump <==> ApplyWrite(s, f.write).jump && !JumpAccepted(c, ApplyWrite(s, f.write), s.grounded)
    // Only the jump boards write the multiplier.
    ensures r.jumpMultiplier == s.jumpMultiplier
    // The counter and the timers are the vertical step's.
    ensures r.jumpCount == Vertical(c, s, f, e).jumpCount
    ensures r.jumpTimeoutDelta == Vertical(c, s, f, e).jumpTimeoutDelta
    ensures r.fallTimeoutDelta == Vertical(c, s, f, e).fallTimeoutDelta
    // The frame ends either respawned at rest or with the step's velocity.
    ensures (r.verticalVelocity == 0.0 && r.position == c.respawnPosition)
         || r.verticalVelocity == Vertical(c, s, f, e).verticalVelocity
  {
    var v := Vertical(c, s, f, e);
    var sensed := v.(grounded := f.contact);
    var moved := Move(c, sensed, f, e);
    CheckFallRespawn(c, moved)
  }

  /**
    The ground contact sensed in a frame does not influence that frame at
    all: two frames that differ only in the sensed contact end in the same
    state apart from the stored flag.
   */
  lemma ContactTakesEffectNextFrame(c: Config, s: Player, f: FrameInput, e: Engine, contact: bool)
    ensures Update(c, s, f.(contact := contact), e) == Update(c, s, f, e).(grounded := contact)
  {
  }

  /**
    The engine is asked to move the character vertically by exactly the
    step's vertical velocity times dt; if that leaves it below the fall
    threshold it is respawned at rest.
   */
  lemma FrameMovesByVerticalVelocity(c: Config, s: Player, f: FrameInput, e: Engine)
    ensures var v := Vertical(c, s, f, e);
            var moved := Move(c, v.(grounded := f.contact), f, e);
            && moved.position == e.resolve(v.position, Displacement(f.move, f.heading, moved.speed, v.verticalVelocity, f.dt))
            && Displacement(f.move, f.heading, moved.speed, v.verticalVelocity, f.dt).y == v.verticalVelocity * f.dt
            && (moved.position.y < c.fallThreshold ==>
                  Update(c, s, f, e).verticalVelocity == 0.0 && Update(c, s, f, e).position == c.respawnPosition)
            && (moved.position.y >= c.fallThreshold ==> Update(c, s, f, e) == moved)
  {
  }

  /**
    A jump from rest is counted as 1, but the ground check of that same frame
    runs before the character has moved, so it usually still senses the
    ground. The next frame then takes the grounded branch: it resets the count
    to 0, and since the jump timeout has not been re-armed, a second press is
    accepted as another ground jump.
   */
  lemma JumpFromRestStillGroundedNextFrame(c: Config, s: Player, f: FrameInput, next: FrameInput, e: Engine)
    requires s.grounded && s.jumpTimeoutDelta <= 0.0 && f.write == Write(true) && f.contact
    ensures Update(c, s, f, e).jumpCount == 1 && Update(c, s, f, e).grounded && !Update(c, s, f, e).jump
    ensures next.write == Keep ==> Update(c, Update(c, s, f, e), next, e).jumpCount == 0
    ensures next.write == Write(true) && f.dt >= 0.0 ==> Update(c, Update(c, s, f, e), next, e).jumpCount == 1
  {
  }

  /** Something that happens to the character: a frame, or a jump-board callback between frames. */
  datatype Event = Tick(frame: FrameInput) | Board(zone: ZoneEvent)

  function Handle(c: Config, s: Player, ev: Event, e: Engine): Player
  {
    match ev
    case Tick(f) => Update(c, s, f, e)
    case Board(z) => s.(jumpMultiplier := Apply(s.jumpMultiplier, z))
  }

  function Simulate(c: Config, s: Player, events: seq<Event>, e: Engine): Player
    decreases |events|
  {
    if |events| == 0 then s else Simulate(c, Handle(c, s, events[0], e), events[1..], e)
  }

  /** The board callbacks among the events, in order. */
  function BoardEvents(events: seq<Event>): seq<ZoneEvent>
    decreases |events|
  {
    if |events| == 0 then []
    else (if events[0].Board? then [events[0].zone] else []) + BoardEvents(events[1..])
  }

  /**
    The jump-count bound survives any interleaving of frames and board
    callbacks: a character spawned with a zero count never counts more than
    max(1, ExtraJumpCount) jumps.
   */
  lemma {:induction false} SimulationKeepsJumpCountBounded(c: Config, s: Player, events: seq<Event>, e: Engine)
    requires JumpCountBounded(c, s)
    ensures JumpCountBounded(c, Simulate(c, s, events, e))
    decreases |events|
  {
    if |events| > 0 {
      var next := Handle(c, s, events[0], e);
      if events[0].Tick? {
        StepKeepsJumpCountBounded(c, s, Frame(s.grounded, events[0].frame.dt, events[0].frame.write), e.sqrt);
      }
      assert JumpCountBounded(c, next);
      SimulationKeepsJumpCountBounded(c, next, events[1..], e);
    }
  }

  /**
    The frames never touch the multiplier: after any interleaving it is what
    the board callbacks alone make of the initial value.
   */
  lemma {:induction false} MultiplierFollowsBoards(c: Config, s: Player, events: seq<Event>, e: Engine)
    ensures Simulate(c, s, events, e).jumpMultiplier == Replay(s.jumpMultiplier, BoardEvents(events))
    decreases |events|
  {
    if |events| > 0 {
      var next := Handle(c, s, events[0], e);
      MultiplierFollowsBoards(c, next, events[1..], e);
      if events[0].Board? {
        var z := events[0].zone;
        assert BoardEvents(events) == [z] + BoardEvents(events[1..]);
        assert ([z] + BoardEvents(events[1..]))[1..] == BoardEvents(events[1..]);
      } else {
        assert BoardEvents(events) == BoardEvents(events[1..]);
      }
    }
  }

  /**
    A spawned character stays within the jump-count bound for the whole
    session, and its multiplier is the board callbacks replayed from the
    configured starting multiplier (1 unless the scene overrides the field).
   */
  lemma SpawnedCharacterBounded(c: Config, at: Vec3, events: seq<Event>, e: Engine)
    ensures JumpCountBounded(c, Simulate(c, Spawn(c, at), events, e))
    ensures Simulate(c, Spawn(c, at), events, e).jumpMultiplier
            == Replay(c.jumpMultiplier, BoardEvents(events))
  {
    SimulationKeepsJumpCountBounded(c, Spawn(c, at), events, e);
    MultiplierFollowsBoards(c, Spawn(c, at), events, e);
  }

  /**
    A jump taken on a board uses the board's boost: entering, then a grounded
    frame with an expired jump timeout and a jump press, takes off at
    sqrt(JumpHeight * boost * -2 * Gravity), with gravity applied as usual,
    unless the frame ends in a respawn.
   */
  lemma BoostedJump(c: Config, s: Player, boost: real, player: Collider, f: FrameInput, e: Engine)
    requires IsPlayer(player)
    requires s.grounded && s.jumpTimeoutDelta <= 0.0 && f.write == Write(true)
    ensures var r := Simulate(c, s, [Board(Enter(boost, player)), Tick(f)], e);
            && r.jumpMultiplier == boost
            && !r.jump
            && r.jumpCount == 1
            && ((r.verticalVelocity == 0.0 && r.position == c.respawnPosition)
                || r.verticalVelocity == WithGravity(c, JumpVelocity(c, boost, e.sqrt), f.dt))
  {
    var events := [Board(Enter(boost, player)), Tick(f)];
    var boosted := Handle(c, s, events[0], e);
    assert boosted.jumpMultiplier == boost;
    assert Simulate(c, s, events, e) == Simulate(c, boosted, events[1..], e);
    assert events[1..] == [Tick(f)];
    assert Simulate(c, boosted, [Tick(f)], e) == Update(c, boosted, f, e);
  }
}
