/**
  The data of the first-person controller: its tunable configuration, the
  constants it hard-codes, and the per-character state that the frame
  update, the jump boards and the respawn guard read and write.

  Every quantity the engine stores as a `float` is a `real` here.
 */
module Controller {

  /** A world-space position or displacement. */
  datatype Vec3 = Vec3(x: real, y: real, z: real)

  /**
    The inspector-tunable fields of the controller. `jumpMultiplier` and
    `grounded` are the serialized starting values of the two public fields
    that Start() does not reset; the jump boards and the ground check
    overwrite them later.
   */
  datatype Config = Config(
    jumpMultiplier: real,
    grounded: bool,
    moveSpeed: real,
    sprintSpeed: real,
    rotationSpeed: real,
    speedChangeRate: real,
    jumpHeight: real,
    gravity: real,
    jumpTimeout: real,
    fallTimeout: real,
    topClamp: real,
    bottomClamp: real,
    fallThreshold: real,
    respawnPosition: Vec3,
    extraJumpCount: int)

  /** The field initialisers of the controller; the respawn point defaults to the origin. */
  const Defaults: Config := Config(
    jumpMultiplier := 1.0,
    grounded := true,
    moveSpeed := 8.0,
    sprintSpeed := 16.0,
    rotationSpeed := 1.0,
    speedChangeRate := 10.0,
    jumpHeight := 1.2,
    gravity := -15.0,
    jumpTimeout := 0.1,
    fallTimeout := 0.15,
    topClamp := 90.0,
    bottomClamp := -90.0,
    fallThreshold := -20.0,
    respawnPosition := Vec3(0.0, 0.0, 0.0),
    extraJumpCount := 1)

  /** Gravity is integrated only while the vertical velocity is below this (note the sign: +53). */
  const TerminalVelocity: real := 53.0

  /** The small downward velocity a grounded, falling character is held at. */
  const RestingVelocity: real := -2.0

  /** Half-width of the band around the target speed inside which the speed snaps. */
  const SpeedOffset: real := 0.1

  /** The jump multiplier a character starts with and a jump board's exit restores. */
  const NormalJumpMultiplier: real := 1.0

  /**
    Everything the controller keeps between frames. `grounded` is the public
    Grounded flag (last written by the ground check), `jump` is the input
    system's pending jump flag, `speed` the last horizontal speed chosen.
   */
  datatype Player = Player(
    grounded: bool,
    verticalVelocity: real,
    jumpCount: int,
    jumpTimeoutDelta: real,
    fallTimeoutDelta: real,
    jumpMultiplier: real,
    jump: bool,
    speed: real,
    position: Vec3)

  /** The most jumps the counter can reach between two grounded frames. */
  function JumpCap(c: Config): (k: int)
    ensures k >= 1 && k >= c.extraJumpCount
    ensures k == 1 || k == c.extraJumpCount
  {
    if c.extraJumpCount > 1 then c.extraJumpCount else 1
  }

  /** The state after the serialized fields and Start(): both timers armed, nothing pending. */
  function Spawn(c: Config, at: Vec3): Player
  {
    Player(
      grounded := c.grounded,
      verticalVelocity := 0.0,
      jumpCount := 0,
      jumpTimeoutDelta := c.jumpTimeout,
      fallTimeoutDelta := c.fallTimeout,
      jumpMultiplier := c.jumpMultiplier,
      jump := false,
      speed := 0.0,
      position := at)
  }
}
