# First-person controller: vertical motion, speed selection and jump boards

This project is a Dafny model of the core of a Unity first-person character
controller (`FirstPersonController`) and of the jump-board trigger
(`Jumpboard`). All floats are modelled as `real`, and every controller
behaviour is a pure function over an immutable `Player` state.

- `Controller` holds the data: the inspector configuration (`Config`) with its
  shipped defaults, including the serialized starting values of the public
  `JumpMultiplier` and `Grounded` fields, the hard-coded constants (terminal velocity +53, resting
  velocity -2, speed deadband 0.1) and the per-character state `Player`.
- `Motor` models `JumpAndGravity`, the per-frame vertical step. It covers
  ground-resting, jump acceptance on the ground and in the air, the jump and
  fall timers, and gravity integration.
- `MotorRuns` holds sequences of vertical steps, with arbitrary writes to the
  jump flag by the input system between steps. Its lemmas cover the
  jump-count bound, flag consumption, the landing lockout, the timer floor
  and the fall behaviour of the code as written.
- `Locomotion` models the speed selection in `Move`: target speed, deadband
  snap, the Lerp blend and the requested displacement.
- `Camera` models `ClampAngle`.
- `Respawn` models `CheckFallRespawn`.
- `Jumpboard` models the two trigger callbacks as writers of the jump
  multiplier. It also proves that the last writer wins when several boards
  overlap.
- `Frames` models `Update` in its real order: vertical step, ground check,
  Move, respawn. It also models runs of frames interleaved with jump-board
  callbacks.

The engine supplies several values, and the model takes them as inputs. The
ground-sphere result is a boolean. The measured horizontal speed is a number.
The normalised travel direction is a `Heading`. `Time.deltaTime` is `dt`.
The collision-resolving `CharacterController.Move` is a function parameter
`resolve`. `Mathf.Sqrt` and the three-decimal rounding are also function
parameters (`sqrt`, `quantize`). `Mathf.Lerp` and `Mathf.Clamp` are modelled
exactly.

## The code as written

Some names in `FirstPersonController.cs` suggest more than the code does.
The model follows what the code does:

- **Terminal velocity.** `_terminalVelocity` = 53 (line 44) suggests a cap on
  falls. The guard at line 174 is `_verticalVelocity < _terminalVelocity`, so
  gravity is added to every velocity below +53. A fall is therefore never
  capped (`MotorRuns.FallIsUnbounded`). Only upward motion at +53 or more
  escapes gravity, and it then never slows (`MotorRuns.FastRiseNeverSlows`).
- **Jump count.** `ExtraJumpCount` (line 56) suggests that many jumps on top
  of the ground jump. But an air jump needs `_jumpCount < ExtraJumpCount`
  (line 166), and a ground jump sets the count to 1 (lines 146 and 151). While
  airborne the counter is bounded by `max(1, ExtraJumpCount)`, not
  `ExtraJumpCount + 1`. With the default of 1, a ground jump allows no air
  jump once the following frames are airborne, and walking off a ledge allows
  one. The ground check runs before `Move` (lines 80-81), so the frame after a
  jump from rest usually still senses the ground. That next frame resets the
  count to 0 (line 146), and since the jump timeout is not re-armed, a second
  press is accepted as another ground jump
  (`Frames.JumpFromRestStillGroundedNextFrame`).
- **Climbing.** `Ladder.cs` calls `EnterLadder`/`ExitLadder` (line 12), which
  the controller does not define, so there is no climbing state.
- **Ground flag.** `JumpAndGravity` runs before `GroundedCheck`, so each frame's
  vertical step sees the previous frame's ground contact
  (`Frames.ContactTakesEffectNextFrame`).

## Model

| member | source | states |
|---|---|---|
| `Motor.JumpAndGravity` | Assets/Scripts/FirstPersonController.cs:137-178 | The step writes only the vertical fields. The jump flag is cleared exactly when a jump is accepted. A grounded step leaves the count at 0 or 1 (1 iff it jumped) and re-arms the fall timer. An airborne step adds the accepted jump to the count and re-arms the jump timer. The other timer only counts down while it is >= 0. A grounded jump needs an expired timer. An accepted jump ends at the same take-off speed plus gravity in both branches. A grounded fall ends at -2 + Gravity*dt. |
| `Motor.GravityGuard` | Assets/Scripts/FirstPersonController.cs:174-177 | Gravity changes the velocity exactly when it is below the terminal velocity, and then by exactly Gravity*dt. |
| `Motor.TimersOnlyRiseByReset` | Assets/Scripts/FirstPersonController.cs:154-165 | With dt >= 0, neither timer ever grows except through its branch's reset to JumpTimeout or FallTimeout. |
| `Motor.DefaultJumpVelocity` | Assets/Scripts/FirstPersonController.cs:150 | With the default JumpHeight 1.2, Gravity -15 and multiplier 1, the take-off speed is sqrt(36). |
| `MotorRuns.StepKeepsJumpCountBounded` | Assets/Scripts/FirstPersonController.cs:146-171 | One frame keeps the jump counter within [0, max(1, ExtraJumpCount)]. |
| `MotorRuns.JumpCountBoundedOverRun` | Assets/Scripts/FirstPersonController.cs:55-56 | From a count of 0, the counter stays within [0, max(1, ExtraJumpCount)] over any sequence of frames and jump presses. |
| `MotorRuns.AirJumpsCounted` | Assets/Scripts/FirstPersonController.cs:166-171 | While airborne, the counter grows by exactly the number of accepted jumps. Those jumps number at most ExtraJumpCount minus the count on leaving the ground, and none once that is reached. |
| `MotorRuns.PendingJumpPersists` | Assets/Scripts/FirstPersonController.cs:148-171 | Without new presses, a run accepts at most one jump, and only if one was pending. The flag is still set at the end iff no jump was accepted, so a buffered jump waits. |
| `MotorRuns.LandingBlocksJump` | Assets/Scripts/FirstPersonController.cs:148-161 | With JumpTimeout > 0, the first grounded frame after an airborne frame never accepts a jump, and it resets the count to 0. |
| `MotorRuns.LandingLockout` | Assets/Scripts/FirstPersonController.cs:148-157 | Over k grounded frames of equal dt, the jump timer counts down to T - k*dt, and no jump is accepted while T - (k-1)*dt > 0. |
| `MotorRuns.TimersStayAboveFloor` | Assets/Scripts/FirstPersonController.cs:154-165 | With frame times <= d and timeouts >= -d, timers that start >= -d never drop below -d. |
| `MotorRuns.FallIsUnbounded` | Assets/Scripts/FirstPersonController.cs:174-177 | Free fall from below +53 reaches v + Gravity*T after total time T, so the +53 guard never caps a fall. |
| `MotorRuns.FastRiseNeverSlows` | Assets/Scripts/FirstPersonController.cs:44 | An airborne character rising at +53 or more with no jump keeps that velocity on every later frame. |
| `Locomotion.TargetSpeed` | Assets/Scripts/FirstPersonController.cs:111-112 | The target is 0 with no move input, SprintSpeed when sprinting, and MoveSpeed otherwise. "No move input" is Unity's approximate `Vector2 ==` against zero: squared length below 1e-10. |
| `Locomotion.Lerp` | Assets/Scripts/FirstPersonController.cs:120 | The blend returns a for t <= 0 and b for t >= 1, and always lies between a and b. |
| `Locomotion.HorizontalSpeed` | Assets/Scripts/FirstPersonController.cs:115-126 | Within 0.1 of the target, the speed is exactly the target. Outside that band, it is the rounded Lerp from the current speed toward target*inputMagnitude at rate SpeedChangeRate*dt. |
| `Locomotion.BlendStaysBetween` | Assets/Scripts/FirstPersonController.cs:118-122 | Without rounding, a blended speed lies between the current speed and the scaled target, and a full-rate blend reaches the target. |
| `Locomotion.SnappedSpeedIsStable` | Assets/Scripts/FirstPersonController.cs:123-126 | A corollary of the deadband clause of `HorizontalSpeed`: a measured speed equal to the target yields exactly the target, whatever the rounding does. |
| `Locomotion.Displacement` | Assets/Scripts/FirstPersonController.cs:128-134 | The vertical component is exactly verticalVelocity*dt. With no move input (squared length below 1e-10, as Unity's `Vector2 !=` decides) there is no horizontal component. Otherwise it is heading*speed*dt. |
| `Camera.ClampAngle` | Assets/Scripts/FirstPersonController.cs:180-185 | With min <= max, the result lies in [min, max]. An angle already inside both the range and [-360, 360] is returned unchanged. The result is min, max or the unwound angle. Exactly: min when the unwound angle is below min, otherwise max when it is above max, otherwise the unwound angle. |
| `Camera.ClampAngleIdempotent` | Assets/Scripts/FirstPersonController.cs:180-185 | For a range inside [-360, 360], clamping twice gives the same result as clamping once. |
| `Camera.UnwindIsWholeTurns` | Assets/Scripts/FirstPersonController.cs:182-183 | The wrap moves an angle by zero or one full turn, and leaves angles in [-360, 360] unchanged. |
| `Respawn.CheckFallRespawn` | Assets/Scripts/FirstPersonController.cs:195-204 | State changes only when y < FallThreshold. It then sets position to RespawnPosition and vertical velocity to 0, and leaves everything else unchanged. |
| `Respawn.RespawnSettles` | Assets/Scripts/FirstPersonController.cs:197-201 | With the respawn point at or above the threshold, the result is above the threshold and a second check is a no-op. |
| `Respawn.DefaultRespawnSettles` | Assets/Scripts/FirstPersonController.cs:37-38 | With the default threshold -20 and respawn at the origin, a respawned character is above the threshold. |
| `Jumpboard.OnTriggerEnter` | Assets/Scripts/Jumpboard.cs:7-17 | A Player-tagged collider with a controller sets the multiplier to the board's boost. Any other collider leaves it unchanged. |
| `Jumpboard.OnTriggerExit` | Assets/Scripts/Jumpboard.cs:19-29 | A Player-tagged collider with a controller sets the multiplier to exactly 1, whatever it was. Any other collider leaves it unchanged. |
| `Jumpboard.EnterThenExitRestores` | Assets/Scripts/Jumpboard.cs:14-26 | Entering then leaving a board gives exactly 1, for any boost. |
| `Jumpboard.CallbacksIdempotent` | Assets/Scripts/Jumpboard.cs:7-29 | Repeating either callback changes nothing further. |
| `Jumpboard.LastWriterWins` | Assets/Scripts/Jumpboard.cs:9-26 | After any sequence of callbacks from any number of boards, the multiplier is the value of the last player callback, or the initial value if there was none. |
| `Jumpboard.ExitResetsDespiteOverlap` | Assets/Scripts/Jumpboard.cs:21-26 | A final player exit leaves exactly 1, even if another board was entered and never left. |
| `Frames.Move` | Assets/Scripts/FirstPersonController.cs:109-135 | Move writes only speed and position. It snaps to the target inside the deadband, and the engine receives the Displacement built from the chosen speed and the vertical velocity. |
| `Frames.Update` | Assets/Scripts/FirstPersonController.cs:77-83 | A frame stores this frame's contact. It consumes the jump flag according to the stored flag's step. It never touches the multiplier. It keeps the step's counter and timers. It ends either respawned at rest or with the step's velocity. |
| `Frames.ContactTakesEffectNextFrame` | Assets/Scripts/FirstPersonController.cs:79-80 | Two frames that differ only in the sensed contact end in the same state apart from the stored flag. |
| `Frames.FrameMovesByVerticalVelocity` | Assets/Scripts/FirstPersonController.cs:79-82 | The engine is asked to move vertically by the step's velocity times dt. If that ends below the threshold, the frame ends respawned at rest. Otherwise the moved state is final. |
| `Frames.SimulationKeepsJumpCountBounded` | Assets/Scripts/FirstPersonController.cs:146-171 | The jump-count bound survives any interleaving of frames and board callbacks. |
| `Frames.MultiplierFollowsBoards` | Assets/Scripts/FirstPersonController.cs:19 | Over any interleaving, the multiplier is exactly what the board callbacks alone make of its initial value. |
| `Frames.SpawnedCharacterBounded` | Assets/Scripts/FirstPersonController.cs:68-75 | A character spawned as Start() leaves it stays within the jump-count bound for the whole session. Its multiplier is the board callbacks replayed from the serialized starting `JumpMultiplier` (1 by default, line 19). |
| `Frames.JumpFromRestStillGroundedNextFrame` | Assets/Scripts/FirstPersonController.cs:79-81 | A grounded jump frame that still senses contact ends with count 1 and the ground flag set. The next frame resets the count to 0 without a press, and with a press and dt >= 0 accepts another ground jump (count 1). |
| `Frames.BoostedJump` | Assets/Scripts/FirstPersonController.cs:148-153 | After entering a board, a grounded frame with an expired timer and a press takes off at sqrt(JumpHeight*boost*-2*Gravity) plus gravity, unless it respawns. The flag is cleared and the count is 1. |

## Left out

- Ladder climbing: the ladder trigger calls `EnterLadder`/`ExitLadder`, which the controller does not define, so there is no climbing behaviour to model.
- `CameraRotation`: the look threshold, the pitch and yaw accumulation, and the quaternion and transform updates are engine work. Only its `ClampAngle` helper is modelled.
- `GroundedCheck`: `Physics.CheckSphere` is the engine's query. Its boolean result is the frame input `contact`.
- Engine calls and lookups: `CharacterController.Move` (the `resolve` parameter), `controller.velocity` (the measured speed input), `transform.right`/`forward` and normalisation (the `Heading` input), `GetComponent`, `CompareTag` (the collider's tag and controller flag), `Awake`/`Start` wiring and the gizmo drawing.
- `Locomotion.HorizontalSpeed`: `Mathf.Sqrt` and the rounding `Mathf.Round(x*1000)/1000` are uninterpreted parameters, so no rounding behaviour is stated. The blend bounds hold only for the unrounded value (`BlendStaysBetween`).
- Speed convergence over many frames is not proved. It depends on the engine feeding the measured speed back and on the rounding, and both are outside the model.
- IEEE float behaviour: everything is `real`, so underflow, rounding and NaN are not modelled.
- 32-bit `int` wrap-around of the jump counter is not modelled. It cannot arise, because the counter is proved to stay within [0, max(1, ExtraJumpCount)].
- Concurrency: trigger callbacks are atomic updates between frames (`Frames.Event`), not writes in the middle of a frame.
