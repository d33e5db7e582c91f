# PlayerController — a verified model of the first-person player's per-frame state

This project models `PlayerController`, the Unity component that drives the
player of the game: it moves the physics body from the move input, turns the
camera pitch from the look input, lets the player jump only when standing on
something, and, provided the engine and foreign calls of a frame return
normally, fires a hitscan weapon at most once every 0.3 seconds while the
attack button is held, damaging the struck object only when it implements
`IDamageable`.

Layout, one module per part of the controller:

- `fire_control.dfy` (`FireControl`): the fire latch and cooldown as pure
  functions over a `FireState` and over traces of press / release / frame
  events, with the lemmas about shot spacing, the inclusive boundary and the
  cooldown surviving release and re-press.
- `orientation.dfy` (`Orientation`): `Mathf.Clamp` and the pitch accumulator.
- `locomotion.dfy` (`Locomotion`): the move direction, the velocity write that
  keeps the vertical component, and the grounded jump impulse.
- `hit_resolution.dfy` (`HitResolution`): the damage call a shot makes from a
  ray-cast result.
- `vectors.dfy` (`Vectors`): the real-valued vectors standing in for `Vector2`
  and `Vector3`.
- `player_controller.dfy` (`Player`): the class `PlayerController` with the
  source's fields (`lastShotTime`, `isShooting`, `verticalRotation`, the camera
  pitch and the body velocity `vx, vy, vz`) and methods that update them in
  place. Two ghost fields record every fire input and every shot time; the
  object invariant ties the fire fields to `FireControl.Run` over those inputs
  and keeps the shot history spaced by at least the fire rate.

Game time (`Time.time`), frame time (`Time.deltaTime`), the input values, the
ground probe's answer and the view-centre ray cast's hit are method parameters.
C# `float` is modelled as `real`.

`_lastShotTime` starts
at 0 (`Assets/Scripts/Player/PlayerController.cs:14`), so no shot fires before
game time 0.3; `FireControl.HoldFromStart` and `FireControl.NoShotBeforeCooldown`
state this.

## Model

| member | source | states |
|---|---|---|
| `FireControl.Step` | Assets/Scripts/Player/PlayerController.cs:24-40 | press sets the latch and release clears it without touching the last-shot time; a frame leaves the latch alone, records `now` when `Ready` holds, and otherwise changes nothing |
| `FireControl.Run` | Assets/Scripts/Player/PlayerController.cs:24-40 | the fire state after a trace of inputs; its last-shot time is the starting one or the time of one of the trace's frames |
| `FireControl.ShotsOf` | Assets/Scripts/Player/PlayerController.cs:35-40 | the shot times of a trace: no more shots than inputs, each the time of one of its frames |
| `FireControl.ConsistentStep` | Assets/Scripts/Player/PlayerController.cs:24-40 | one more press, release or frame keeps the fire state equal to `Run` and the shot history equal to `ShotsOf` over the extended trace, with spacing, the (k + 1) * 0.3 bound and the last-shot time preserved |
| `FireControl.FireIffReady` | Assets/Scripts/Player/PlayerController.cs:35-40 | (the gate is `Ready`, the shot a frame causes is `Fired`) a frame fires exactly when the latch is set and `now - lastShotTime >= 0.3`; a firing frame sets the last-shot time to `now`, a non-firing one keeps it; the latch is untouched |
| `FireControl.BoundaryInclusive` | Assets/Scripts/Player/PlayerController.cs:35 | while holding, the frame exactly 0.3 after the last shot is ready and every earlier frame is not |
| `FireControl.LatchKeepsCooldown` | Assets/Scripts/Player/PlayerController.cs:24-25 | press sets the latch, release clears it, and neither changes the last-shot time |
| `FireControl.CooldownSurvivesLatching` | Assets/Scripts/Player/PlayerController.cs:24-25 | any run of presses and releases fires nothing, keeps the last-shot time, and leaves the latch as the last of them set it |
| `FireControl.TraceSpaced` | Assets/Scripts/Player/PlayerController.cs:35-40 | along any event trace, consecutive shots are at least 0.3 apart, the first is at least 0.3 after the starting last-shot time, and the final last-shot time is that of the last shot; no monotone clock is needed |
| `FireControl.SpacedPairwise` | Assets/Scripts/Player/PlayerController.cs:35-39 | in a spaced history, shot j is at least (j - i) * 0.3 after shot i |
| `FireControl.NoShotBeforeCooldown` | Assets/Scripts/Player/PlayerController.cs:13-14 | from the initial state, shot k fires no earlier than (k + 1) * 0.3, so none fires before game time 0.3 |
| `FireControl.ShotHistory` | Assets/Scripts/Player/PlayerController.cs:35-40 | the shot history of any trace from the initial state is spaced, shot k is at or after (k + 1) * 0.3, and the last-shot time is the last shot's time or 0 |
| `FireControl.HoldFromStart` | Assets/Scripts/Player/PlayerController.cs:35-39 | holding from the start with frames at 0, 0.1, 0.3, 0.4, 0.6 fires at 0.3 and 0.6 only |
| `FireControl.ReleaseAndRepress` | Assets/Scripts/Player/PlayerController.cs:23-25 | a shot at 0.3, release, re-press at 0.5: the frame at 0.5 is refused and the one at 0.6 fires |
| `Orientation.Clamp` | Assets/Scripts/Player/PlayerController.cs:71 | the result lies in [lo, hi], equals the value when it is already inside, and is the point of the interval nearest to the value |
| `Orientation.NextPitch` | Assets/Scripts/Player/PlayerController.cs:70-71 | the new pitch is in [-89, 89] and is the nearest point of that range to `old - dy * 15 * dt`, equal to it when it is in range |
| `Orientation.PitchStaysInRange` | Assets/Scripts/Player/PlayerController.cs:70-71 | (`PitchAfter` is the pitch after repeated `HandleRotation` updates) starting in range, any number of rotation updates keeps the pitch in [-89, 89] |
| `Orientation.PitchInRangeAfterUpdate` | Assets/Scripts/Player/PlayerController.cs:70-71 | from any starting pitch, at least one update puts the pitch in range |
| `Orientation.PitchSaturates` | Assets/Scripts/Player/PlayerController.cs:70-71 | no vertical look input keeps an in-range pitch; pushing against a limit stays at the limit |
| `Locomotion.Direction` | Assets/Scripts/Player/PlayerController.cs:50 | zero move input gives the zero direction; a purely forward or purely sideways input gives the matching axis scaled |
| `Locomotion.MovedVelocity` | Assets/Scripts/Player/PlayerController.cs:55 | the vertical velocity component is carried over |
| `Locomotion.MovementOverwritesHorizontal` | Assets/Scripts/Player/PlayerController.cs:53-55 | the horizontal velocity after a movement update does not depend on the old velocity, and the vertical one is the old one |
| `Locomotion.ZeroInputStops` | Assets/Scripts/Player/PlayerController.cs:47-55 | zero move input gives zero horizontal velocity and keeps the vertical velocity |
| `Locomotion.HorizontalSpeedBound` | Assets/Scripts/Player/PlayerController.cs:53 | the horizontal speed never exceeds 10, and equals 10 for a non-zero horizontal direction |
| `Locomotion.JumpedVelocity` | Assets/Scripts/Player/PlayerController.cs:101-106 | not grounded leaves the velocity unchanged; grounded raises only the vertical component |
| `Locomotion.JumpIsAdditive` | Assets/Scripts/Player/PlayerController.cs:105 | a grounded jump adds 6 / mass to the vertical velocity whatever it was, rather than resetting it |
| `HitResolution.Shoot` | Assets/Scripts/Player/PlayerController.cs:83-88 | `Damage` is called exactly when the ray cast hit something that has `IDamageable`, and then with that hit |
| `Player.PlayerController.constructor` | Assets/Scripts/Player/PlayerController.cs:12-17 | a new player is not firing, has last-shot time 0 and pitch accumulator 0, is at rest, keeps the camera's scene pitch until the first rotation update, and satisfies the invariant |
| `Player.PlayerController.Press` | Assets/Scripts/Player/PlayerController.cs:24 | sets the latch and changes nothing else but the input record; the invariant is kept |
| `Player.PlayerController.Release` | Assets/Scripts/Player/PlayerController.cs:25 | clears the latch and changes nothing else but the input record; the invariant is kept |
| `Player.PlayerController.Fire` | Assets/Scripts/Player/PlayerController.cs:35-40 | fires iff the latch is set and the elapsed time reaches 0.3; a shot records `now` and makes the damage call of `Shoot`; a new shot is at least 0.3 after the previous one; nothing else changes |
| `Player.PlayerController.Rotate` | Assets/Scripts/Player/PlayerController.cs:70-73 | the pitch becomes `NextPitch` of the old pitch, stays in range, and replaces the camera pitch; from then on the camera pitch equals the accumulator |
| `Player.PlayerController.Move` | Assets/Scripts/Player/PlayerController.cs:47-55 | the velocity becomes `MovedVelocity` of the old one; vertical velocity is kept; zero input stops the body horizontally |
| `Player.PlayerController.Jump` | Assets/Scripts/Player/PlayerController.cs:101-106 | not grounded leaves the velocity unchanged; grounded adds 6 / mass to the vertical velocity only |
| `Player.PlayerController.Update` | Assets/Scripts/Player/PlayerController.cs:28-42 | one frame: movement, then pitch, then the fire gate, with the combined effect of the three |

## Left out

- `Assets/Scripts/Player/PlayerSpawner.cs`: random choice of a spawn point and the inherited `Spawn` call; no state of its own.
- The Input System wiring in `Start`, `Cursor.lockState`, `AudioSource.PlayOneShot`, `Animator.SetTrigger` and `GameManager.Instance`: engine and presentation calls. The ghost shot history records when the shot cues (trigger and sound) happen.
- `Physics.Raycast` (the 1.3-unit ground probe and the hitscan) and `Camera.main.ViewportPointToRay`: engine queries, taken as the `grounded` and `ray` parameters.
- Yaw (`Quaternion.Euler`, `currentRotation * yawRotation`, `MoveRotation`): quaternion numerics; only the pitch half of `HandleRotation` is modelled, and the horizontal look delta is unused.
- `Vector3.normalized`: square-root numerics; the normalised direction is a parameter related to the raw one by `Locomotion.IsNormalizationOf` (zero for zero, otherwise a unit-length positive multiple). Unity also returns zero for vectors shorter than 1e-5, which the relation does not allow.
- The camera's pitch in the scene before the first `Update` is a constructor parameter (`scenePitch`); the camera's other rotation axes are not modelled.
- `Rigidbody.AddForce(..., ForceMode.Impulse)`: modelled as an immediate velocity change of 6 / mass; that the engine applies it at the next physics step, and gravity and collisions, are not modelled.
- The frame's engine and foreign calls (`Camera.main`, `Animator.SetTrigger`, `AudioSource.PlayOneShot`, `GameManager.Instance`, `IDamageable.Damage`) are assumed to return. In the source an exception in `Shoot` (line 38) skips line 39, so the cooldown is not recorded and the next frame fires again; and an exception at line 73 (no main camera) ends `Update` before the fire gate. The model's `Fire` always records the shot time, so its spacing guarantee holds only when those calls return.
- C# `float` rounding: the model uses exact reals, so `0.3f`, `Time.time` and the subtraction in the fire gate are exact here.
- `Player.PlayerController.Move` does not take or return the object invariant: it changes only the velocity, which the invariant does not read, so callers keep it by framing.
