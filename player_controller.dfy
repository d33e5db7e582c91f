/**
  The per-frame state of the first-person player controller: the fire latch and
  cooldown, the pitch accumulator and the camera pitch it drives, and the
  velocity of the player's physics body. Game time, frame time, input values and
  the results of the engine's ray casts are parameters of the methods.
 */
module Player {

  import opened Vectors
  import opened FireControl
  import opened Orientation
  import opened Locomotion
  import opened HitResolution

  class PlayerController {
    /** Mass of the physics body, which turns the jump impulse into a velocity change. */
    const mass: real

    var lastShotTime: real
    var isShooting: bool
    /** The pitch accumulator, in degrees. */
    var verticalRotation: real
    /** Pitch of the camera's local rotation, in degrees. */
    var cameraPitch: real
    /** Whether a rotation update has run; until then the camera keeps the pitch it
        had in the scene. */
    ghost var rotated: bool
    /** Linear velocity of the physics body. */
    var vx: real
    var vy: real
    var vz: real

    /** Every press, release and frame the fire state has seen, in order. */
    ghost var inputs: seq<Input>
    /** The game times of every shot fired so far, in order. */
    ghost var shots: seq<real>

    /** The object invariant. It does not depend on the body's velocity, which the
        controller only writes and never constrains. */
    ghost predicate Valid()
      reads this`verticalRotation, this`cameraPitch, this`isShooting, this`lastShotTime,
            this`inputs, this`shots, this`rotated
    {
      && mass > 0.0
      && InRange(verticalRotation)
      && (rotated ==> cameraPitch == verticalRotation)
      && Consistent(FireState(isShooting, lastShotTime), shots, inputs)
    }

    function Velocity(): Vec3
      reads this
    {
      Vec3(vx, vy, vz)
    }

    /** A freshly spawned player: not firing, last shot at time 0, pitch accumulator
        at 0, at rest. The camera keeps `scenePitch`, the pitch it was placed with,
        until the first rotation update. */
    constructor (mass: real, scenePitch: real)
      requires mass > 0.0
      ensures Valid()
      ensures this.mass == mass
      ensures !isShooting && lastShotTime == 0.0
      ensures verticalRotation == 0.0 && Velocity() == Zero
      ensures cameraPitch == scenePitch && !rotated
      ensures inputs == [] && shots == []
    {
      this.mass := mass;
      lastShotTime := 0.0;
      isShooting := false;
      verticalRotation := 0.0;
      cameraPitch := scenePitch;
      rotated := false;
      vx, vy, vz := 0.0, 0.0, 0.0;
      inputs := [];
      shots := [];
    }

    /** The attack action is performed: the latch is set; the cooldown is untouched. */
    method Press()
      requires Valid()
      modifies this`isShooting, this`inputs
      ensures Valid()
      ensures isShooting
      ensures inputs == old(inputs) + [Input.Press]
    {
      ConsistentStep(FireState(isShooting, lastShotTime), shots, inputs, Input.Press);
      isShooting := true;
      inputs := inputs + [Input.Press];
    }

    /** The attack action is cancelled: the latch is cleared; the cooldown is untouched. */
    method Release()
      requires Valid()
      modifies this`isShooting, this`inputs
      ensures Valid()
      ensures !isShooting
      ensures inputs == old(inputs) + [Input.Release]
    {
      ConsistentStep(FireState(isShooting, lastShotTime), shots, inputs, Input.Release);
      isShooting := false;
      inputs := inputs + [Input.Release];
    }

    /** The fire gate of one frame at game time `now`. `ray` is what the view-centre
        ray cast would return this frame; `damage` is the `Damage` call the shot makes. */
    method Fire(now: real, ray: Option<Hit>) returns (fired: bool, damage: Option<Hit>)
      requires Valid()
      modifies this`lastShotTime, this`inputs, this`shots
      ensures Valid()
      ensures fired <==> old(isShooting) && now - old(lastShotTime) >= FireRate
      ensures lastShotTime == (if fired then now else old(lastShotTime))
      ensures damage == (if fired then Shoot(ray) else None)
      ensures shots == old(shots) + (if fired then [now] else [])
      ensures fired && old(shots) != [] ==> now - old(shots)[|old(shots)| - 1] >= FireRate
      ensures inputs == old(inputs) + [Tick(now)]
    {
      ConsistentStep(FireState(isShooting, lastShotTime), shots, inputs, Tick(now));
      fired := Ready(FireState(isShooting, lastShotTime), now);
      if fired {
        damage := Shoot(ray);
        lastShotTime := now;
      } else {
        damage := None;
      }
      inputs := inputs + [Tick(now)];
      shots := shots + (if fired then [now] else []);
    }

    /** `HandleRotation`, pitch part: the accumulator moves by the vertical look
        delta, is clamped, and replaces the camera pitch outright. */
    method Rotate(dy: real, dt: real)
      requires Valid()
      modifies this`verticalRotation, this`cameraPitch, this`rotated
      ensures Valid()
      ensures verticalRotation == NextPitch(old(verticalRotation), dy, dt)
      ensures InRange(verticalRotation)
      ensures cameraPitch == verticalRotation && rotated
    {
      verticalRotation := verticalRotation - dy * RotationSpeed * dt;
      verticalRotation := Clamp(verticalRotation, -PitchLimit, PitchLimit);
      cameraPitch := verticalRotation;
      rotated := true;
    }

    /** `HandleMovement`: `dir` is the normalisation of the move direction built from
        the body's axes and the move input. The horizontal velocity is overwritten
        and the vertical velocity kept. Only the velocity changes, and `Valid` does
        not read it, so a caller's `Valid()` survives the call. */
    method Move(forward: Vec3, right: Vec3, input: Vec2, dir: Vec3)
      requires IsNormalizationOf(dir, Direction(forward, right, input))
      modifies this`vx, this`vz
      ensures Velocity() == MovedVelocity(old(Velocity()), dir)
      ensures vy == old(vy)
      ensures input == Vec2(0.0, 0.0) ==> vx == 0.0 && vz == 0.0
    {
      if input == Vec2(0.0, 0.0) {
        assert Direction(forward, right, input) == Zero;
        assert dir == Zero;
      }
      var movementVelocity := Scale(dir, MovementSpeed);
      vx, vz := movementVelocity.x, movementVelocity.z;
    }

    /** `HandleJump`: `grounded` is the result of the ground probe. */
    method Jump(grounded: bool)
      requires Valid()
      modifies this`vy
      ensures Valid()
      ensures Velocity() == JumpedVelocity(old(Velocity()), grounded, mass)
      ensures !grounded ==> vy == old(vy)
      ensures grounded ==> vy == old(vy) + JumpImpulse / mass
    {
      if !grounded {
        return;
      }
      vy := vy + JumpImpulse / mass;
    }

    /** `Update`: movement, then pitch, then the fire gate, all in one frame. */
    method Update(now: real, dt: real, forward: Vec3, right: Vec3, move: Vec2, dir: Vec3,
                  look: Vec2, ray: Option<Hit>)
      returns (fired: bool, damage: Option<Hit>)
      requires Valid()
      requires IsNormalizationOf(dir, Direction(forward, right, move))
      modifies this
      ensures Valid()
      ensures Velocity() == MovedVelocity(old(Velocity()), dir)
      ensures verticalRotation == NextPitch(old(verticalRotation), look.y, dt)
      ensures cameraPitch == verticalRotation
      ensures isShooting == old(isShooting)
      ensures fired <==> old(isShooting) && now - old(lastShotTime) >= FireRate
      ensures lastShotTime == (if fired then now else old(lastShotTime))
      ensures damage == (if fired then Shoot(ray) else None)
      ensures shots == old(shots) + (if fired then [now] else [])
      ensures inputs == old(inputs) + [Tick(now)]
    {
      Move(forward, right, move, dir);
      Rotate(look.y, dt);
      fired, damage := Fire(now, ray);
    }
  }

  /** A client run: a press, frames at 0.2 and 0.3, release, press again and a
      frame at 0.5; only the frame at 0.3 fires, and the damage goes to the struck
      damageable target. */
  method HoldReleaseRepress(hit: Hit)
    requires hit.target.damageable
  {
    var p := new PlayerController(1.0, 0.0);
    p.Press();
    var f1, d1 := p.Fire(0.2, Some(hit));
    assert !f1 && d1 == None && p.shots == [] && p.lastShotTime == 0.0;
    var f2, d2 := p.Fire(0.3, Some(hit));
    assert f2 && d2 == Some(hit) && p.shots == [0.3] && p.lastShotTime == 0.3;
    p.Release();
    p.Press();
    var f3, d3 := p.Fire(0.5, Some(hit));
    assert !f3 && p.lastShotTime == 0.3 && p.shots == [0.3];
  }
}
