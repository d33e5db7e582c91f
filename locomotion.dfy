/**
  Movement and jumping of the player's physics body. Movement composes the 2D
  move input with the body's forward and right axes, normalises the result,
  scales it by the movement speed and writes it into the horizontal velocity
  components, keeping the vertical one. A jump adds a fixed upward impulse,
  and only when the ground probe (a 1.3-unit downward ray cast, an engine
  query) reports contact; its answer is taken as a boolean.
 */
module Locomotion {

  import opened Vectors

  /** Horizontal speed of the player, in units per second (`_movementSpeed`). */
  const MovementSpeed: real := 10.0

  /** Magnitude of the upward jump impulse (`Vector3.up * 6.0f`). */
  const JumpImpulse: real := 6.0

  /** `transform.forward * input.y + transform.right * input.x`. */
  function Direction(forward: Vec3, right: Vec3, input: Vec2): (d: Vec3)
    ensures input == Vec2(0.0, 0.0) ==> d == Zero
    ensures input.x == 0.0 ==> d == Scale(forward, input.y)
    ensures input.y == 0.0 ==> d == Scale(right, input.x)
  {
    Add(Scale(forward, input.y), Scale(right, input.x))
  }

  /** `n` is what `d.normalized` returns: the zero vector for the zero vector, and
      otherwise the vector of unit length pointing the same way as `d`. */
  ghost predicate IsNormalizationOf(n: Vec3, d: Vec3) {
    if d == Zero then n == Zero
    else SqNorm(n) == 1.0 && exists k: real :: k > 0.0 && n == Scale(d, k)
  }

  /** The body's velocity after a movement update with normalised direction `dir`:
      the horizontal components are replaced by the direction scaled to the
      movement speed, and the vertical component is carried over. */
  function MovedVelocity(v: Vec3, dir: Vec3): (r: Vec3)
    ensures r.y == v.y
  {
    Vec3(dir.x * MovementSpeed, v.y, dir.z * MovementSpeed)
  }

  /** The horizontal velocity after a movement update depends on the direction
      only: the old horizontal velocity is overwritten, not blended. */
  lemma MovementOverwritesHorizontal(v: Vec3, w: Vec3, dir: Vec3)
    ensures MovedVelocity(v, dir).x == MovedVelocity(w, dir).x
    ensures MovedVelocity(v, dir).z == MovedVelocity(w, dir).z
    ensures MovedVelocity(v, dir).y == v.y
  {
  }

  /** Zero move input stops the body horizontally at once, whatever it was doing,
      and leaves falling or rising untouched. */
  lemma ZeroInputStops(v: Vec3, forward: Vec3, right: Vec3, dir: Vec3)
    requires IsNormalizationOf(dir, Direction(forward, right, Vec2(0.0, 0.0)))
    ensures MovedVelocity(v, dir) == Vec3(0.0, v.y, 0.0)
  {
    assert Direction(forward, right, Vec2(0.0, 0.0)) == Zero;
    assert dir == Zero;
  }

  /** The horizontal speed after a movement update never exceeds `MovementSpeed`,
      and equals it for a non-zero direction that is itself horizontal (a body
      that only yaws has horizontal forward and right axes). */
  lemma HorizontalSpeedBound(v: Vec3, d: Vec3, dir: Vec3)
    requires IsNormalizationOf(dir, d)
    ensures var r := MovedVelocity(v, dir);
            r.x * r.x + r.z * r.z <= MovementSpeed * MovementSpeed
    ensures var r := MovedVelocity(v, dir);
            d != Zero && d.y == 0.0 ==> r.x * r.x + r.z * r.z == MovementSpeed * MovementSpeed
  {
  }

  /** `HandleJump`: when grounded the impulse is added to the current velocity
      (divided by the body's mass, as an impulse is); when not grounded the request
      is dropped. */
  function JumpedVelocity(v: Vec3, grounded: bool, mass: real): (r: Vec3)
    requires mass > 0.0
    ensures !grounded ==> r == v
    ensures grounded ==> r.x == v.x && r.z == v.z && r.y > v.y
  {
    if grounded then Vec3(v.x, v.y + JumpImpulse / mass, v.z) else v
  }

  /** The jump impulse is additive: the velocity change is the same whatever the
      body's current velocity, so a rising or falling body is not reset to a fixed
      vertical speed. */
  lemma JumpIsAdditive(v: Vec3, w: Vec3, mass: real)
    requires mass > 0.0
    ensures JumpedVelocity(v, true, mass).y - v.y == JumpedVelocity(w, true, mass).y - w.y
    ensures JumpedVelocity(v, true, mass).y - v.y == JumpImpulse / mass
  {
  }
}
