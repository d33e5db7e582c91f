/**
  Pitch handling of the player's look input: the accumulated vertical rotation
  is decreased by the vertical look delta scaled by the rotation speed and the
  frame time, then clamped to [-89, 89] degrees (Unity's `Mathf.Clamp`).
 */
module Orientation {

  /** Degrees of rotation per unit of look input per second (`_rotationSpeed`). */
  const RotationSpeed: real := 15.0

  /** Pitch is kept within [-PitchLimit, PitchLimit] degrees. */
  const PitchLimit: real := 89.0

  predicate InRange(pitch: real) {
    -PitchLimit <= pitch <= PitchLimit
  }

  function Dist(a: real, b: real): real {
    if a >= b then a - b else b - a
  }

  /** `r` is the point of [lo, hi] nearest to `v`. */
  ghost predicate NearestIn(r: real, v: real, lo: real, hi: real) {
    lo <= r <= hi && forall w :: lo <= w <= hi ==> Dist(r, v) <= Dist(w, v)
  }

  /** `Mathf.Clamp(v, lo, hi)`: the value itself when it lies in the interval,
      and otherwise the nearer end of the interval. */
  function Clamp(v: real, lo: real, hi: real): (r: real)
    requires lo <= hi
    ensures lo <= r <= hi
    ensures lo <= v <= hi ==> r == v
    ensures NearestIn(r, v, lo, hi)
  {
    if v < lo then lo else if v > hi then hi else v
  }

  /** The pitch accumulator after one rotation update with vertical look delta
      `dy` over a frame of `dt` seconds. */
  function NextPitch(pitch: real, dy: real, dt: real): (r: real)
    ensures InRange(r)
    ensures NearestIn(r, pitch - dy * RotationSpeed * dt, -PitchLimit, PitchLimit)
    ensures InRange(pitch - dy * RotationSpeed * dt) ==> r == pitch - dy * RotationSpeed * dt
  {
    Clamp(pitch - dy * RotationSpeed * dt, -PitchLimit, PitchLimit)
  }

  /** One frame's look input as far as pitch is concerned. */
  datatype Look = Look(dy: real, dt: real)

  /** The pitch accumulator after a sequence of rotation updates. */
  function PitchAfter(pitch: real, looks: seq<Look>): real
    decreases |looks|
  {
    if looks == [] then pitch else PitchAfter(NextPitch(pitch, looks[0].dy, looks[0].dt), looks[1..])
  }

  /** Starting in range, the pitch stays in range after any number of updates,
      whatever their look deltas and frame times. */
  lemma {:induction false} PitchStaysInRange(pitch: real, looks: seq<Look>)
    requires InRange(pitch)
    ensures InRange(PitchAfter(pitch, looks))
    decreases |looks|
  {
    if looks != [] {
      PitchStaysInRange(NextPitch(pitch, looks[0].dy, looks[0].dt), looks[1..]);
    }
  }

  /** Whatever the starting pitch, once a single update has run the pitch is in range. */
  lemma {:induction false} PitchInRangeAfterUpdate(pitch: real, looks: seq<Look>)
    requires looks != []
    ensures InRange(PitchAfter(pitch, looks))
  {
    PitchStaysInRange(NextPitch(pitch, looks[0].dy, looks[0].dt), looks[1..]);
  }

  /** Without vertical look input an in-range pitch does not move; pushing further
      against a limit keeps the pitch at that limit. */
  lemma PitchSaturates(pitch: real, dy: real, dt: real)
    requires InRange(pitch)
    ensures NextPitch(pitch, 0.0, dt) == pitch
    ensures dy * dt <= 0.0 && pitch == PitchLimit ==> NextPitch(pitch, dy, dt) == PitchLimit
    ensures dy * dt >= 0.0 && pitch == -PitchLimit ==> NextPitch(pitch, dy, dt) == -PitchLimit
  {
  }
}
