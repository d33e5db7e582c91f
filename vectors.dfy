/** Plain vector arithmetic over reals, standing in for Unity's `Vector2` and `Vector3`. */
module Vectors {

  datatype Vec2 = Vec2(x: real, y: real)

  datatype Vec3 = Vec3(x: real, y: real, z: real)

  const Zero: Vec3 := Vec3(0.0, 0.0, 0.0)

  function Add(a: Vec3, b: Vec3): Vec3 {
    Vec3(a.x + b.x, a.y + b.y, a.z + b.z)
  }

  function Scale(a: Vec3, k: real): Vec3 {
    Vec3(a.x * k, a.y * k, a.z * k)
  }

  /** The squared length of a vector. */
  function SqNorm(a: Vec3): real {
    a.x * a.x + a.y * a.y + a.z * a.z
  }
}
