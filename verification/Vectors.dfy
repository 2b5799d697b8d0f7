/** Vectors and matrices over the reals, as far as camera geometry needs them. */
module Vectors {
  datatype Vec3 = Vec3(x: real, y: real, z: real)

  /** A matrix by its rows. */
  datatype Mat3 = Mat3(x: Vec3, y: Vec3, z: Vec3)

  const ZERO: Vec3 := Vec3(0.0, 0.0, 0.0)

  function Dot(a: Vec3, b: Vec3): real {
    a.x * b.x + a.y * b.y + a.z * b.z
  }

  function Add(a: Vec3, b: Vec3): Vec3 {
    Vec3(a.x + b.x, a.y + b.y, a.z + b.z)
  }

  function Cross(a: Vec3, b: Vec3): Vec3 {
    Vec3(a.y * b.z - a.z * b.y, a.z * b.x - a.x * b.z, a.x * b.y - a.y * b.x)
  }

  function Times(m: Mat3, v: Vec3): Vec3 {
    Vec3(Dot(m.x, v), Dot(m.y, v), Dot(m.z, v))
  }
}
