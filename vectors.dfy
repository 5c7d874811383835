/** Three-component real vectors: the `[x, y, z]` lists that hold position,
    velocity, accelerometer triples and the gravity offset. */
module Vectors {

  datatype Vec3 = Vec3(x: real, y: real, z: real)

  const Zero := Vec3(0.0, 0.0, 0.0)

  function Abs(r: real): real {
    if r < 0.0 then -r else r
  }

  function Add(a: Vec3, b: Vec3): Vec3 {
    Vec3(a.x + b.x, a.y + b.y, a.z + b.z)
  }

  function Sub(a: Vec3, b: Vec3): Vec3 {
    Vec3(a.x - b.x, a.y - b.y, a.z - b.z)
  }

  function Scale(a: Vec3, k: real): Vec3 {
    Vec3(a.x * k, a.y * k, a.z * k)
  }

  /** Every component lies in [-limit, limit]. */
  predicate InBox(v: Vec3, limit: real) {
    Abs(v.x) <= limit && Abs(v.y) <= limit && Abs(v.z) <= limit
  }
}
