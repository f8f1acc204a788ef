/** Three-dimensional vectors over exact reals. */
module Geometry {

  datatype Vec3 = Vec3(x: real, y: real, z: real)

  function Dot(a: Vec3, b: Vec3): real {
    a.x * b.x + a.y * b.y + a.z * b.z
  }

  /** The squared Euclidean norm; the model compares squared norms instead of
      taking square roots. */
  function NormSq(v: Vec3): (r: real)
    ensures r >= 0.0
  {
    Dot(v, v)
  }

  function Abs(r: real): real {
    if r < 0.0 then -r else r
  }
}
