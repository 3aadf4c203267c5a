/** Three-component vectors: positions and RGB colours alike. */
module Vectors {

  datatype Vec3 = Vec3(x: real, y: real, z: real)

  const Zero: Vec3 := Vec3(0.0, 0.0, 0.0)

  function Scale(v: Vec3, k: real): Vec3 {
    Vec3(v.x * k, v.y * k, v.z * k)
  }

  /** The squared Euclidean length. */
  function NormSquared(v: Vec3): (n: real)
    ensures 0.0 <= n
  {
    v.x * v.x + v.y * v.y + v.z * v.z
  }

  /** Scaling multiplies the squared length by the square of the factor. */
  lemma NormSquaredScale(v: Vec3, k: real)
    ensures NormSquared(Scale(v, k)) == k * k * NormSquared(v)
  {
    assert v.x * k * (v.x * k) == k * k * (v.x * v.x);
    assert v.y * k * (v.y * k) == k * k * (v.y * v.y);
    assert v.z * k * (v.z * k) == k * k * (v.z * v.z);
  }
}
