/**
 * The System.Numerics vectors the layer packs its gate values into. Single
 * and double precision values are carried as reals: rounding is not modelled.
 */
module Vectors {

  /** A Vector3: contributions to the input gate, forget gate and cell candidate. */
  datatype Vec3 = Vec3(x: real, y: real, z: real)

  /**
   * A Vector4. In a projection weight X feeds the input gate, Y the forget
   * gate, Z the cell candidate and W the output gate.
   */
  datatype Vec4 = Vec4(x: real, y: real, z: real, w: real)

  /** A Vector4[][] projection matrix: one row per hidden unit, one cell per input feature. */
  type Matrix = seq<seq<Vec4>>

  /** Every row of `m` has exactly `h` cells. */
  predicate Rectangular(m: Matrix, h: int) {
    forall i :: 0 <= i < |m| ==> |m[i]| == h
  }

  function Add3(a: Vec3, b: Vec3): Vec3 {
    Vec3(a.x + b.x, a.y + b.y, a.z + b.z)
  }

  /** `v * k` for a Vector3 and a scalar. */
  function Scale3(v: Vec3, k: real): Vec3 {
    Vec3(v.x * k, v.y * k, v.z * k)
  }

  /** Element-wise product of two Vector3 values. */
  function Mul3(a: Vec3, b: Vec3): Vec3 {
    Vec3(a.x * b.x, a.y * b.y, a.z * b.z)
  }

  function Add4(a: Vec4, b: Vec4): Vec4 {
    Vec4(a.x + b.x, a.y + b.y, a.z + b.z, a.w + b.w)
  }

  /** Element-wise product of two Vector4 values. */
  function Mul4(a: Vec4, b: Vec4): Vec4 {
    Vec4(a.x * b.x, a.y * b.y, a.z * b.z, a.w * b.w)
  }

  /** The Vector4(Vector3, float) constructor: the three channels of `v`, then `w`. */
  function Extend(v: Vec3, w: real): Vec4 {
    Vec4(v.x, v.y, v.z, w)
  }

  const Zero3: Vec3 := Vec3(0.0, 0.0, 0.0)

  /** Scaling distributes over addition. */
  lemma ScaleAdd3(a: Vec3, b: Vec3, k: real)
    ensures Scale3(Add3(a, b), k) == Add3(Scale3(a, k), Scale3(b, k))
  {
  }

  /** Scaling twice is scaling by the product. */
  lemma ScaleScale3(v: Vec3, a: real, b: real)
    ensures Scale3(Scale3(v, a), b) == Scale3(v, a * b)
  {
  }
}
