/** Real triples: the coordinates, axes and voxel sizes of the volume and its
    sections. Floating-point rounding is not modelled. */
module Vectors {

  datatype Vec3 = Vec3(x: real, y: real, z: real)

  const Zero: Vec3 := Vec3(0.0, 0.0, 0.0)

  function Add(a: Vec3, b: Vec3): Vec3
  {
    Vec3(a.x + b.x, a.y + b.y, a.z + b.z)
  }

  function Sub(a: Vec3, b: Vec3): Vec3
  {
    Vec3(a.x - b.x, a.y - b.y, a.z - b.z)
  }

  function Scale(k: real, a: Vec3): Vec3
  {
    Vec3(k * a.x, k * a.y, k * a.z)
  }

  function Dot(a: Vec3, b: Vec3): real
  {
    a.x * b.x + a.y * b.y + a.z * b.z
  }

  function Cross(a: Vec3, b: Vec3): Vec3
  {
    Vec3(a.y * b.z - a.z * b.y, a.z * b.x - a.x * b.z, a.x * b.y - a.y * b.x)
  }

  /** Squared Euclidean length; `length() * length()` in the source. */
  function NormSquared(a: Vec3): (r: real)
    ensures r >= 0.0
  {
    SquareNonnegative(a.x);
    SquareNonnegative(a.y);
    SquareNonnegative(a.z);
    Dot(a, a)
  }

  lemma SquareNonnegative(r: real)
    ensures r * r >= 0.0
  {
  }
}
