/** `Tuple` (src/tuples/mod.rs): a homogeneous coordinate whose `w` tells a point
    from a vector. */
module Tuples {
  import opened NumberUtils

  datatype TupleType = Point | Vector

  datatype Tuple = Tuple(x: real, y: real, z: real, w: real)

  /** `get_type`: a vector when `w` is within tolerance of 0, a point otherwise. */
  function GetType(t: Tuple): (k: TupleType)
    ensures k == Vector <==> -Tolerance < t.w < Tolerance
  {
    if CompareFloats(t.w, 0.0) then Vector else Point
  }

  /** `new_vector`: keeps the coordinates, `w = 0`, and classifies as a vector. */
  function NewVector(x: real, y: real, z: real): (t: Tuple)
    ensures t.x == x && t.y == y && t.z == z && t.w == 0.0
    ensures GetType(t) == Vector
  {
    Tuple(x, y, z, 0.0)
  }

  /** `new_point`: keeps the coordinates, `w = 1`, and classifies as a point. */
  function NewPoint(x: real, y: real, z: real): (t: Tuple)
    ensures t.x == x && t.y == y && t.z == z && t.w == 1.0
    ensures GetType(t) == Point
  {
    Tuple(x, y, z, 1.0)
  }

  /** There is no third kind: any `w` away from 0, such as 2, makes a point. */
  lemma GetTypeTwoKinds(t: Tuple)
    ensures GetType(t) == Point <==> t.w <= -Tolerance || t.w >= Tolerance
  {
  }

  /** The tuples the source's tests build by hand. */
  lemma GetTypeTestValues()
    ensures GetType(Tuple(2.4, 1.0, 0.1, 1.0)) == Point
    ensures GetType(Tuple(2.4, 1.0, 0.1, 0.0)) == Vector
    ensures GetType(Tuple(0.0, 0.0, 0.0, 2.0)) == Point
  {
  }
}
