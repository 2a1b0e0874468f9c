/** `NumberUtils` (src/utils/mod.rs): equality of floating-point values up to a fixed
    tolerance. Both the f64 and the f32 comparison are modelled over `real`. */
module NumberUtils {

  /** The tolerance both comparisons use. */
  const Tolerance: real := 0.00001

  function Abs(x: real): (r: real)
    ensures r >= 0.0 && (r == x || r == -x)
  {
    if x < 0.0 then -x else x
  }

  /** `compare_floats`: `b` lies strictly inside the tolerance band around `a`. */
  function CompareFloats(a: real, b: real): (r: bool)
    ensures r <==> a - Tolerance < b < a + Tolerance
  {
    Abs(a - b) < Tolerance
  }

  /** `compare_floats_32`: the same rule with the same tolerance. */
  function CompareFloats32(a: real, b: real): (r: bool)
    ensures r == CompareFloats(a, b)
  {
    Abs(a - b) < Tolerance
  }

  lemma CompareSymmetric(a: real, b: real)
    ensures CompareFloats(a, b) == CompareFloats(b, a)
  {
  }

  lemma CompareReflexive(a: real)
    ensures CompareFloats(a, a)
  {
  }

  /** The band is open: values exactly one tolerance apart are not equal. */
  lemma CompareStrict(a: real)
    ensures !CompareFloats(a, a + Tolerance) && !CompareFloats(a + Tolerance, a)
  {
  }

  /** The values the source's own tests compare. */
  lemma CompareTestValues()
    ensures CompareFloats(0.1, 0.1) && CompareFloats(0.001, 0.001) && CompareFloats(0.01, 0.01)
    ensures !CompareFloats(0.01, 0.001) && !CompareFloats(0.0001, 0.001)
    ensures CompareFloats(0.000000000001, 0.00001)
  {
  }
}
