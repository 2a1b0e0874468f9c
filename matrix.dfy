/** `Matrix` (src/matrix/mod.rs): zero matrices and tolerance-based equality of
    matrices stored as rows. */
module Matrices {
  import opened NumberUtils

  type Matrix = seq<seq<real>>

  /** `m` has `n` rows of `n` entries, all zero. */
  ghost predicate IsZeroSquare(m: Matrix, n: nat) {
    |m| == n && forall i :: 0 <= i < n ==> |m[i]| == n && forall j :: 0 <= j < n ==> m[i][j] == 0.0
  }

  function ConstructEmpty4x4(): (m: Matrix)
    ensures IsZeroSquare(m, 4)
  {
    var inner := [0.0, 0.0, 0.0, 0.0];
    [inner, inner, inner, inner]
  }

  function ConstructEmpty3x3(): (m: Matrix)
    ensures IsZeroSquare(m, 3)
  {
    var inner := [0.0, 0.0, 0.0];
    [inner, inner, inner]
  }

  function ConstructEmpty2x2(): (m: Matrix)
    ensures IsZeroSquare(m, 2)
  {
    var inner := [0.0, 0.0];
    [inner, inner]
  }

  /** What `are_equal` needs in order not to panic: when the row counts agree, `m1[0]`
      must exist, and when the first rows also agree in width, every row of both
      matrices must be at least `|m1|` wide, since that is the bound of the inner loop. */
  predicate CanCompare(m1: Matrix, m2: Matrix) {
    && (|m1| == |m2| ==> |m1| > 0)
    && (|m1| == |m2| && |m1[0]| == |m2[0]| ==>
          forall i :: 0 <= i < |m1| ==> |m1[i]| >= |m1| && |m2[i]| >= |m1|)
  }

  /** The verdict of `are_equal`: same row count, same first-row width, and the first
      `|m1|` entries of every row equal within tolerance. */
  ghost predicate MatricesEqual(m1: Matrix, m2: Matrix)
    requires CanCompare(m1, m2)
  {
    && |m1| == |m2|
    && |m1[0]| == |m2[0]|
    && forall i, j :: 0 <= i < |m1| && 0 <= j < |m1| ==> CompareFloats(m1[i][j], m2[i][j])
  }

  /** `are_equal`: the nested loops stop at the first pair of entries out of tolerance. */
  method AreEqual(m1: Matrix, m2: Matrix) returns (r: bool)
    requires CanCompare(m1, m2)
    ensures r == MatricesEqual(m1, m2)
  {
    if |m1| != |m2| {
      return false;
    }
    if |m1[0]| != |m2[0]| {
      return false;
    }
    for i := 0 to |m1|
      invariant forall i', j :: 0 <= i' < i && 0 <= j < |m1| ==> CompareFloats(m1[i'][j], m2[i'][j])
    {
      for j := 0 to |m1|
        invariant forall j' :: 0 <= j' < j ==> CompareFloats(m1[i][j'], m2[i][j'])
      {
        if !CompareFloats(m1[i][j], m2[i][j]) {
          return false;
        }
      }
    }
    return true;
  }

  lemma RowCountsDiffer(m1: Matrix, m2: Matrix)
    requires CanCompare(m1, m2) && |m1| != |m2|
    ensures !MatricesEqual(m1, m2)
  {
  }

  lemma FirstRowWidthsDiffer(m1: Matrix, m2: Matrix)
    requires CanCompare(m1, m2) && |m1| == |m2| && |m1[0]| != |m2[0]|
    ensures !MatricesEqual(m1, m2)
  {
  }

  /** For two n-by-n matrices the verdict is entry-wise equality within tolerance. */
  lemma SquareEquality(m1: Matrix, m2: Matrix, n: nat)
    requires n > 0 && |m1| == n && |m2| == n
    requires forall i :: 0 <= i < n ==> |m1[i]| == n && |m2[i]| == n
    ensures CanCompare(m1, m2)
    ensures MatricesEqual(m1, m2) <==>
              forall i, j :: 0 <= i < n && 0 <= j < n ==> CompareFloats(m1[i][j], m2[i][j])
  {
  }

  /** Only the first `|m1|` columns are compared: two 2-by-3 matrices that differ only
      in their last column are reported equal. */
  lemma ColumnBoundQuirk()
    ensures var m1 := [[0.0, 0.0, 0.0], [0.0, 0.0, 0.0]];
            var m2 := [[0.0, 0.0, 5.0], [0.0, 0.0, 5.0]];
            CanCompare(m1, m2) && MatricesEqual(m1, m2) && m1 != m2
  {
  }

  /** The source's test: two zero 4x4 matrices are equal, a 4x4 and a 3x3 are not, and
      setting one entry to 15.34 makes them differ. */
  lemma EqualityTestValues()
    ensures CanCompare(ConstructEmpty4x4(), ConstructEmpty4x4())
    ensures MatricesEqual(ConstructEmpty4x4(), ConstructEmpty4x4())
    ensures CanCompare(ConstructEmpty4x4(), ConstructEmpty3x3())
    ensures !MatricesEqual(ConstructEmpty4x4(), ConstructEmpty3x3())
    ensures var m := ConstructEmpty4x4();
            var m1 := m[2 := m[2][3 := 15.34]];
            CanCompare(m1, m) && !MatricesEqual(m1, m)
  {
    var m := ConstructEmpty4x4();
    var m1 := m[2 := m[2][3 := 15.34]];
    assert !CompareFloats(m1[2][3], m[2][3]);
  }

  // ---------------------------------------------------------------- every column compared

  /** Equality the name `are_equal` promises: the same shape, row by row, and every
      entry within tolerance. */
  ghost predicate EntrywiseEqual(m1: Matrix, m2: Matrix) {
    && |m1| == |m2|
    && (forall i :: 0 <= i < |m1| ==> |m1[i]| == |m2[i]|)
    && forall i, j :: 0 <= i < |m1| && 0 <= j < |m1[i]| && j < |m2[i]| ==> CompareFloats(m1[i][j], m2[i][j])
  }

  /** `are_equal` with the inner loop bounded by the row's own width instead of the
      row count; it needs nothing of its arguments. */
  method AreEqualEntrywise(m1: Matrix, m2: Matrix) returns (r: bool)
    ensures r == EntrywiseEqual(m1, m2)
  {
    if |m1| != |m2| {
      return false;
    }
    for i := 0 to |m1|
      invariant forall i' :: 0 <= i' < i ==> |m1[i']| == |m2[i']|
      invariant forall i', j :: 0 <= i' < i && 0 <= j < |m1[i']| ==> CompareFloats(m1[i'][j], m2[i'][j])
    {
      if |m1[i]| != |m2[i]| {
        return false;
      }
      for j := 0 to |m1[i]|
        invariant forall j' :: 0 <= j' < j ==> CompareFloats(m1[i][j'], m2[i][j'])
      {
        if !CompareFloats(m1[i][j], m2[i][j]) {
          return false;
        }
      }
    }
    return true;
  }

  /** On square matrices, the only kind the ray tracer builds, the two verdicts agree. */
  lemma SquareVerdictsAgree(m1: Matrix, m2: Matrix, n: nat)
    requires n > 0 && |m1| == n && |m2| == n
    requires forall i :: 0 <= i < n ==> |m1[i]| == n && |m2[i]| == n
    ensures CanCompare(m1, m2)
    ensures MatricesEqual(m1, m2) == EntrywiseEqual(m1, m2)
  {
    SquareEquality(m1, m2, n);
  }

  /** Entry-wise equality tells the matrices of the quirk apart. */
  lemma EntrywiseSeesLastColumn()
    ensures var m1 := [[0.0, 0.0, 0.0], [0.0, 0.0, 0.0]];
            var m2 := [[0.0, 0.0, 5.0], [0.0, 0.0, 5.0]];
            !EntrywiseEqual(m1, m2)
  {
    var m1 := [[0.0, 0.0, 0.0], [0.0, 0.0, 0.0]];
    var m2 := [[0.0, 0.0, 5.0], [0.0, 0.0, 5.0]];
    assert !CompareFloats(m1[0][2], m2[0][2]);
  }

  /** Entry-wise equality is reflexive and symmetric. */
  lemma EntrywiseReflexiveSymmetric(m1: Matrix, m2: Matrix)
    ensures EntrywiseEqual(m1, m1)
    ensures EntrywiseEqual(m1, m2) == EntrywiseEqual(m2, m1)
  {
    forall i, j | 0 <= i < |m1| && 0 <= j < |m1[i]| ensures CompareFloats(m1[i][j], m1[i][j]) {
      CompareReflexive(m1[i][j]);
    }
    if EntrywiseEqual(m1, m2) {
      forall i, j | 0 <= i < |m2| && 0 <= j < |m2[i]| && j < |m1[i]| ensures CompareFloats(m2[i][j], m1[i][j]) {
        CompareSymmetric(m1[i][j], m2[i][j]);
      }
    }
    if EntrywiseEqual(m2, m1) {
      forall i, j | 0 <= i < |m1| && 0 <= j < |m1[i]| && j < |m2[i]| ensures CompareFloats(m1[i][j], m2[i][j]) {
        CompareSymmetric(m2[i][j], m1[i][j]);
      }
    }
  }
}
