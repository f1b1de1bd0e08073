/** The determinant as cofactor expansion along the first row, the
    adjugate, and the inverse (1/det(A)) · adj(A). */
module Determinants {
  import opened Matrices

  /** m has as many entries in each row as it has rows (0×0 included). */
  predicate IsSquare(m: Matrix)
  {
    forall i :: 0 <= i < |m| ==> |m[i]| == |m|
  }

  /** (-1)^k. */
  function Sign(k: nat): real
  {
    if k % 2 == 0 then 1.0 else -1.0
  }

  /** m without row r and column c. */
  function MinorAt(m: Matrix, r: nat, c: nat): (s: Matrix)
    requires IsSquare(m) && r < |m| && c < |m|
    ensures IsSquare(s) && |s| == |m| - 1
    ensures forall i, j :: 0 <= i < |s| && 0 <= j < |s| ==>
      s[i][j] == m[if i < r then i else i + 1][if j < c then j else j + 1]
  {
    seq(|m| - 1, i requires 0 <= i < |m| - 1 =>
      var row := m[if i < r then i else i + 1]; row[..c] + row[c + 1..])
  }

  /** det(A) by cofactor expansion along the first row; the empty matrix has determinant 1. */
  function Det(m: Matrix): real
    requires IsSquare(m)
    decreases |m|, 1, 0
  {
    if |m| == 0 then 1.0 else CofactorSum(m, 0)
  }

  /** Σ_{from <= j < n} (-1)^j · m[0][j] · det(minor(0, j)). */
  function CofactorSum(m: Matrix, from: nat): real
    requires IsSquare(m) && 0 < |m| && from <= |m|
    decreases |m|, 0, |m| - from
  {
    if from == |m| then 0.0
    else Sign(from) * m[0][from] * Det(MinorAt(m, 0, from)) + CofactorSum(m, from + 1)
  }

  /** The (r, c) cofactor (-1)^(r+c) · det(minor(r, c)). */
  function Cofactor(m: Matrix, r: nat, c: nat): real
    requires IsSquare(m) && r < |m| && c < |m|
  {
    Sign(r + c) * Det(MinorAt(m, r, c))
  }

  /** adj(A)[i,j] is the (j, i) cofactor of A. */
  function Adjugate(m: Matrix): (adj: Matrix)
    requires IsSquare(m) && |m| >= 1
    ensures IsMatrix(adj, |m|, |m|)
    ensures forall i, j :: 0 <= i < |m| && 0 <= j < |m| ==> adj[i][j] == Cofactor(m, j, i)
  {
    seq(|m|, i requires 0 <= i < |m| => seq(|m|, j requires 0 <= j < |m| => Cofactor(m, j, i)))
  }

  /** A^-1 = (1/det(A)) · adj(A). */
  function Inverse(m: Matrix): (inv: Matrix)
    requires IsSquare(m) && |m| >= 1 && Det(m) != 0.0
    ensures IsMatrix(inv, |m|, |m|)
  {
    Scale(1.0 / Det(m), Adjugate(m))
  }

  // ---------------------------------------------------------------------
  // The closed forms used for small matrices

  /** det([[a]]) == a. */
  lemma DetOneByOne(m: Matrix)
    requires IsMatrix(m, 1, 1)
    ensures Det(m) == m[0][0]
  {
    assert MinorAt(m, 0, 0) == [];
    assert Det(MinorAt(m, 0, 0)) == 1.0;
    assert CofactorSum(m, 1) == 0.0;
    assert CofactorSum(m, 0) == Sign(0) * m[0][0] * 1.0 + 0.0;
  }

  /** det([[a, b], [c, d]]) == ad - bc. */
  lemma DetTwoByTwo(m: Matrix)
    requires IsMatrix(m, 2, 2)
    ensures Det(m) == m[0][0] * m[1][1] - m[0][1] * m[1][0]
  {
    var m0, m1 := MinorAt(m, 0, 0), MinorAt(m, 0, 1);
    DetOneByOne(m0);
    DetOneByOne(m1);
    assert m0[0][0] == m[1][1] && m1[0][0] == m[1][0];
    assert CofactorSum(m, 2) == 0.0;
    assert CofactorSum(m, 1) == -1.0 * m[0][1] * Det(m1);
  }

  /** For a 3×3 matrix, expansion along the first row:
      det(A) = a00(a11a22 - a12a21) - a01(a10a22 - a12a20) + a02(a10a21 - a11a20). */
  lemma DetThreeByThree(m: Matrix)
    requires IsMatrix(m, 3, 3)
    ensures Det(m) ==
      m[0][0] * (m[1][1] * m[2][2] - m[1][2] * m[2][1])
      - m[0][1] * (m[1][0] * m[2][2] - m[1][2] * m[2][0])
      + m[0][2] * (m[1][0] * m[2][1] - m[1][1] * m[2][0])
  {
    var m0, m1, m2 := MinorAt(m, 0, 0), MinorAt(m, 0, 1), MinorAt(m, 0, 2);
    DetTwoByTwo(m0);
    DetTwoByTwo(m1);
    DetTwoByTwo(m2);
    assert Det(m0) == m[1][1] * m[2][2] - m[1][2] * m[2][1];
    assert Det(m1) == m[1][0] * m[2][2] - m[1][2] * m[2][0];
    assert Det(m2) == m[1][0] * m[2][1] - m[1][1] * m[2][0];
    assert CofactorSum(m, 3) == 0.0;
    assert CofactorSum(m, 2) == m[0][2] * Det(m2);
    assert CofactorSum(m, 1) == -1.0 * m[0][1] * Det(m1) + m[0][2] * Det(m2);
  }

  /** det(A^T) == det(A) for 2×2 matrices. */
  lemma DetTransposeTwoByTwo(m: Matrix)
    requires IsMatrix(m, 2, 2)
    ensures Det(Transpose(m)) == Det(m)
  {
    DetTwoByTwo(m);
    DetTwoByTwo(Transpose(m));
  }

  /** det(A^T) == det(A) for 3×3 matrices. */
  lemma DetTransposeThreeByThree(m: Matrix)
    requires IsMatrix(m, 3, 3)
    ensures Det(Transpose(m)) == Det(m)
  {
    DetThreeByThree(m);
    DetThreeByThree(Transpose(m));
  }

  // ---------------------------------------------------------------------
  // The inverse of small matrices

  /** The adjugate of [[a, b], [c, d]] is [[d, -b], [-c, a]]. */
  lemma AdjugateTwoByTwo(m: Matrix)
    requires IsMatrix(m, 2, 2)
    ensures Adjugate(m) == [[m[1][1], -m[0][1]], [-m[1][0], m[0][0]]]
  {
    var adj := Adjugate(m);
    DetOneByOne(MinorAt(m, 0, 0));
    DetOneByOne(MinorAt(m, 0, 1));
    DetOneByOne(MinorAt(m, 1, 0));
    DetOneByOne(MinorAt(m, 1, 1));
    assert adj[0][0] == m[1][1];
    assert adj[0][1] == -m[0][1];
    assert adj[1][0] == -m[1][0];
    assert adj[1][1] == m[0][0];
    Extensionality(adj, [[m[1][1], -m[0][1]], [-m[1][0], m[0][0]]]);
  }

  /** A 2×2 inverse is (1/det(A)) · [[d, -b], [-c, a]]. */
  lemma InverseTwoByTwo(m: Matrix)
    requires IsMatrix(m, 2, 2) && Det(m) != 0.0
    ensures
      && m[0][0] * m[1][1] - m[0][1] * m[1][0] != 0.0
      && Inverse(m) == Scale(1.0 / (m[0][0] * m[1][1] - m[0][1] * m[1][0]),
                             [[m[1][1], -m[0][1]], [-m[1][0], m[0][0]]])
  {
    DetTwoByTwo(m);
    AdjugateTwoByTwo(m);
  }

  /** The inner product of two vectors of length two, written out. */
  lemma InnerOfTwo(r: seq<real>, c: seq<real>)
    requires |r| == |c| == 2
    ensures Inner(r, c) == r[0] * c[0] + r[1] * c[1]
  {
    assert Inner(r[1..][1..], c[1..][1..]) == 0.0;
  }

  /** Each entry of the product of two 2×2 matrices, written out. */
  lemma ProductTwoByTwo(x: Matrix, y: Matrix)
    requires IsMatrix(x, 2, 2) && IsMatrix(y, 2, 2)
    ensures forall i, j :: 0 <= i < 2 && 0 <= j < 2 ==>
      Multiply(x, y)[i][j] == x[i][0] * y[0][j] + x[i][1] * y[1][j]
  {
    forall i, j | 0 <= i < 2 && 0 <= j < 2
      ensures Multiply(x, y)[i][j] == x[i][0] * y[0][j] + x[i][1] * y[1][j]
    {
      InnerOfTwo(x[i], Column(y, j));
    }
  }

  /** [[d, -b], [-c, a]] · [[a, b], [c, d]] == (ad - bc) · I. */
  lemma AdjugateTimesTwoByTwo(a: real, b: real, c: real, d: real)
    ensures Multiply([[d, -b], [-c, a]], [[a, b], [c, d]]) == Scale(a * d - b * c, Identity(2))
  {
    var x, y := [[d, -b], [-c, a]], [[a, b], [c, d]];
    ProductTwoByTwo(x, y);
    var p, q := Multiply(x, y), Scale(a * d - b * c, Identity(2));
    assert p[0][0] == d * a + -b * c == q[0][0];
    assert p[0][1] == d * b + -b * d == q[0][1];
    assert p[1][0] == -c * a + a * c == q[1][0];
    assert p[1][1] == -c * b + a * d == q[1][1];
    Extensionality(p, q);
  }

  /** [[a, b], [c, d]] · [[d, -b], [-c, a]] == (ad - bc) · I. */
  lemma TwoByTwoTimesAdjugate(a: real, b: real, c: real, d: real)
    ensures Multiply([[a, b], [c, d]], [[d, -b], [-c, a]]) == Scale(a * d - b * c, Identity(2))
  {
    var x, y := [[a, b], [c, d]], [[d, -b], [-c, a]];
    ProductTwoByTwo(x, y);
    var p, q := Multiply(x, y), Scale(a * d - b * c, Identity(2));
    assert p[0][0] == a * d + b * -c == q[0][0];
    assert p[0][1] == a * -b + b * a == q[0][1];
    assert p[1][0] == c * d + d * -c == q[1][0];
    assert p[1][1] == c * -b + d * a == q[1][1];
    Extensionality(p, q);
  }

  /** adj(A) · A == det(A) · I == A · adj(A) for 2×2 matrices. */
  lemma AdjugateProductTwoByTwo(m: Matrix)
    requires IsMatrix(m, 2, 2)
    ensures Multiply(Adjugate(m), m) == Scale(Det(m), Identity(2))
    ensures Multiply(m, Adjugate(m)) == Scale(Det(m), Identity(2))
  {
    var a, b, c, d := m[0][0], m[0][1], m[1][0], m[1][1];
    DetTwoByTwo(m);
    AdjugateTwoByTwo(m);
    assert Adjugate(m) == [[d, -b], [-c, a]];
    Extensionality(m, [[a, b], [c, d]]);
    assert Det(m) == a * d - b * c;
    AdjugateTimesTwoByTwo(a, b, c, d);
    TwoByTwoTimesAdjugate(a, b, c, d);
  }

  /** adj(A) · A == det(A) · I == A · adj(A) for 1×1 matrices. */
  lemma AdjugateProductOneByOne(m: Matrix)
    requires IsMatrix(m, 1, 1)
    ensures Adjugate(m) == [[1.0]]
    ensures Multiply(Adjugate(m), m) == Scale(Det(m), Identity(1))
    ensures Multiply(m, Adjugate(m)) == Scale(Det(m), Identity(1))
  {
    DetOneByOne(m);
    assert Det(MinorAt(m, 0, 0)) == 1.0;
    var adj := Adjugate(m);
    Extensionality(adj, [[1.0]]);
    assert Inner(adj[0], Column(m, 0)) == adj[0][0] * m[0][0];
    assert Inner(m[0], Column(adj, 0)) == m[0][0] * adj[0][0];
    Extensionality(Multiply(adj, m), Scale(Det(m), Identity(1)));
    Extensionality(Multiply(m, adj), Scale(Det(m), Identity(1)));
  }

  /** Once adj(A) · A == det(A) · I == A · adj(A) is known, (1/det(A)) · adj(A) is a
      two-sided inverse of A, whatever the size. */
  lemma InverseFromAdjugate(m: Matrix)
    requires IsSquare(m) && |m| >= 1 && Det(m) != 0.0
    requires Multiply(Adjugate(m), m) == Scale(Det(m), Identity(|m|))
    requires Multiply(m, Adjugate(m)) == Scale(Det(m), Identity(|m|))
    ensures Multiply(Inverse(m), m) == Identity(|m|)
    ensures Multiply(m, Inverse(m)) == Identity(|m|)
  {
    assert IsMatrix(m, |m|, |m|);
    ScaledInverse(m, Adjugate(m), Det(m));
  }

  /** For an invertible 2×2 matrix, A^-1 · A == I and A · A^-1 == I. */
  lemma InverseTwoByTwoIsInverse(m: Matrix)
    requires IsMatrix(m, 2, 2) && Det(m) != 0.0
    ensures Multiply(Inverse(m), m) == Identity(2)
    ensures Multiply(m, Inverse(m)) == Identity(2)
  {
    AdjugateProductTwoByTwo(m);
    InverseFromAdjugate(m);
  }

  /** For an invertible 1×1 matrix, A^-1 == [[1/a]] and A^-1 · A == I == A · A^-1. */
  lemma InverseOneByOneIsInverse(m: Matrix)
    requires IsMatrix(m, 1, 1) && Det(m) != 0.0
    ensures m[0][0] != 0.0 && Inverse(m) == [[1.0 / m[0][0]]]
    ensures Multiply(Inverse(m), m) == Identity(1)
    ensures Multiply(m, Inverse(m)) == Identity(1)
  {
    DetOneByOne(m);
    AdjugateProductOneByOne(m);
    InverseFromAdjugate(m);
    Extensionality(Inverse(m), [[1.0 / m[0][0]]]);
  }
}
