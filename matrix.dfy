/** Matrices over exact reals and the element-wise and product operations
    the calculator offers: sum, difference, transpose and product. */
module Matrices {

  /** A matrix is a list of rows, as the calculator receives it. */
  type Matrix = seq<seq<real>>

  /** m has exactly `rows` rows of `cols` entries each, with at least one of each. */
  predicate IsMatrix(m: Matrix, rows: nat, cols: nat)
  {
    && rows >= 1 && cols >= 1
    && |m| == rows
    && forall i :: 0 <= i < |m| ==> |m[i]| == cols
  }

  /** m is rectangular and non-empty, i.e. it has a two-dimensional shape. */
  predicate WellFormed(m: Matrix)
  {
    |m| >= 1 && IsMatrix(m, |m|, |m[0]|)
  }

  function Rows(m: Matrix): nat
  {
    |m|
  }

  function Cols(m: Matrix): nat
  {
    if |m| == 0 then 0 else |m[0]|
  }

  predicate SameShape(a: Matrix, b: Matrix)
  {
    Rows(a) == Rows(b) && Cols(a) == Cols(b)
  }

  /** C[i,j] = A[i,j] + B[i,j]. */
  function Add(a: Matrix, b: Matrix): (c: Matrix)
    requires WellFormed(a) && IsMatrix(b, Rows(a), Cols(a))
    ensures IsMatrix(c, Rows(a), Cols(a))
    ensures forall i, j :: 0 <= i < Rows(a) && 0 <= j < Cols(a) ==> c[i][j] == a[i][j] + b[i][j]
  {
    seq(|a|, i requires 0 <= i < |a| => seq(|a[0]|, j requires 0 <= j < |a[0]| => a[i][j] + b[i][j]))
  }

  /** C[i,j] = A[i,j] - B[i,j]. */
  function Sub(a: Matrix, b: Matrix): (c: Matrix)
    requires WellFormed(a) && IsMatrix(b, Rows(a), Cols(a))
    ensures IsMatrix(c, Rows(a), Cols(a))
    ensures forall i, j :: 0 <= i < Rows(a) && 0 <= j < Cols(a) ==> c[i][j] == a[i][j] - b[i][j]
  {
    seq(|a|, i requires 0 <= i < |a| => seq(|a[0]|, j requires 0 <= j < |a[0]| => a[i][j] - b[i][j]))
  }

  /** A^T[i,j] = A[j,i]: rows become columns. */
  function Transpose(m: Matrix): (t: Matrix)
    requires WellFormed(m)
    ensures IsMatrix(t, Cols(m), Rows(m))
    ensures forall i, j :: 0 <= i < Cols(m) && 0 <= j < Rows(m) ==> t[i][j] == m[j][i]
  {
    seq(|m[0]|, i requires 0 <= i < |m[0]| => seq(|m|, j requires 0 <= j < |m| => m[j][i]))
  }

  /** Column j of m, read top to bottom. */
  function Column(m: Matrix, j: nat): (c: seq<real>)
    requires WellFormed(m) && j < Cols(m)
    ensures |c| == Rows(m)
    ensures forall k :: 0 <= k < |c| ==> c[k] == m[k][j]
  {
    seq(|m|, k requires 0 <= k < |m| => m[k][j])
  }

  /** The sum of the pairwise products r[0]*c[0] + ... + r[n-1]*c[n-1]. */
  function Inner(r: seq<real>, c: seq<real>): real
    requires |r| == |c|
  {
    if |r| == 0 then 0.0 else r[0] * c[0] + Inner(r[1..], c[1..])
  }

  /** C[i,j] = Σ_k A[i,k] · B[k,j]: row i of A against column j of B. */
  function Multiply(a: Matrix, b: Matrix): (c: Matrix)
    requires WellFormed(a) && WellFormed(b) && Cols(a) == Rows(b)
    ensures IsMatrix(c, Rows(a), Cols(b))
    ensures forall i, j :: 0 <= i < Rows(a) && 0 <= j < Cols(b) ==> c[i][j] == Inner(a[i], Column(b, j))
  {
    seq(|a|, i requires 0 <= i < |a| => seq(|b[0]|, j requires 0 <= j < |b[0]| => Inner(a[i], Column(b, j))))
  }

  /** The n×n identity matrix. */
  function Identity(n: nat): (m: Matrix)
    requires n >= 1
    ensures IsMatrix(m, n, n)
    ensures forall i, j :: 0 <= i < n && 0 <= j < n ==> m[i][j] == if i == j then 1.0 else 0.0
  {
    seq(n, i requires 0 <= i < n => seq(n, j requires 0 <= j < n => if i == j then 1.0 else 0.0))
  }

  /** Every entry of m multiplied by k. */
  function Scale(k: real, m: Matrix): (s: Matrix)
    requires WellFormed(m)
    ensures IsMatrix(s, Rows(m), Cols(m))
    ensures forall i, j :: 0 <= i < Rows(m) && 0 <= j < Cols(m) ==> s[i][j] == k * m[i][j]
  {
    seq(|m|, i requires 0 <= i < |m| => seq(|m[0]|, j requires 0 <= j < |m[0]| => k * m[i][j]))
  }

  /** Two matrices of one shape that agree entry by entry are equal. */
  lemma Extensionality(a: Matrix, b: Matrix)
    requires WellFormed(a) && IsMatrix(b, Rows(a), Cols(a))
    requires forall i, j :: 0 <= i < Rows(a) && 0 <= j < Cols(a) ==> a[i][j] == b[i][j]
    ensures a == b
  {
    forall i | 0 <= i < |a|
      ensures a[i] == b[i]
    {
      assert |a[i]| == |b[i]| == Cols(a);
    }
  }

  // ---------------------------------------------------------------------
  // Sum and difference

  /** Matrix addition is commutative. */
  lemma AddCommutes(a: Matrix, b: Matrix)
    requires WellFormed(a) && IsMatrix(b, Rows(a), Cols(a))
    ensures Add(a, b) == Add(b, a)
  {
    Extensionality(Add(a, b), Add(b, a));
  }

  /** Subtracting B undoes adding B: (A + B) - B == A. */
  lemma SubUndoesAdd(a: Matrix, b: Matrix)
    requires WellFormed(a) && IsMatrix(b, Rows(a), Cols(a))
    ensures Sub(Add(a, b), b) == a
  {
    Extensionality(Sub(Add(a, b), b), a);
  }

  /** Adding B undoes subtracting B: (A - B) + B == A. */
  lemma AddUndoesSub(a: Matrix, b: Matrix)
    requires WellFormed(a) && IsMatrix(b, Rows(a), Cols(a))
    ensures Add(Sub(a, b), b) == a
  {
    Extensionality(Add(Sub(a, b), b), a);
  }

  // ---------------------------------------------------------------------
  // Transpose

  /** Transposing twice gives back the original matrix. */
  lemma TransposeTwice(m: Matrix)
    requires WellFormed(m)
    ensures Transpose(Transpose(m)) == m
  {
    Extensionality(Transpose(Transpose(m)), m);
  }

  /** (A + B)^T == A^T + B^T. */
  lemma TransposeOfSum(a: Matrix, b: Matrix)
    requires WellFormed(a) && IsMatrix(b, Rows(a), Cols(a))
    ensures Transpose(Add(a, b)) == Add(Transpose(a), Transpose(b))
  {
    Extensionality(Transpose(Add(a, b)), Add(Transpose(a), Transpose(b)));
  }

  // ---------------------------------------------------------------------
  // Product

  /** The inner product does not depend on the order of its arguments. */
  lemma {:induction false} InnerCommutes(r: seq<real>, c: seq<real>)
    requires |r| == |c|
    ensures Inner(r, c) == Inner(c, r)
    decreases |r|
  {
    if |r| > 0 {
      InnerCommutes(r[1..], c[1..]);
    }
  }

  /** Against an all-zero vector the inner product is zero. */
  lemma {:induction false} InnerWithZeros(r: seq<real>, c: seq<real>)
    requires |r| == |c|
    requires forall k :: 0 <= k < |c| ==> c[k] == 0.0
    ensures Inner(r, c) == 0.0
    decreases |r|
  {
    if |r| > 0 {
      InnerWithZeros(r[1..], c[1..]);
    }
  }

  /** Against the k-th unit vector the inner product picks out r[k]. */
  lemma {:induction false} InnerWithUnit(r: seq<real>, c: seq<real>, k: nat)
    requires |r| == |c| && k < |c|
    requires forall l :: 0 <= l < |c| ==> c[l] == if l == k then 1.0 else 0.0
    ensures Inner(r, c) == r[k]
    decreases |r|
  {
    if k == 0 {
      InnerWithZeros(r[1..], c[1..]);
    } else {
      InnerWithUnit(r[1..], c[1..], k - 1);
    }
  }

  /** I · A == A. */
  lemma IdentityTimesMatrix(a: Matrix)
    requires WellFormed(a)
    ensures Multiply(Identity(Rows(a)), a) == a
  {
    var p := Multiply(Identity(Rows(a)), a);
    forall i, j | 0 <= i < Rows(a) && 0 <= j < Cols(a)
      ensures p[i][j] == a[i][j]
    {
      InnerWithUnit(Column(a, j), Identity(Rows(a))[i], i);
      InnerCommutes(Identity(Rows(a))[i], Column(a, j));
    }
    Extensionality(p, a);
  }

  /** A · I == A. */
  lemma MatrixTimesIdentity(a: Matrix)
    requires WellFormed(a)
    ensures Multiply(a, Identity(Cols(a))) == a
  {
    var p := Multiply(a, Identity(Cols(a)));
    forall i, j | 0 <= i < Rows(a) && 0 <= j < Cols(a)
      ensures p[i][j] == a[i][j]
    {
      InnerWithUnit(a[i], Column(Identity(Cols(a)), j), j);
    }
    Extensionality(p, a);
  }

  /** (A · B)^T == B^T · A^T. */
  lemma TransposeOfProduct(a: Matrix, b: Matrix)
    requires WellFormed(a) && WellFormed(b) && Cols(a) == Rows(b)
    ensures Transpose(Multiply(a, b)) == Multiply(Transpose(b), Transpose(a))
  {
    var lhs := Transpose(Multiply(a, b));
    var rhs := Multiply(Transpose(b), Transpose(a));
    forall i, j | 0 <= i < Cols(b) && 0 <= j < Rows(a)
      ensures lhs[i][j] == rhs[i][j]
    {
      assert Transpose(b)[i] == Column(b, i);
      assert Column(Transpose(a), j) == a[j];
      InnerCommutes(a[j], Column(b, i));
    }
    Extensionality(lhs, rhs);
  }

  /** Scaling a vector scales its inner product: (k·r)·c == k·(r·c). */
  lemma {:induction false} InnerScaled(k: real, r: seq<real>, s: seq<real>, c: seq<real>)
    requires |r| == |s| == |c|
    requires forall l :: 0 <= l < |s| ==> s[l] == k * r[l]
    ensures Inner(s, c) == k * Inner(r, c)
    decreases |r|
  {
    if |r| > 0 {
      InnerScaled(k, r[1..], s[1..], c[1..]);
      assert s[0] * c[0] == k * (r[0] * c[0]);
    }
  }

  /** (k·A) · B == k·(A · B). */
  lemma ScaleThenMultiply(k: real, a: Matrix, b: Matrix)
    requires WellFormed(a) && WellFormed(b) && Cols(a) == Rows(b)
    ensures Multiply(Scale(k, a), b) == Scale(k, Multiply(a, b))
  {
    var lhs, rhs := Multiply(Scale(k, a), b), Scale(k, Multiply(a, b));
    forall i, j | 0 <= i < Rows(a) && 0 <= j < Cols(b)
      ensures lhs[i][j] == rhs[i][j]
    {
      InnerScaled(k, a[i], Scale(k, a)[i], Column(b, j));
    }
    Extensionality(lhs, rhs);
  }

  /** A · (k·B) == k·(A · B). */
  lemma MultiplyThenScale(k: real, a: Matrix, b: Matrix)
    requires WellFormed(a) && WellFormed(b) && Cols(a) == Rows(b)
    ensures Multiply(a, Scale(k, b)) == Scale(k, Multiply(a, b))
  {
    var lhs, rhs := Multiply(a, Scale(k, b)), Scale(k, Multiply(a, b));
    forall i, j | 0 <= i < Rows(a) && 0 <= j < Cols(b)
      ensures lhs[i][j] == rhs[i][j]
    {
      InnerScaled(k, Column(b, j), Column(Scale(k, b), j), a[i]);
      InnerCommutes(a[i], Column(Scale(k, b), j));
      InnerCommutes(a[i], Column(b, j));
    }
    Extensionality(lhs, rhs);
  }

  /** k · (d · I) == I when k · d == 1. */
  lemma ScaleCancels(k: real, d: real, n: nat)
    requires n >= 1 && k * d == 1.0
    ensures Scale(k, Scale(d, Identity(n))) == Identity(n)
  {
    var lhs := Scale(k, Scale(d, Identity(n)));
    forall i, j | 0 <= i < n && 0 <= j < n
      ensures lhs[i][j] == Identity(n)[i][j]
    {
      assert k * (d * Identity(n)[i][j]) == (k * d) * Identity(n)[i][j];
    }
    Extensionality(lhs, Identity(n));
  }

  /** If B · A == d · I == A · B with d != 0, then (1/d) · B is a two-sided inverse of A. */
  lemma ScaledInverse(a: Matrix, b: Matrix, d: real)
    requires WellFormed(a) && Rows(a) == Cols(a) && IsMatrix(b, Rows(a), Rows(a)) && d != 0.0
    requires Multiply(b, a) == Scale(d, Identity(Rows(a)))
    requires Multiply(a, b) == Scale(d, Identity(Rows(a)))
    ensures Multiply(Scale(1.0 / d, b), a) == Identity(Rows(a))
    ensures Multiply(a, Scale(1.0 / d, b)) == Identity(Rows(a))
  {
    var k := 1.0 / d;
    assert k * d == 1.0;
    ScaleThenMultiply(k, b, a);
    MultiplyThenScale(k, a, b);
    ScaleCancels(k, d, Rows(a));
  }
}
