/** The calculator's six operations with their input checks: each either
    yields a value or rejects its input with the calculator's error message. */
module Operations {
  import opened Matrices
  import opened Determinants

  /** The success/failure answer of an operation. */
  datatype Outcome<T> = Ok(value: T) | Err(message: string)

  const SumShapeMismatch := "Las matrices deben tener las mismas dimensiones para sumar"
  const DifferenceShapeMismatch := "Las matrices deben tener las mismas dimensiones para restar"
  const InnerDimensionMismatch := "El número de columnas de A debe ser igual al número de filas de B"
  const DeterminantNotSquare := "La matriz debe ser cuadrada para calcular el determinante"
  const InverseNotSquare := "La matriz debe ser cuadrada para calcular la inversa"
  const NotInvertible := "La matriz no es invertible (determinante = 0)"
  /** Stands for the text of the exception raised when the rows of an input differ in length. */
  const NotRectangular := "inhomogeneous shape"

  /** A square matrix the calculator accepts: IsSquare, and not the empty matrix. */
  predicate SquareMatrix(m: Matrix)
  {
    WellFormed(m) && IsSquare(m)
  }

  /** Element-wise sum; rejected unless both operands have the same shape. */
  function MatrixAddition(a: Matrix, b: Matrix): (r: Outcome<Matrix>)
    ensures r.Ok? <==> WellFormed(a) && WellFormed(b) && SameShape(a, b)
    ensures !WellFormed(a) || !WellFormed(b) ==> r == Err(NotRectangular)
    ensures WellFormed(a) && WellFormed(b) && !SameShape(a, b) ==> r == Err(SumShapeMismatch)
    ensures r.Ok? ==>
      && IsMatrix(r.value, Rows(a), Cols(a))
      && forall i, j :: 0 <= i < Rows(a) && 0 <= j < Cols(a) ==> r.value[i][j] == a[i][j] + b[i][j]
  {
    if !WellFormed(a) || !WellFormed(b) then Err(NotRectangular)
    else if !SameShape(a, b) then Err(SumShapeMismatch)
    else Ok(Add(a, b))
  }

  /** Element-wise difference; rejected unless both operands have the same shape. */
  function MatrixSubtraction(a: Matrix, b: Matrix): (r: Outcome<Matrix>)
    ensures r.Ok? <==> WellFormed(a) && WellFormed(b) && SameShape(a, b)
    ensures !WellFormed(a) || !WellFormed(b) ==> r == Err(NotRectangular)
    ensures WellFormed(a) && WellFormed(b) && !SameShape(a, b) ==> r == Err(DifferenceShapeMismatch)
    ensures r.Ok? ==>
      && IsMatrix(r.value, Rows(a), Cols(a))
      && forall i, j :: 0 <= i < Rows(a) && 0 <= j < Cols(a) ==> r.value[i][j] == a[i][j] - b[i][j]
  {
    if !WellFormed(a) || !WellFormed(b) then Err(NotRectangular)
    else if !SameShape(a, b) then Err(DifferenceShapeMismatch)
    else Ok(Sub(a, b))
  }

  /** Matrix product; rejected unless A has as many columns as B has rows. */
  function MatrixMultiplication(a: Matrix, b: Matrix): (r: Outcome<Matrix>)
    ensures r.Ok? <==> WellFormed(a) && WellFormed(b) && Cols(a) == Rows(b)
    ensures !WellFormed(a) || !WellFormed(b) ==> r == Err(NotRectangular)
    ensures WellFormed(a) && WellFormed(b) && Cols(a) != Rows(b) ==> r == Err(InnerDimensionMismatch)
    ensures r.Ok? ==>
      && IsMatrix(r.value, Rows(a), Cols(b))
      && forall i, j :: 0 <= i < Rows(a) && 0 <= j < Cols(b) ==>
           r.value[i][j] == Inner(a[i], Column(b, j))
  {
    if !WellFormed(a) || !WellFormed(b) then Err(NotRectangular)
    else if Cols(a) != Rows(b) then Err(InnerDimensionMismatch)
    else Ok(Multiply(a, b))
  }

  /** Transpose; never rejects a well-formed matrix. */
  function MatrixTranspose(a: Matrix): (r: Outcome<Matrix>)
    ensures r.Ok? <==> WellFormed(a)
    ensures !WellFormed(a) ==> r == Err(NotRectangular)
    ensures r.Ok? ==>
      && IsMatrix(r.value, Cols(a), Rows(a))
      && forall i, j :: 0 <= i < Cols(a) && 0 <= j < Rows(a) ==> r.value[i][j] == a[j][i]
  {
    if !WellFormed(a) then Err(NotRectangular) else Ok(Transpose(a))
  }

  /** Determinant; rejected unless the matrix is square. For sizes 1, 2 and 3 the value is
      the closed form the calculator shows as its working. */
  function MatrixDeterminant(a: Matrix): (r: Outcome<real>)
    ensures r.Ok? <==> SquareMatrix(a)
    ensures !WellFormed(a) ==> r == Err(NotRectangular)
    ensures WellFormed(a) && Rows(a) != Cols(a) ==> r == Err(DeterminantNotSquare)
    ensures r.Ok? ==> IsSquare(a) && r.value == Det(a)
    ensures r.Ok? && Rows(a) == 1 ==> r.value == a[0][0]
    ensures r.Ok? && Rows(a) == 2 ==> r.value == a[0][0] * a[1][1] - a[0][1] * a[1][0]
    ensures r.Ok? && Rows(a) == 3 ==>
      r.value == a[0][0] * (a[1][1] * a[2][2] - a[1][2] * a[2][1])
               - a[0][1] * (a[1][0] * a[2][2] - a[1][2] * a[2][0])
               + a[0][2] * (a[1][0] * a[2][1] - a[1][1] * a[2][0])
  {
    if !WellFormed(a) then Err(NotRectangular)
    else if Rows(a) != Cols(a) then Err(DeterminantNotSquare)
    else
      assert IsMatrix(a, Rows(a), Rows(a));
      if Rows(a) == 1 then DetOneByOne(a); Ok(Det(a))
      else if Rows(a) == 2 then DetTwoByTwo(a); Ok(Det(a))
      else if Rows(a) == 3 then DetThreeByThree(a); Ok(Det(a))
      else Ok(Det(a))
  }

  /** Stands for the text of the exception raised when the working of a 3×3 determinant
      divides a zero first-row entry by itself and the quotient NaN is formatted. */
  const NaNInWorking := "cannot convert float NaN to integer"

  /** A 3×3 matrix whose first row holds a zero. */
  predicate ZeroInFirstRow(a: Matrix)
  {
    |a| == 3 && |a[0]| == 3 && (a[0][0] == 0.0 || a[0][1] == 0.0 || a[0][2] == 0.0)
  }

  /** The determinant as the calculator computes it: for a 3×3 matrix the working shows
      term_k / a[0][k] for each first-row entry, so a zero there turns into NaN, whose
      formatting raises, and the whole operation fails. */
  function MatrixDeterminantAsWritten(a: Matrix): (r: Outcome<real>)
    ensures r.Ok? <==> SquareMatrix(a) && !ZeroInFirstRow(a)
    ensures SquareMatrix(a) && ZeroInFirstRow(a) ==> r == Err(NaNInWorking)
    ensures !ZeroInFirstRow(a) ==> r == MatrixDeterminant(a)
  {
    if SquareMatrix(a) && ZeroInFirstRow(a) then Err(NaNInWorking) else MatrixDeterminant(a)
  }

  /** The permutation matrix that swaps the first two axes has determinant -1, yet the
      calculator rejects it because its first row holds zeros. */
  lemma SwapMatrixDeterminantRejected()
    ensures var swap := [[0.0, 1.0, 0.0], [1.0, 0.0, 0.0], [0.0, 0.0, 1.0]];
      && MatrixDeterminantAsWritten(swap) == Err(NaNInWorking)
      && MatrixDeterminant(swap) == Ok(-1.0)
  {
    var swap := [[0.0, 1.0, 0.0], [1.0, 0.0, 0.0], [0.0, 0.0, 1.0]];
    assert IsMatrix(swap, 3, 3);
    DetThreeByThree(swap);
  }

  /** Inverse (1/det(A)) · adj(A); rejected unless the matrix is square and its
      determinant is not zero. For sizes 1 and 2 the result is a two-sided inverse, and
      for size 2 it is (1/det(A)) · [[d, -b], [-c, a]]. */
  function MatrixInverse(a: Matrix): (r: Outcome<Matrix>)
    ensures r.Ok? <==> SquareMatrix(a) && Det(a) != 0.0
    ensures !WellFormed(a) ==> r == Err(NotRectangular)
    ensures WellFormed(a) && Rows(a) != Cols(a) ==> r == Err(InverseNotSquare)
    ensures SquareMatrix(a) && Det(a) == 0.0 ==> r == Err(NotInvertible)
    ensures r.Ok? ==> IsMatrix(r.value, Rows(a), Rows(a)) && r.value == Inverse(a)
    ensures r.Ok? && Rows(a) <= 2 ==>
      && Multiply(r.value, a) == Identity(Rows(a))
      && Multiply(a, r.value) == Identity(Rows(a))
    ensures r.Ok? && Rows(a) == 2 ==>
      && a[0][0] * a[1][1] - a[0][1] * a[1][0] != 0.0
      && r.value == Scale(1.0 / (a[0][0] * a[1][1] - a[0][1] * a[1][0]),
                          [[a[1][1], -a[0][1]], [-a[1][0], a[0][0]]])
  {
    if !WellFormed(a) then Err(NotRectangular)
    else if Rows(a) != Cols(a) then Err(InverseNotSquare)
    else if Det(a) == 0.0 then Err(NotInvertible)
    else
      assert IsMatrix(a, Rows(a), Rows(a));
      if Rows(a) == 1 then InverseOneByOneIsInverse(a); Ok(Inverse(a))
      else if Rows(a) == 2 then InverseTwoByTwoIsInverse(a); InverseTwoByTwo(a); Ok(Inverse(a))
      else Ok(Inverse(a))
  }
}
