# Matrix calculator — verified model

This project models the back end of a small matrix calculator. That back end is a
`MatrixCalculator` object behind a handful of HTTP routes. The calculator:

- adds, subtracts, multiplies and transposes matrices;
- computes determinants and inverses;
- rejects operands of the wrong shape with a fixed message in Spanish;
- records every successful operation at the front of a history capped at fifty entries;
- keeps a dictionary of display settings that update requests overwrite key by key.

The files are:

- `matrix.dfy` (module `Matrices`): matrices as rectangular `seq<seq<real>>` and the
  entry-wise sum, difference, product, transpose, identity and scaling, with their algebra.
- `determinant.dfy` (module `Determinants`): the determinant as first-row cofactor
  expansion, the adjugate and the inverse (1/det(A)) · adj(A). It also gives the closed
  forms the calculator shows for 1×1, 2×2 and 3×3 matrices.
- `operations.dfy` (module `Operations`): the six operations with their input checks and
  error messages, each returning `Ok(value)` or `Err(message)`.
- `history.dfy` (module `History`): the history list as a pure function. The newest entry
  goes in front and at most fifty are kept.
- `settings.dfy` (module `Settings`): the default settings and the key-by-key merge of
  an update.
- `calculator.dfy` (module `Calculator`): the `MatrixCalculator` class, whose `history`
  and `settings` fields its methods update in place, and the loop that formats a matrix
  for display.

Matrix entries are exact reals. A ragged operand makes the array conversion raise. The
calculator catches that exception and reports failure, so the model returns
`Err(NotRectangular)`. `NotRectangular` stands for the exception's text.

## Model

| member | source | states |
|---|---|---|
| Operations.MatrixAddition | backend/app.py:109-146 | succeeds exactly when both operands are rectangular and have the same shape; a ragged operand gives the exception error and a shape mismatch gives the "sumar" message; on success the result has A's shape and C[i][j] == A[i][j] + B[i][j] |
| Operations.MatrixSubtraction | backend/app.py:148-185 | same checks with the "restar" message; on success C[i][j] == A[i][j] - B[i][j] |
| Operations.MatrixMultiplication | backend/app.py:187-235 | succeeds exactly when A has as many columns as B has rows, else the column/row message; the result is rows(A)×cols(B) with C[i][j] the inner product of row i of A and column j of B |
| Operations.MatrixTranspose | backend/app.py:289-316 | never rejects a rectangular matrix; the result is cols×rows with T[i][j] == A[j][i] |
| Operations.MatrixDeterminant | backend/app.py:237-287 | succeeds exactly when the matrix is square, else the "determinante" message; the value is the determinant and equals a, ad - bc and the three-term first-row expansion for sizes 1, 2 and 3 (the intended behaviour; see Findings) |
| Operations.MatrixDeterminantAsWritten | backend/app.py:262-271 | as the code behaves: a 3×3 matrix with a zero in its first row fails with the NaN formatting error; every other input gets the same answer as MatrixDeterminant |
| Operations.SwapMatrixDeterminantRejected | backend/app.py:266-271 | the swap permutation matrix has determinant -1, yet the code as written rejects it |
| Operations.MatrixInverse | backend/app.py:318-370 | succeeds exactly when the matrix is square with non-zero determinant; the non-square and singular cases give their own messages; the result is (1/det(A)) · adj(A); for sizes 1 and 2 it is a two-sided inverse; for size 2 it is (1/(ad - bc)) · [[d, -b], [-c, a]] |
| Matrices.Add | backend/app.py:121 | the sum has the operands' shape and entries A[i][j] + B[i][j] |
| Matrices.Sub | backend/app.py:160 | the difference has the operands' shape and entries A[i][j] - B[i][j] |
| Matrices.Transpose | backend/app.py:293 | the transpose swaps the dimensions and T[i][j] == A[j][i] |
| Matrices.Multiply | backend/app.py:199 | the product is rows(A)×cols(B) with entries Σ_k A[i][k]·B[k][j] |
| Matrices.AddCommutes | backend/app.py:121 | algebra of the model, which the source does not state: A + B == B + A |
| Matrices.SubUndoesAdd | backend/app.py:160 | (A + B) - B == A |
| Matrices.AddUndoesSub | backend/app.py:160 | (A - B) + B == A |
| Matrices.TransposeTwice | backend/app.py:293 | (A^T)^T == A |
| Matrices.TransposeOfSum | backend/app.py:293 | algebra of the model, which the source does not state: (A + B)^T == A^T + B^T |
| Matrices.IdentityTimesMatrix | backend/app.py:199 | I · A == A |
| Matrices.MatrixTimesIdentity | backend/app.py:199 | A · I == A |
| Matrices.TransposeOfProduct | backend/app.py:199 | (A · B)^T == B^T · A^T |
| Matrices.ScaleThenMultiply | backend/app.py:199 | (k · A) · B == k · (A · B) |
| Matrices.MultiplyThenScale | backend/app.py:199 | A · (k · B) == k · (A · B) |
| Matrices.ScaledInverse | backend/app.py:354 | if B · A == d · I == A · B with d non-zero, then (1/d) · B is a two-sided inverse of A |
| Determinants.Adjugate | backend/app.py:354 | adj(A) is n×n and adj(A)[i][j] is the (j, i) cofactor |
| Determinants.Inverse | backend/app.py:354 | (1/det(A)) · adj(A) is n×n |
| Determinants.DetOneByOne | backend/app.py:256-257 | det([[a]]) == a |
| Determinants.DetTwoByTwo | backend/app.py:258-261 | det([[a, b], [c, d]]) == ad - bc |
| Determinants.DetThreeByThree | backend/app.py:262-271 | the 3×3 determinant is term1 - term2 + term3 as the working defines them |
| Determinants.DetTransposeTwoByTwo | backend/app.py:293 | algebra of the model, which the source does not state: det(A^T) == det(A) for 2×2 matrices |
| Determinants.DetTransposeThreeByThree | backend/app.py:293 | algebra of the model, which the source does not state: det(A^T) == det(A) for 3×3 matrices |
| Determinants.AdjugateTwoByTwo | backend/app.py:348 | the adjugate of [[a, b], [c, d]] is [[d, -b], [-c, a]] |
| Determinants.InverseTwoByTwo | backend/app.py:346-351 | a 2×2 inverse is (1/(ad - bc)) · [[d, -b], [-c, a]] and ad - bc is non-zero |
| Determinants.AdjugateProductTwoByTwo | backend/app.py:346-351 | adj(A) · A == det(A) · I == A · adj(A) for 2×2 matrices |
| Determinants.AdjugateProductOneByOne | backend/app.py:354 | adj([[a]]) == [[1]], and adj(A) · A == det(A) · I == A · adj(A) |
| Determinants.InverseFromAdjugate | backend/app.py:354 | once adj(A) · A == det(A) · I == A · adj(A), the inverse formula is a two-sided inverse |
| Determinants.InverseTwoByTwoIsInverse | backend/app.py:346-351 | for an invertible 2×2 matrix, A^-1 · A == I == A · A^-1 |
| Determinants.InverseOneByOneIsInverse | backend/app.py:336 | for [[a]] with a ≠ 0, the inverse is [[1/a]] and both products are I |
| History.Take | backend/app.py:90-91 | keeps the first min(|s|, n) elements unchanged |
| History.PushCapped | backend/app.py:87-91 | the new entry is first, the earlier entries follow in order, and the length is min(old + 1, 50) |
| History.PushCappedKeepsAll | backend/app.py:87-91 | below fifty entries, recording drops nothing |
| History.PushCappedDropsOldest | backend/app.py:89-91 | at fifty entries, recording drops exactly the oldest |
| History.Reversed | backend/app.py:87 | the reversal of a sequence, element by element |
| History.PushCappedOfTake | backend/app.py:87-91 | recording into a truncated history equals recording and then truncating |
| History.TakeOfAppendTake | backend/app.py:89-91 | truncating a tail first does not change the first fifty elements |
| History.PushAllNewestFirst | backend/app.py:87-91 | after any series of operations the history is the newest fifty of them and of the earlier entries, most recent first |
| Settings.InitialSettings | backend/app.py:18-37 | the stored settings if any; otherwise the defaults, with fractions shown and 4 decimal places, with which formatting does not fail |
| Settings.Merge | backend/app.py:417 | the keys are the union; updated keys take the new value and the other keys keep the old one |
| Settings.MergeIdempotent | backend/app.py:417 | algebra of the model, which the source does not state: sending the same update twice equals sending it once |
| Settings.MergeAllKeepsKeys | backend/app.py:417 | no series of updates removes a setting |
| Settings.MergeAllKeepsUntouched | backend/app.py:417 | a key no update mentions keeps its value |
| Settings.DisplayKeysSurvive | backend/app.py:417 | starting from the defaults, the two keys the formatter reads are always present |
| Settings.MergeAllKeepsDisplay | backend/app.py:417 | updates that leave show_fractions and decimal_places alone never make formatting fail where it did not fail before |
| Settings.BadPrecisionFailsOnlyWithoutFractions | backend/app.py:55-66 | with fractions turned off, a decimal_places of "abc" makes every formatting fail; with fractions on, the same value does not |
| Calculator.Displayed | backend/app.py:55-66 | an accepted operation fails with the display error exactly when the settings make every formatting fail (show_fractions missing, or off with decimal_places missing or no precision); a rejected one keeps its error |
| Calculator.FormatMatrixDisplay | backend/app.py:57-68 | the formatted matrix has as many rows as the input, each row has the same length, and entry (i, j) is the formatting of element (i, j) |
| Calculator.MatrixCalculator.constructor | backend/app.py:13-37 | settings are the stored ones or the defaults; the history is the stored one |
| Calculator.MatrixCalculator.SaveToHistory | backend/app.py:70-97 | the new history is PushCapped of the old one with the new entry |
| Calculator.MatrixCalculator.UpdateSettings | backend/app.py:414-419 | the new settings are Merge of the old ones with the request's data |
| Calculator.MatrixCalculator.Addition | backend/app.py:109-146 | answers MatrixAddition passed through Displayed for the current settings; on success records "suma" with operands matrix_a and matrix_b; on any error, the display error included, leaves the history unchanged |
| Calculator.MatrixCalculator.Subtraction | backend/app.py:148-185 | answers MatrixSubtraction passed through Displayed for the current settings; records "resta" only on success |
| Calculator.MatrixCalculator.Multiplication | backend/app.py:187-235 | answers MatrixMultiplication passed through Displayed for the current settings; records "multiplicacion" only on success |
| Calculator.MatrixCalculator.Determinant | backend/app.py:237-287 | answers the corrected MatrixDeterminant of the Findings section, passed through Displayed for the current settings; records "determinante" with the scalar result only on success. The code as written fails and records nothing for a 3×3 matrix with a zero in its first row (MatrixDeterminantAsWritten) |
| Calculator.MatrixCalculator.Transposition | backend/app.py:289-316 | answers MatrixTranspose passed through Displayed for the current settings; records "transpuesta" only on success |
| Calculator.MatrixCalculator.Inversion | backend/app.py:318-370 | answers MatrixInverse passed through Displayed for the current settings; records "inversa" only on success |

## Left out

- The Flask routes, CORS and JSON request handling (`backend/app.py:372-430`) are not part of this model. Only two routes do more than pass request fields to a calculator method. The settings route merges the request into the settings itself (`backend/app.py:417`); UpdateSettings models that merge. The clear-history route deletes the history file; its own line below says why it is left out.
- File input and output is not modelled. The history and settings live in the object's fields rather than in `matrix_history.json` and `app_settings.json`. The constructor receives the stored values, so a file that cannot be read is the `None` case. A failure while writing the history is only printed by the source, so it is not modelled.
- `get_history` is not a separate member. It reads the stored list, which here is the `history` field.
- The clear-history route (`backend/app.py:421-428`) is not modelled. It deletes a file outside the calculator object.
- `datetime.now()` is not modelled. The timestamp is a parameter of each operation.
- The text produced by number formatting is not modelled: `decimal_to_fraction`, the two formats chosen by `show_fractions`, and the working text in `steps`. FormatMatrixDisplay takes the cell formatter as a parameter. History entries hold the real values rather than formatted strings.
- Calculator.Displayed: models the formatting failures that occur whatever the elements are. It does not model one value-dependent case. With show_fractions on and decimal_places no precision, the source fails only when some displayed value is not within 1e-10 of a fraction with denominator at most 1000. The model lets those operations succeed.
- Calculator.MatrixCalculator.Determinant: follows the corrected determinant of the Findings section. For a 3×3 matrix with a zero in its first row it answers and records the determinant, where the code as written fails and records nothing.
- Floating point is not modelled, and NaN and infinity cannot occur. Entries are exact reals.
- MatrixInverse: a matrix counts as singular only when its determinant is exactly zero. The source also rejects a determinant whose absolute value is below 1e-10.
- MatrixInverse: the two-sided inverse property is proved only for sizes 1 and 2. For larger sizes the source calls numpy's `inv` with no visible algorithm. The model defines that result as (1/det(A)) · adj(A), the formula the working text names.
- MatrixDeterminant: for sizes above 3 the source calls numpy's `det`. The model uses first-row cofactor expansion.
- Empty operands, `[]` or matrices whose rows hold no entries, are all rejected with `Err(NotRectangular)`. The source's behaviour on them is not modelled, and it varies by operation and by the other operand. Some get a shape message, some raise an indexing error, and some succeed: an r×k matrix times a k×0 matrix yields an r×0 result and is recorded in the history.
- The exception texts `NotRectangular`, `NaNInWorking` and `DisplayError` stand in for the messages Python and numpy produce, which vary between versions.
- Setting values are JSON scalars. Nested arrays and objects, and the insertion order of the dictionary, are not modelled.
- The multiplication working that prints the first entries of small products is not modelled. It is text only.

## Findings

| source | as written | input that shows it | evidently intended | confidence | as-written member | corrected member |
|---|---|---|---|---|---|---|
| backend/app.py:270 | for a 3×3 matrix the working divides term1, term2 and term3 by a[0][0], a[0][1] and a[0][2]; a zero there yields 0/0 = NaN, formatting NaN raises, and the operation returns failure | [[0, 1, 0], [1, 0, 0], [0, 0, 1]], whose determinant is -1 | every square matrix gets its determinant | medium, not executed | Operations.MatrixDeterminantAsWritten, Operations.SwapMatrixDeterminantRejected | Operations.MatrixDeterminant |
