/** The calculator object: it runs the six operations, records each successful one in its
    history and holds the settings that update requests overwrite. */
module Calculator {
  import opened Matrices
  import opened Operations
  import opened History
  import opened Settings

  /** What an operation produced: a matrix, or a number for the determinant. */
  datatype Answer = MatrixAnswer(matrix: Matrix) | ScalarAnswer(scalar: real)

  /** One history record: when, which operation, its operands by name, and its result. */
  datatype HistoryEntry = HistoryEntry(
    timestamp: string,
    operation: string,
    operands: map<string, Matrix>,
    result: Answer)

  /** Stands for the text of the exception raised when an element cannot be formatted
      with the current settings (a missing key or a precision that is no number). */
  const DisplayError := "invalid display settings"

  /** The answer of an operation once its operands and result are formatted for the
      reply: a rejected input stays rejected, and an accepted one fails when the settings
      make every formatting fail. */
  function Displayed<T>(r: Outcome<T>, s: SettingsMap): (d: Outcome<T>)
    ensures d.Ok? <==> r.Ok? && !DisplayFails(s)
    ensures d.Ok? || r.Err? ==> d == r
    ensures r.Ok? && DisplayFails(s) ==> d == Err(DisplayError)
  {
    if r.Ok? && DisplayFails(s) then Err(DisplayError) else r
  }

  /** Formats every element of a matrix with `cell`, keeping the rows and their lengths:
      row i of the result holds cell(matrix[i][j]) at position j. */
  method FormatMatrixDisplay(matrix: seq<seq<real>>, cell: real -> string)
    returns (formatted: seq<seq<string>>)
    ensures |formatted| == |matrix|
    ensures forall i :: 0 <= i < |matrix| ==> |formatted[i]| == |matrix[i]|
    ensures forall i, j :: 0 <= i < |matrix| && 0 <= j < |matrix[i]| ==>
      formatted[i][j] == cell(matrix[i][j])
  {
    formatted := [];
    for i := 0 to |matrix|
      invariant |formatted| == i
      invariant forall k :: 0 <= k < i ==> |formatted[k]| == |matrix[k]|
      invariant forall k, j :: 0 <= k < i && 0 <= j < |matrix[k]| ==>
        formatted[k][j] == cell(matrix[k][j])
    {
      var row := matrix[i];
      var formattedRow: seq<string> := [];
      for j := 0 to |row|
        invariant |formattedRow| == j
        invariant forall l :: 0 <= l < j ==> formattedRow[l] == cell(row[l])
      {
        formattedRow := formattedRow + [cell(row[j])];
      }
      formatted := formatted + [formattedRow];
    }
  }

  class MatrixCalculator {
    /** The stored history, most recent first. */
    var history: seq<HistoryEntry>
    var settings: SettingsMap

    /** Starts from the stored settings, or from the defaults when none could be read. */
    constructor (storedSettings: Option<SettingsMap>, storedHistory: seq<HistoryEntry>)
      ensures settings == InitialSettings(storedSettings)
      ensures history == storedHistory
    {
      if storedSettings.Some? {
        settings := storedSettings.value;
      } else {
        settings := DefaultSettings();
      }
      history := storedHistory;
    }

    /** Puts a new entry in front of the history and keeps only the newest MaxEntries. */
    method SaveToHistory(timestamp: string, operation: string, operands: map<string, Matrix>, result: Answer)
      modifies this`history
      ensures history == PushCapped(old(history), HistoryEntry(timestamp, operation, operands, result))
    {
      var entries := history;
      entries := [HistoryEntry(timestamp, operation, operands, result)] + entries;
      if |entries| > MaxEntries {
        entries := entries[..MaxEntries];
      }
      history := entries;
    }

    /** Overwrites the settings named in `data` and leaves the others alone. */
    method UpdateSettings(data: SettingsMap)
      modifies this`settings
      ensures settings == Merge(old(settings), data)
    {
      settings := settings + data;
    }

    method Addition(a: Matrix, b: Matrix, timestamp: string) returns (r: Outcome<Matrix>)
      modifies this`history
      ensures r == Displayed(MatrixAddition(a, b), settings)
      ensures r.Ok? ==> history == PushCapped(old(history),
        HistoryEntry(timestamp, "suma", map["matrix_a" := a, "matrix_b" := b], MatrixAnswer(r.value)))
      ensures r.Err? ==> history == old(history)
    {
      r := Displayed(MatrixAddition(a, b), settings);
      if r.Ok? {
        SaveToHistory(timestamp, "suma", map["matrix_a" := a, "matrix_b" := b], MatrixAnswer(r.value));
      }
    }

    method Subtraction(a: Matrix, b: Matrix, timestamp: string) returns (r: Outcome<Matrix>)
      modifies this`history
      ensures r == Displayed(MatrixSubtraction(a, b), settings)
      ensures r.Ok? ==> history == PushCapped(old(history),
        HistoryEntry(timestamp, "resta", map["matrix_a" := a, "matrix_b" := b], MatrixAnswer(r.value)))
      ensures r.Err? ==> history == old(history)
    {
      r := Displayed(MatrixSubtraction(a, b), settings);
      if r.Ok? {
        SaveToHistory(timestamp, "resta", map["matrix_a" := a, "matrix_b" := b], MatrixAnswer(r.value));
      }
    }

    method Multiplication(a: Matrix, b: Matrix, timestamp: string) returns (r: Outcome<Matrix>)
      modifies this`history
      ensures r == Displayed(MatrixMultiplication(a, b), settings)
      ensures r.Ok? ==> history == PushCapped(old(history),
        HistoryEntry(timestamp, "multiplicacion", map["matrix_a" := a, "matrix_b" := b], MatrixAnswer(r.value)))
      ensures r.Err? ==> history == old(history)
    {
      r := Displayed(MatrixMultiplication(a, b), settings);
      if r.Ok? {
        SaveToHistory(timestamp, "multiplicacion", map["matrix_a" := a, "matrix_b" := b], MatrixAnswer(r.value));
      }
    }

    method Determinant(a: Matrix, timestamp: string) returns (r: Outcome<real>)
      modifies this`history
      ensures r == Displayed(MatrixDeterminant(a), settings)
      ensures r.Ok? ==> history == PushCapped(old(history),
        HistoryEntry(timestamp, "determinante", map["matrix_a" := a], ScalarAnswer(r.value)))
      ensures r.Err? ==> history == old(history)
    {
      r := Displayed(MatrixDeterminant(a), settings);
      if r.Ok? {
        SaveToHistory(timestamp, "determinante", map["matrix_a" := a], ScalarAnswer(r.value));
      }
    }

    method Transposition(a: Matrix, timestamp: string) returns (r: Outcome<Matrix>)
      modifies this`history
      ensures r == Displayed(MatrixTranspose(a), settings)
      ensures r.Ok? ==> history == PushCapped(old(history),
        HistoryEntry(timestamp, "transpuesta", map["matrix_a" := a], MatrixAnswer(r.value)))
      ensures r.Err? ==> history == old(history)
    {
      r := Displayed(MatrixTranspose(a), settings);
      if r.Ok? {
        SaveToHistory(timestamp, "transpuesta", map["matrix_a" := a], MatrixAnswer(r.value));
      }
    }

    method Inversion(a: Matrix, timestamp: string) returns (r: Outcome<Matrix>)
      modifies this`history
      ensures r == Displayed(MatrixInverse(a), settings)
      ensures r.Ok? ==> history == PushCapped(old(history),
        HistoryEntry(timestamp, "inversa", map["matrix_a" := a], MatrixAnswer(r.value)))
      ensures r.Err? ==> history == old(history)
    {
      r := Displayed(MatrixInverse(a), settings);
      if r.Ok? {
        SaveToHistory(timestamp, "inversa", map["matrix_a" := a], MatrixAnswer(r.value));
      }
    }
  }
}
