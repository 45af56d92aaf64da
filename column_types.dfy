/**
 * `detectTypes`: one coarse label per header position, inferred from a
 * sample of that column's non-empty cells. Whether a cell reads as a number
 * (`Number(v)` is not NaN) or as a date (`Date.parse(v)` is not NaN) is
 * JavaScript runtime behaviour; the model takes both as predicates.
 */
module ColumnTypes {
  import opened Wrappers

  datatype ColumnType = Numeric | Datetime | Categorical

  /** At most this many non-empty cells of a column are sampled. */
  const SampleSize: nat := 50

  /**
   * `rows.map((r) => r[col]).filter((v) => v !== undefined && v !== '')`:
   * the column's defined, non-empty cells in row order. A row too short to
   * have the column yields `undefined` and is dropped.
   */
  function CellsOf(rows: seq<seq<string>>, col: nat): (cells: seq<string>)
    ensures |cells| <= |rows|
    ensures forall v :: v in cells ==> v != ""
  {
    if |rows| == 0 then []
    else (if col < |rows[0]| && rows[0][col] != "" then [rows[0][col]] else []) + CellsOf(rows[1..], col)
  }

  /** A value is among a column's cells exactly when some row holds it, non-empty, at that column. */
  lemma {:induction false} CellsOfMembership(rows: seq<seq<string>>, col: nat, v: string)
    ensures v in CellsOf(rows, col) <==>
      v != "" && exists i :: 0 <= i < |rows| && col < |rows[i]| && rows[i][col] == v
    decreases |rows|
  {
    if |rows| > 0 {
      CellsOfMembership(rows[1..], col, v);
      if v != "" && exists i :: 0 <= i < |rows| && col < |rows[i]| && rows[i][col] == v {
        var i :| 0 <= i < |rows| && col < |rows[i]| && rows[i][col] == v;
        if i > 0 {
          assert rows[1..][i - 1] == rows[i];
        }
      }
    }
  }

  /** Collecting cells distributes over concatenation of rows: row order is kept. */
  lemma {:induction false} CellsOfAppend(a: seq<seq<string>>, b: seq<seq<string>>, col: nat)
    ensures CellsOf(a + b, col) == CellsOf(a, col) + CellsOf(b, col)
    decreases |a|
  {
    if |a| == 0 {
      assert a + b == b;
    } else {
      assert (a + b)[1..] == a[1..] + b;
      CellsOfAppend(a[1..], b, col);
    }
  }

  /** A row that is too short for the column, or empty there, contributes nothing wherever it stands. */
  lemma ShortRowContributesNothing(a: seq<seq<string>>, r: seq<string>, b: seq<seq<string>>, col: nat)
    requires col >= |r| || r[col] == ""
    ensures CellsOf(a + [r] + b, col) == CellsOf(a + b, col)
  {
    CellsOfAppend(a + [r], b, col);
    CellsOfAppend(a, [r], col);
    CellsOfAppend(a, b, col);
    assert CellsOf([r], col) == [];
  }

  /** `.slice(0, 50)` of the cells: the first non-empty cells of the column, at most 50. */
  function Sample(rows: seq<seq<string>>, col: nat): (s: seq<string>)
    ensures |s| <= SampleSize
    ensures |s| == Min(|CellsOf(rows, col)|, SampleSize)
    ensures s <= CellsOf(rows, col)
  {
    var cells := CellsOf(rows, col);
    cells[..Min(|cells|, SampleSize)]
  }

  /**
   * The precedence of `detectTypes`: numeric when every sample is a number,
   * otherwise datetime when every sample is a date, otherwise categorical.
   */
  function Classify(samples: seq<string>, isNumber: string -> bool, isDate: string -> bool): (t: ColumnType)
    ensures t == Numeric <==> forall v :: v in samples ==> isNumber(v)
    ensures t == Datetime <==>
      (exists v :: v in samples && !isNumber(v)) && (forall v :: v in samples ==> isDate(v))
    ensures t == Categorical <==>
      (exists v :: v in samples && !isNumber(v)) && (exists v :: v in samples && !isDate(v))
  {
    if forall v :: v in samples ==> isNumber(v) then Numeric
    else if forall v :: v in samples ==> isDate(v) then Datetime
    else Categorical
  }

  /** The label of column `col`. */
  function ColumnTypeOf(rows: seq<seq<string>>, col: nat, isNumber: string -> bool, isDate: string -> bool): ColumnType
  {
    Classify(Sample(rows, col), isNumber, isDate)
  }

  /** `detectTypes(rows, header)`: exactly one label per header position, each from its own column. */
  function DetectTypes(rows: seq<seq<string>>, header: seq<string>, isNumber: string -> bool, isDate: string -> bool)
    : (types: seq<ColumnType>)
    ensures |types| == |header|
    ensures forall c :: 0 <= c < |types| ==> types[c] == Classify(Sample(rows, c), isNumber, isDate)
  {
    seq(|header|, c requires 0 <= c < |header| => ColumnTypeOf(rows, c, isNumber, isDate))
  }

  /** Once a column has 50 non-empty cells, later rows cannot change its sample. */
  lemma SampleIgnoresLaterRows(rows: seq<seq<string>>, more: seq<seq<string>>, col: nat)
    requires |CellsOf(rows, col)| >= SampleSize
    ensures Sample(rows + more, col) == Sample(rows, col)
  {
    CellsOfAppend(rows, more, col);
  }

  /** Rows past the 50th non-empty cell of every column cannot change any label. */
  lemma DetectTypesIgnoresLaterRows(rows: seq<seq<string>>, more: seq<seq<string>>, header: seq<string>,
                                    isNumber: string -> bool, isDate: string -> bool)
    requires forall c :: 0 <= c < |header| ==> |CellsOf(rows, c)| >= SampleSize
    ensures DetectTypes(rows + more, header, isNumber, isDate) == DetectTypes(rows, header, isNumber, isDate)
  {
    forall c | 0 <= c < |header| ensures Sample(rows + more, c) == Sample(rows, c) {
      SampleIgnoresLaterRows(rows, more, c);
    }
  }

  /**
   * A column with no non-empty cell is labelled numeric: `every` over an
   * empty sample holds.
   */
  lemma EmptyColumnIsNumeric(rows: seq<seq<string>>, col: nat, isNumber: string -> bool, isDate: string -> bool)
    requires forall i :: 0 <= i < |rows| ==> col >= |rows[i]| || rows[i][col] == ""
    ensures ColumnTypeOf(rows, col, isNumber, isDate) == Numeric
  {
    var cells := CellsOf(rows, col);
    if cells != [] {
      CellsOfMembership(rows, col, cells[0]);
      assert false;
    }
  }

  /** Numbers win over dates: a column whose samples are all numbers is numeric even if they are also dates. */
  lemma NumericBeatsDatetime(rows: seq<seq<string>>, col: nat, isNumber: string -> bool, isDate: string -> bool)
    requires forall v :: v in Sample(rows, col) ==> isNumber(v) && isDate(v)
    ensures ColumnTypeOf(rows, col, isNumber, isDate) == Numeric
  {
  }

  /**
   * A datetime label means every sampled cell is a date; any label other
   * than numeric means some row holds a non-empty cell in the column that is
   * not a number.
   */
  lemma LabelWitnesses(rows: seq<seq<string>>, col: nat, isNumber: string -> bool, isDate: string -> bool)
    ensures ColumnTypeOf(rows, col, isNumber, isDate) == Datetime ==>
      forall v :: v in Sample(rows, col) ==> isDate(v)
    ensures ColumnTypeOf(rows, col, isNumber, isDate) != Numeric ==>
      exists i :: 0 <= i < |rows| && col < |rows[i]| && rows[i][col] != "" && !isNumber(rows[i][col])
  {
    var s := Sample(rows, col);
    if ColumnTypeOf(rows, col, isNumber, isDate) != Numeric {
      var v :| v in s && !isNumber(v);
      CellsOfMembership(rows, col, v);
    }
  }

  /** Three sample columns get the three labels, given how the runtime reads those cells. */
  lemma ClassifyExamples(isNumber: string -> bool, isDate: string -> bool)
    requires isNumber("1") && isNumber("2") && isNumber("3")
    requires !isNumber("2024-01-01") && !isNumber("2024-02-01") && isDate("2024-01-01") && isDate("2024-02-01")
    requires !isNumber("red") && !isDate("red")
    ensures Classify(["1", "2", "3"], isNumber, isDate) == Numeric
    ensures Classify(["2024-01-01", "2024-02-01"], isNumber, isDate) == Datetime
    ensures Classify(["red", "blue", "red"], isNumber, isDate) == Categorical
  {
    assert "red" in ["red", "blue", "red"];
    assert "2024-01-01" in ["2024-01-01", "2024-02-01"];
  }
}
