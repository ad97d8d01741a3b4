/**
 * `split_validation_csv` of build/split_validation_csv.py: a client validation table is
 * projected onto the configured input columns and onto the configured output columns.
 * The table is given as its header (the reader's field names) and its rows, each a map
 * from column name to cell text; reading and writing the CSV files is not modelled.
 */
module ValidationSplit {
  import opened Wrappers

  type Row = map<string, string>

  /** The column every projection starts with, whether or not the table has it. */
  const TimeField := "time"

  datatype SplitError = EmptyTable

  /** A warning printed about configured names the header lacks. */
  datatype Warning = MissingInputColumns(names: seq<string>) | MissingOutputColumns(names: seq<string>)

  datatype Split = Split(
    missingInputs: seq<string>,
    missingOutputs: seq<string>,
    warnings: seq<Warning>,
    inputColumns: seq<string>,
    outputColumns: seq<string>,
    inputRows: seq<Row>,
    outputRows: seq<Row>)

  /** `xs` can be obtained from `ys` by deleting elements: it keeps their order. */
  ghost predicate Subsequence<T>(xs: seq<T>, ys: seq<T>)
    decreases |ys|
  {
    if xs == [] then true
    else if ys == [] then false
    else if xs[0] == ys[0] then Subsequence(xs[1..], ys[1..])
    else Subsequence(xs, ys[1..])
  }

  /** `[name for name in names if name in header]`: the configured names the header has. */
  function Present(names: seq<string>, header: seq<string>): (r: seq<string>)
    ensures Subsequence(r, names)
    ensures forall n :: multiset(r)[n] == if n in header then multiset(names)[n] else 0
  {
    if names == [] then []
    else
      var rest := Present(names[1..], header);
      assert names == [names[0]] + names[1..];
      if names[0] in header then [names[0]] + rest
      else
        assert rest != [] ==> rest[0] in multiset(rest);
        rest
  }

  /** `[name for name in names if name not in header]`: the configured names the header lacks. */
  function Missing(names: seq<string>, header: seq<string>): (r: seq<string>)
    ensures Subsequence(r, names)
    ensures forall n :: multiset(r)[n] == if n in header then 0 else multiset(names)[n]
  {
    if names == [] then []
    else
      var rest := Missing(names[1..], header);
      assert names == [names[0]] + names[1..];
      if names[0] !in header then [names[0]] + rest
      else
        assert rest != [] ==> rest[0] in multiset(rest);
        rest
  }

  /** The columns of one projection: 'time', then the configured names the header has. */
  function Columns(names: seq<string>, header: seq<string>): (r: seq<string>)
    ensures |r| >= 1 && r[0] == TimeField
    ensures forall c :: c in r[1..] <==> c in names && c in header
  {
    var present := Present(names, header);
    assert forall c :: c in present <==> multiset(present)[c] > 0;
    assert forall c :: c in names <==> multiset(names)[c] > 0;
    assert ([TimeField] + present)[1..] == present;
    [TimeField] + present
  }

  /** `{col: row.get(col, '') for col in columns}`. */
  function ProjectRow(row: Row, columns: seq<string>): (r: Row)
    ensures r.Keys == set c | c in columns
    ensures forall c :: c in r ==> r[c] == if c in row then row[c] else ""
  {
    map c | c in columns :: if c in row then row[c] else ""
  }

  /** The warnings printed before splitting: one per non-empty list of missing names. */
  function Warnings(missingInputs: seq<string>, missingOutputs: seq<string>): (w: seq<Warning>)
    ensures MissingInputColumns(missingInputs) in w <==> missingInputs != []
    ensures MissingOutputColumns(missingOutputs) in w <==> missingOutputs != []
    ensures |w| == (if missingInputs != [] then 1 else 0) + (if missingOutputs != [] then 1 else 0)
  {
    (if missingInputs != [] then [MissingInputColumns(missingInputs)] else [])
    + (if missingOutputs != [] then [MissingOutputColumns(missingOutputs)] else [])
  }

  /** The per-row loop that hands projected rows to the CSV writer, in source order. */
  method WriteRows(rows: seq<Row>, columns: seq<string>) returns (written: seq<Row>)
    ensures |written| == |rows|
    ensures forall i :: 0 <= i < |rows| ==> written[i] == ProjectRow(rows[i], columns)
  {
    written := [];
    for i := 0 to |rows|
      invariant |written| == i
      invariant forall k :: 0 <= k < i ==> written[k] == ProjectRow(rows[k], columns)
    {
      written := written + [ProjectRow(rows[i], columns)];
    }
  }

  /**
   * The split: an empty table is an error and nothing is produced; otherwise missing names
   * are only warned about, and both projections keep every row in source order.
   */
  method SplitValidationCsv(inputNames: seq<string>, outputNames: seq<string>, header: seq<string>, rows: seq<Row>)
    returns (r: Result<Split, SplitError>)
    ensures r.Err? <==> rows == []
    ensures r.Ok? ==>
      && r.value.missingInputs == Missing(inputNames, header)
      && r.value.missingOutputs == Missing(outputNames, header)
      && r.value.warnings == Warnings(r.value.missingInputs, r.value.missingOutputs)
      && r.value.inputColumns == Columns(inputNames, header)
      && r.value.outputColumns == Columns(outputNames, header)
      && |r.value.inputRows| == |rows| && |r.value.outputRows| == |rows|
      && (forall i :: 0 <= i < |rows| ==> r.value.inputRows[i] == ProjectRow(rows[i], r.value.inputColumns))
      && (forall i :: 0 <= i < |rows| ==> r.value.outputRows[i] == ProjectRow(rows[i], r.value.outputColumns))
  {
    if rows == [] {
      return Err(EmptyTable);
    }
    var missingInputs := Missing(inputNames, header);
    var missingOutputs := Missing(outputNames, header);
    var warnings := Warnings(missingInputs, missingOutputs);
    var inputColumns := Columns(inputNames, header);
    var inputRows := WriteRows(rows, inputColumns);
    var outputColumns := Columns(outputNames, header);
    var outputRows := WriteRows(rows, outputColumns);
    r := Ok(Split(missingInputs, missingOutputs, warnings, inputColumns, outputColumns, inputRows, outputRows));
  }

  // ---------------------------------------------------------------------------
  // Properties of the projection

  /** Present and Missing split the configured names between them, none lost or repeated. */
  lemma PresentMissingPartition(names: seq<string>, header: seq<string>)
    ensures multiset(Present(names, header)) + multiset(Missing(names, header)) == multiset(names)
    ensures |Present(names, header)| + |Missing(names, header)| == |names|
  {
    var p, m := multiset(Present(names, header)), multiset(Missing(names, header));
    assert forall n :: (p + m)[n] == multiset(names)[n];
    assert p + m == multiset(names);
  }

  /**
   * A row read from the table (its keys are the header's names) keeps every selected
   * column it has verbatim, and gets '' for 'time' when the header has no such column.
   */
  lemma ProjectionOfTableRow(row: Row, names: seq<string>, header: seq<string>)
    requires row.Keys == set c | c in header
    ensures var projected := ProjectRow(row, Columns(names, header));
      && projected.Keys == {TimeField} + (set n | n in names && n in header)
      && (forall n :: n in names && n in header ==> projected[n] == row[n])
      && (TimeField !in header ==> projected[TimeField] == "")
  {
    var cols := Columns(names, header);
    var present := Present(names, header);
    forall n | n in names && n in header ensures n in present {
      assert multiset(present)[n] == multiset(names)[n];
    }
    forall n | n in present ensures n in names && n in header {
      assert multiset(present)[n] > 0;
    }
    assert (set c | c in cols) == {TimeField} + (set n | n in names && n in header);
  }
}
