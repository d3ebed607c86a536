/** Writing a downsampled series: one column for each field, but the time column of the first field only. */
module DownsampleWriter {
  import opened Records
  import opened Grid
  import opened FieldGrid

  /** Rows of one field, as one record or as all that was sent of it. */
  datatype FieldRows = FieldRows(field: nat, rows: seq<AggRow>)

  datatype Column = Column(field: nat, values: seq<seq<Option<int>>>)

  function ValuesOfRows(rows: seq<AggRow>): seq<seq<Option<int>>> {
    seq(|rows|, k requires 0 <= k < |rows| => rows[k].values)
  }

  function ColumnsOf(runs: seq<FieldRows>): seq<Column> {
    seq(|runs|, k requires 0 <= k < |runs| => Column(runs[k].field, ValuesOfRows(runs[k].rows)))
  }

  /** One more record extends the last field or begins the next one. */
  function Joined(runs: seq<FieldRows>, record: FieldRows): seq<FieldRows> {
    var n := |runs| - 1;
    if runs != [] && runs[n].field == record.field
    then runs[..n] + [FieldRows(record.field, runs[n].rows + record.rows)]
    else runs + [record]
  }

  /** The records of a series, joined field by field. */
  function FieldRuns(log: seq<FieldRows>): seq<FieldRows> {
    if log == [] then [] else Joined(FieldRuns(log[..|log| - 1]), log[|log| - 1])
  }

  /** Every row with its field. */
  function Tagged(run: FieldRows): seq<(nat, AggRow)> {
    seq(|run.rows|, k requires 0 <= k < |run.rows| => (run.field, run.rows[k]))
  }

  function AllTagged(runs: seq<FieldRows>): seq<(nat, AggRow)> {
    if runs == [] then [] else AllTagged(runs[..|runs| - 1]) + Tagged(runs[|runs| - 1])
  }

  ghost predicate Changes(runs: seq<FieldRows>) {
    forall i, j :: 0 <= i < j < |runs| && j == i + 1 ==> runs[i].field != runs[j].field
  }

  lemma {:induction false} JoinedKeeps(runs: seq<FieldRows>, record: FieldRows)
    requires Changes(runs)
    ensures AllTagged(Joined(runs, record)) == AllTagged(runs) + Tagged(record) && Changes(Joined(runs, record))
  {
    var n, joined := |runs| - 1, Joined(runs, record);
    if runs != [] && runs[n].field == record.field {
      assert joined[..n] == runs[..n];
      assert Tagged(joined[n]) == Tagged(runs[n]) + Tagged(record);
      Associate(AllTagged(runs[..n]), Tagged(runs[n]), Tagged(record));
    } else {
      assert joined[..|runs|] == runs;
    }
  }

  /** Joining loses no row and moves none to another field, and neighbouring fields differ. */
  lemma {:induction false} FieldRunsMeaning(log: seq<FieldRows>)
    ensures AllTagged(FieldRuns(log)) == AllTagged(log) && Changes(FieldRuns(log))
  {
    if log != [] {
      FieldRunsMeaning(log[..|log| - 1]);
      JoinedKeeps(FieldRuns(log[..|log| - 1]), log[|log| - 1]);
    }
  }

  /** What the writer holds once the given fields were sent: all but the last are written, and the time
      column is that of the first. */
  ghost predicate Holds(
    runs: seq<FieldRows>, written: seq<Column>, field: nat, curr: seq<seq<Option<int>>>, timeInit: bool, times: seq<int>
  ) {
    && runs != []
    && var n := |runs| - 1;
       && written == ColumnsOf(runs[..n])
       && field == runs[n].field && curr == ValuesOfRows(runs[n].rows)
       && timeInit == (n > 0) && times == TimesOfRows(runs[0].rows)
  }

  class SeriesWriter {
    var started: bool
    var timeInit: bool  // the time column is complete
    var currField: nat
    var timeCol: seq<int>
    var curr: seq<seq<Option<int>>>
    var written: seq<Column>
    ghost var runs: seq<FieldRows>

    constructor ()
      ensures Valid() && runs == []
    {
      started, timeInit, currField, timeCol, curr, written, runs := false, false, 0, [], [], [], [];
    }

    ghost predicate Valid()
      reads this
    {
      && started == (runs != [])
      && if started then Holds(runs, written, currField, curr, timeInit, timeCol) else written == []
    }

    method WriteRecord(record: FieldRows)
      requires Valid()
      modifies this
      ensures Valid() && runs == Joined(old(runs), record)
    {
      if !started {
        started, timeInit, currField := true, false, record.field;
        timeCol, curr := TimesOfRows(record.rows), ValuesOfRows(record.rows);
      } else if currField != record.field {
        NextField(runs, record, written, currField, curr, timeInit, timeCol);
        timeInit := true;
        written := written + [Column(currField, curr)];
        curr, currField := ValuesOfRows(record.rows), record.field;
      } else {
        SameField(runs, record, written, currField, curr, timeInit, timeCol);
        if !timeInit {
          timeCol := timeCol + TimesOfRows(record.rows);
        }
        curr := curr + ValuesOfRows(record.rows);
      }
      runs := Joined(runs, record);
    }

    /** The last field is written when the file ends. */
    method EndFile() returns (columns: seq<Column>, times: seq<int>)
      requires Valid() && runs != []
      ensures columns == ColumnsOf(runs) && times == TimesOfRows(runs[0].rows)
    {
      AllWritten(runs, written, currField, curr, timeInit, timeCol);
      columns, times := written + [Column(currField, curr)], timeCol;
    }
  }

  /** The records of a series, one after the other. */
  method WriteSeries(records: seq<FieldRows>) returns (columns: seq<Column>, times: seq<int>)
    ensures columns == ColumnsOf(FieldRuns(records))
    ensures times == if records == [] then [] else TimesOfRows(FieldRuns(records)[0].rows)
  {
    var writer := new SeriesWriter();
    for i := 0 to |records|
      invariant writer.Valid() && fresh(writer) && writer.runs == FieldRuns(records[..i])
      invariant i > 0 ==> writer.runs != []
    {
      TakeNext(records, i);
      assert records[..i + 1][..i] == records[..i];
      writer.WriteRecord(records[i]);
    }
    assert records[..|records|] == records;
    if records == [] {
      return [], [];
    }
    columns, times := writer.EndFile();
  }

  lemma {:induction false} RowsJoin(a: seq<AggRow>, b: seq<AggRow>)
    ensures TimesOfRows(a + b) == TimesOfRows(a) + TimesOfRows(b)
    ensures ValuesOfRows(a + b) == ValuesOfRows(a) + ValuesOfRows(b)
  {
  }

  lemma {:induction false} SameField(
    runs: seq<FieldRows>, record: FieldRows,
    written: seq<Column>, field: nat, curr: seq<seq<Option<int>>>, timeInit: bool, times: seq<int>
  )
    requires Holds(runs, written, field, curr, timeInit, times) && field == record.field
    ensures Holds(
        Joined(runs, record), written, field, curr + ValuesOfRows(record.rows), timeInit,
        if timeInit then times else times + TimesOfRows(record.rows))
  {
    var n := |runs| - 1;
    RowsJoin(runs[n].rows, record.rows);
    assert Joined(runs, record)[..n] == runs[..n];
  }

  lemma {:induction false} NextField(
    runs: seq<FieldRows>, record: FieldRows,
    written: seq<Column>, field: nat, curr: seq<seq<Option<int>>>, timeInit: bool, times: seq<int>
  )
    requires Holds(runs, written, field, curr, timeInit, times) && field != record.field
    ensures Holds(
        Joined(runs, record), written + [Column(field, curr)], record.field, ValuesOfRows(record.rows), true, times)
  {
    AllWritten(runs, written, field, curr, timeInit, times);
    assert (runs + [record])[..|runs|] == runs;
  }

  lemma {:induction false} AllWritten(
    runs: seq<FieldRows>, written: seq<Column>, field: nat, curr: seq<seq<Option<int>>>, timeInit: bool, times: seq<int>
  )
    requires Holds(runs, written, field, curr, timeInit, times)
    ensures written + [Column(field, curr)] == ColumnsOf(runs)
  {
  }
}
