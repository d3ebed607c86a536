/** The batch-carrying window reducer: one call, fed one record at a time. */
module Reducers {
  import opened Records
  import opened Windows
  import opened Aggregates
  import opened Grouping

  // ----- reducing one part of a record

  method ReduceCount(record: Record, col: nat, start: nat, end: nat) returns (index: nat, value: int, isNil: bool)
    requires start < end <= |record|
    ensures index == start && value == CountOf(record[start..end], col)
    ensures isNil <==> !HasValue(record[start..end], col)
  {
    value := 0;
    for i := start to end
      invariant value == CountOf(record[start..i], col)
    {
      assert record[start..i + 1] == record[start..i] + [record[i]];
      if Cell(record[i], col).Some? {
        value := value + 1;
      }
    }
    index, isNil := start, value == 0;
    TotalsOfNulls(record[start..end], col);
  }

  /** The index a sum reports counts values, not rows: it is the row number only while no null came before. */
  method ReduceSum(record: Record, col: nat, start: nat, end: nat) returns (index: nat, value: int, isNil: bool)
    requires start < end <= |record|
    ensures index == CountOf(record[..start], col) <= start
    ensures Dense(record, col) ==> index == start
    ensures value == SumOf(record[start..end], col)
    ensures isNil <==> !HasValue(record[start..end], col)
  {
    CountBound(record[..start], col);
    index := CountOf(record[..start], col);
    value := 0;
    var aggregated := 0;
    for i := start to end
      invariant value == SumOf(record[start..i], col)
      invariant aggregated == CountOf(record[start..i], col)
    {
      assert record[start..i + 1] == record[start..i] + [record[i]];
      var cell := Cell(record[i], col);
      if cell.Some? {
        value := value + cell.value;
        aggregated := aggregated + 1;
      }
    }
    isNil := aggregated == 0;
    TotalsOfNulls(record[start..end], col);
  }

  lemma {:induction false} CountBound(rows: seq<Row>, col: nat)
    ensures CountOf(rows, col) <= |rows|
    ensures Dense(rows, col) ==> CountOf(rows, col) == |rows|
  {
    if rows != [] {
      CountBound(rows[..|rows| - 1], col);
    }
  }

  /** min and max: the earliest row that holds the extreme value. */
  method ReduceExtreme(
    op: Op, record: Record, col: nat, start: nat, end: nat
  ) returns (index: nat, value: int, isNil: bool)
    requires op.Min? || op.Max?
    requires start < end <= |record|
    ensures isNil <==> !HasValue(record[start..end], col)
    ensures isNil ==> index == 0
    ensures !isNil ==> start <= index < end && Cell(record[index], col) == Some(value)
                       && IsSelected(op, record[start..end], col, index - start)
  {
    index, value, isNil := 0, 0, true;
    for i := start to end
      invariant isNil ==> index == 0 && forall j :: start <= j < i ==> Cell(record[j], col).None?
      invariant !isNil ==> start <= index < i && Cell(record[index], col) == Some(value)
      invariant !isNil ==> forall j :: start <= j < i && j != index && Cell(record[j], col).Some? ==>
        var w := Cell(record[j], col).value;
        (if op.Min? then value < w else value > w) || (value == w && index < j)
    {
      var cell := Cell(record[i], col);
      if cell.Some? && (isNil || (if op.Min? then value > cell.value else value < cell.value)) {
        index, value, isNil := i, cell.value, false;
      }
    }
    if !isNil {
      assert Cell(record[start..end][index - start], col).Some?;
      assert forall j :: 0 <= j < end - start ==> record[start..end][j] == record[start + j];
    }
  }

  method ReduceFirst(record: Record, col: nat, start: nat, end: nat) returns (index: nat, value: int, isNil: bool)
    requires start < end <= |record|
    ensures isNil <==> !HasValue(record[start..end], col)
    ensures isNil ==> index == 0
    ensures !isNil ==> start <= index < end && Cell(record[index], col) == Some(value)
                       && IsSelected(First, record[start..end], col, index - start)
  {
    for i := start to end
      invariant forall j :: start <= j < i ==> Cell(record[j], col).None?
    {
      if Cell(record[i], col).Some? {
        assert Cell(record[start..end][i - start], col).Some?;
        return i, Cell(record[i], col).value, false;
      }
    }
    return 0, 0, true;
  }

  method ReduceLast(record: Record, col: nat, start: nat, end: nat) returns (index: nat, value: int, isNil: bool)
    requires start < end <= |record|
    ensures isNil <==> !HasValue(record[start..end], col)
    ensures isNil ==> index == 0
    ensures !isNil ==> start <= index < end && Cell(record[index], col) == Some(value)
                       && IsSelected(Last, record[start..end], col, index - start)
  {
    for i := end downto start
      invariant forall j :: i <= j < end ==> Cell(record[j], col).None?
    {
      if Cell(record[i], col).Some? {
        assert Cell(record[start..end][i - start], col).Some?;
        return i, Cell(record[i], col).value, false;
      }
    }
    return 0, 0, true;
  }

  /** The row a selector has found sums up the part. */
  lemma {:induction false} SelectedPoint(
    call: Call, record: Record, start: nat, end: nat, index: nat, value: int
  )
    requires Selector(call.op) && start <= index < end <= |record| && Cell(record[index], call.col) == Some(value)
    requires IsSelected(call.op, record[start..end], call.col, index - start)
    ensures Summarises(call, record[start..end], PointAt(call, record, index, value))
  {
    var part := record[start..end];
    assert part[index - start] == record[index];
    assert HasValue(part, call.col);
    assert IsRow(call, part[index - start], PointAt(call, record, index, value));
  }

  method ReduceSelected(call: Call, record: Record, start: nat, end: nat)
    returns (index: nat, value: int, isNil: bool)
    requires Selector(call.op) && start < end <= |record|
    ensures index < |record| && (isNil <==> !HasValue(record[start..end], call.col))
    ensures !isNil ==> Summarises(call, record[start..end], PointAt(call, record, index, value))
  {
    match call.op {
      case First => index, value, isNil := ReduceFirst(record, call.col, start, end);
      case Last => index, value, isNil := ReduceLast(record, call.col, start, end);
      case _ => index, value, isNil := ReduceExtreme(call.op, record, call.col, start, end);
    }
    if !isNil {
      SelectedPoint(call, record, start, end, index, value);
    }
  }

  /** The reduce function of a call: result, and the row whose time and auxiliary columns go with it. */
  method Reduce(call: Call, record: Record, start: nat, end: nat) returns (index: nat, value: int, isNil: bool)
    requires start < end <= |record|
    ensures index < |record|
    ensures isNil <==> !HasValue(record[start..end], call.col)
    ensures !isNil ==> Summarises(call, record[start..end], PointAt(call, record, index, value))
    ensures !isNil && !Selector(call.op) && Dense(record, call.col) ==> index == start
  {
    match call.op {
      case Count => index, value, isNil := ReduceCount(record, call.col, start, end);
      case Sum => index, value, isNil := ReduceSum(record, call.col, start, end);
      case _ => index, value, isNil := ReduceSelected(call, record, start, end);
    }
  }

  function PointAt(call: Call, record: Record, index: nat, value: int): Point
    requires index < |record|
  {
    Point(value, record[index].time, if call.aux == [] then [] else Project(record[index], call.aux))
  }

  // ----- the reducer and the record it appends to

  /** Output columns: values by ordinal, the time column, and the auxiliary columns, which grow together. */
  datatype Columns = Columns(cols: seq<seq<Option<int>>>, times: seq<int>, aux: seq<seq<Option<int>>>)

  /** The record under construction, to which every call of the query appends. */
  class OutRecord {
    var columns: Columns

    constructor (width: nat)
      ensures columns == Columns(seq(width, _ => []), [], [])
    {
      columns := Columns(seq(width, _ => []), [], []);
    }
  }

  /** One emitted row. */
  datatype OutRow = OutRow(value: Option<int>, time: int, aux: seq<Option<int>>)

  /** `row` is the right answer of `call` on the window `rows`.
      A window without values yields null; nothing is promised about its time. */
  ghost predicate Answers(call: Call, rows: seq<Row>, row: OutRow, dense: bool) {
    && (row.value.None? <==> !HasValue(rows, call.col))
    && (row.value.Some? ==> Summarises(call, rows, Point(row.value.value, row.time, row.aux)))
    && (dense && !Selector(call.op) && rows != [] ==> row.time == rows[0].time)
  }

  ghost predicate AnswersAll(call: Call, windows: seq<seq<Row>>, rows: seq<OutRow>, dense: bool) {
    |rows| == |windows| && forall k :: 0 <= k < |rows| ==> Answers(call, windows[k], rows[k], dense)
  }

  lemma {:induction false} AnswersNext(call: Call, windows: seq<seq<Row>>, i: nat, rows: seq<OutRow>, more: seq<OutRow>,
                    sameWindow: bool, dense: bool)
    requires i < |windows| && AnswersAll(call, windows[..i], rows, dense)
    requires if i + 1 == |windows| && sameWindow then more == []
             else |more| == 1 && Answers(call, windows[i], more[0], dense)
    ensures AnswersAll(
        call, if i + 1 == |windows| then Closed(windows, sameWindow) else windows[..i + 1], rows + more, dense)
  {
    var done := if i + 1 == |windows| then Closed(windows, sameWindow) else windows[..i + 1];
    assert forall k :: 0 <= k < i ==> windows[..i][k] == done[k];
  }

  function ValuesOf(rows: seq<OutRow>): seq<Option<int>> {
    seq(|rows|, k requires 0 <= k < |rows| => rows[k].value)
  }

  function TimesOf(rows: seq<OutRow>): seq<int> {
    seq(|rows|, k requires 0 <= k < |rows| => rows[k].time)
  }

  function AuxOf(rows: seq<OutRow>): seq<seq<Option<int>>> {
    seq(|rows|, k requires 0 <= k < |rows| => rows[k].aux)
  }

  /** The call's own columns have grown by `rows` and no other column has changed. */
  ghost predicate Grown(call: Call, outCol: nat, multiCall: bool, was: Columns, now: Columns, rows: seq<OutRow>) {
    && outCol < |was.cols| == |now.cols|
    && now.cols[outCol] == was.cols[outCol] + ValuesOf(rows)
    && (forall k :: 0 <= k < |now.cols| && k != outCol ==> now.cols[k] == was.cols[k])
    && now.times == was.times + (if multiCall then [] else TimesOf(rows))
    && now.aux == was.aux + (if call.aux == [] then [] else AuxOf(rows))
  }

  lemma {:induction false} GrownTwice(call: Call, outCol: nat, multiCall: bool, a: Columns, b: Columns, c: Columns,
                   rows: seq<OutRow>, more: seq<OutRow>)
    requires Grown(call, outCol, multiCall, a, b, rows) && Grown(call, outCol, multiCall, b, c, more)
    ensures Grown(call, outCol, multiCall, a, c, rows + more)
  {
    assert ValuesOf(rows + more) == ValuesOf(rows) + ValuesOf(more);
    assert TimesOf(rows + more) == TimesOf(rows) + TimesOf(more);
    assert AuxOf(rows + more) == AuxOf(rows) + AuxOf(more);
  }

  class Reducer {
    const call: Call
    const outCol: nat
    ghost const dense: bool  // the column has a value in every row of the series
    var prevBuf: ColBuf
    var auxRecord: seq<seq<Option<int>>>
    ghost var carried: seq<Row>  // rows of the window left open by the last record

    constructor (call: Call, outCol: nat, ghost dense: bool)
      ensures this.call == call && this.outCol == outCol && this.dense == dense
      ensures Valid() && carried == []
    {
      this.call, this.outCol, this.dense := call, outCol, dense;
      prevBuf := ColBuf(0, 0, 0, true);
      auxRecord, carried := [], [];
    }

    /** The carried buffer is exactly the result on the carried rows, and the auxiliary
        record holds exactly the auxiliary columns of the row now selected. */
    ghost predicate Valid()
      reads this
    {
      && (dense && carried != [] ==> !prevBuf.isNil)
      && (prevBuf.isNil ==> !HasValue(carried, call.col) && auxRecord == [])
      && (!prevBuf.isNil ==>
            && prevBuf.index == 0
            && |auxRecord| == (if call.aux == [] then 0 else 1)
            && Answers(call, carried, CarriedRow(), dense))
    }

    ghost function CarriedRow(): OutRow
      reads this
      requires |auxRecord| == (if call.aux == [] then 0 else 1)
    {
      OutRow(Some(prevBuf.value), prevBuf.time, if call.aux == [] then [] else auxRecord[0])
    }

    /** Appends one row: value, time unless the cursor does it, and the auxiliary columns if any. */
    method Emit(out: OutRecord, row: OutRow, multiCall: bool) returns (ghost rows: seq<OutRow>)
      requires outCol < |out.columns.cols|
      modifies out
      ensures rows == [row] && Grown(call, outCol, multiCall, old(out.columns), out.columns, rows)
    {
      rows := [row];
      var Columns(cols, times, aux) := out.columns;
      out.columns := Columns(cols[outCol := cols[outCol] + [row.value]],
                             if multiCall then times else times + [row.time],
                             if call.aux == [] then aux else aux + [row.aux]);
    }

    /** What one part of a record must achieve: the window so far is either left open or
        reported once, and then nothing stays behind. */
    twostate predicate Handled(out: OutRecord, part: seq<Row>, open: bool, multiCall: bool, rows: seq<OutRow>)
      reads this, out
    {
      && Valid()
      && Grown(call, outCol, multiCall, old(out.columns), out.columns, rows)
      && if open then carried == old(carried) + part && rows == []
         else carried == [] && |rows| == 1 && Answers(call, old(carried) + part, rows[0], dense)
    }

    /** The carried result merged with the part just reduced, and the auxiliary row that goes with it. */
    method Merged(record: Record, start: nat, end: nat, index: nat, value: int)
      returns (merged: ColBuf, aux: seq<Option<int>>)
      requires Valid() && !prevBuf.isNil && start < end <= |record| && index < |record|
      requires Summarises(call, record[start..end], PointAt(call, record, index, value))
      ensures !merged.isNil
      ensures Answers(call, carried + record[start..end], OutRow(Some(merged.value), merged.time, aux), dense)
      ensures call.aux == [] ==> aux == []
      ensures call.aux != [] && merged.index == 0 ==> aux == auxRecord[0]
    {
      merged := Merge(call.op, prevBuf, ColBuf(index + 1, record[index].time, value, false));
      ghost var was := CarriedRow();
      assert prevBuf == ColBuf(0, was.time, was.value.value, false);
      ghost var row := MergeAnswers(call, carried, record[start..end], was, record, index, value, dense);
      if call.aux == [] {
        aux := [];
      } else {
        aux := if merged.index == 0 then auxRecord[0] else Project(record[merged.index - 1], call.aux);
      }
    }

    /** A part with a value, and a carried result of the same window. */
    method MergeCarried(record: Record, start: nat, end: nat, index: nat, value: int,
                        open: bool, multiCall: bool, out: OutRecord)
      returns (ghost rows: seq<OutRow>)
      requires Valid() && !prevBuf.isNil && start < end <= |record| && index < |record| && outCol < |out.columns.cols|
      requires Summarises(call, record[start..end], PointAt(call, record, index, value))
      modifies this, out
      ensures Handled(out, record[start..end], open, multiCall, rows)
    {
      var merged, aux := Merged(record, start, end, index, value);
      rows := [];
      if open {
        if call.aux != [] && merged.index > 0 {
          auxRecord := [aux];
        }
        prevBuf, carried := merged.(index := 0), carried + record[start..end];
        assert CarriedRow() == OutRow(Some(merged.value), merged.time, aux);
      } else {
        rows := Emit(out, OutRow(Some(merged.value), merged.time, aux), multiCall);
        prevBuf, auxRecord, carried := merged.(isNil := true), [], [];
      }
    }

    /** A part with a value, and nothing carried but possibly rows without values. */
    method StartFresh(record: Record, start: nat, end: nat, index: nat, value: int,
                      open: bool, multiCall: bool, out: OutRecord)
      returns (ghost rows: seq<OutRow>)
      requires Valid() && prevBuf.isNil && start < end <= |record| && index < |record| && outCol < |out.columns.cols|
      requires Summarises(call, record[start..end], PointAt(call, record, index, value))
      requires dense && !Selector(call.op) ==> index == start
      modifies this, out
      ensures Handled(out, record[start..end], open, multiCall, rows)
    {
      ghost var part := record[start..end];
      NullsBefore(call, carried, part, PointAt(call, record, index, value));
      var aux := if call.aux == [] then [] else Project(record[index], call.aux);
      assert PointAt(call, record, index, value) == Point(value, record[index].time, aux);
      rows := [];
      if open {
        prevBuf := ColBuf(0, record[index].time, value, false);
        if call.aux != [] {
          auxRecord := auxRecord + [aux];
        }
        carried := carried + part;
      } else {
        rows := Emit(out, OutRow(Some(value), record[index].time, aux), multiCall);
        carried := [];
      }
    }

    /** A part without a value. */
    method PassNulls(record: Record, start: nat, end: nat, index: nat,
                     open: bool, multiCall: bool, out: OutRecord)
      returns (ghost rows: seq<OutRow>)
      requires Valid() && start < end <= |record| && index < |record| && outCol < |out.columns.cols|
      requires !dense && !HasValue(record[start..end], call.col)
      modifies this, out
      ensures Handled(out, record[start..end], open, multiCall, rows)
    {
      ghost var part := record[start..end];
      HasValueConcat(carried, part, call.col);
      if !prevBuf.isNil {
        ghost var row := CarriedRow();
        NullsAfter(call, carried, part, Point(prevBuf.value, prevBuf.time, row.aux));
      }
      rows := [];
      if !prevBuf.isNil && !open {
        var aux := if call.aux == [] then [] else auxRecord[prevBuf.index];
        rows := Emit(out, OutRow(Some(prevBuf.value), prevBuf.time, aux), multiCall);
        auxRecord := [];
        prevBuf := prevBuf.(isNil := true);
        carried := [];
      } else if open {
        carried := carried + part;
      } else {
        var aux := if call.aux == [] then [] else Project(record[index], call.aux);
        rows := Emit(out, OutRow(None, record[index].time, aux), multiCall);
        carried := [];
      }
    }

    /** One iteration of the reducer: the part [start, end) of the record, which is the record's
        first or last window or both. `sameWindow` says the last one continues in the next record. */
    method AggregateWindow(record: Record, start: nat, end: nat, first: bool, last: bool,
                           sameWindow: bool, multiCall: bool, out: OutRecord)
      returns (ghost rows: seq<OutRow>)
      requires Valid() && start < end <= |record| && outCol < |out.columns.cols|
      requires !first ==> carried == []
      requires dense ==> Dense(record, call.col)
      modifies this, out
      ensures Handled(out, record[start..end], last && sameWindow, multiCall, rows)
    {
      var index, value, isNil := Reduce(call, record, start, end);
      if !(call.op.First? || call.op.Last?) && !HasValue(record, call.col) {
        SubHasValue(record, start, end, call.col);
        index := start;
      }
      assert Dense(record, call.col) ==> Cell(record[start..end][0], call.col).Some?;
      if isNil {
        rows := PassNulls(record, start, end, index, last && sameWindow, multiCall, out);
      } else if first && !prevBuf.isNil {
        rows := MergeCarried(record, start, end, index, value, last && sameWindow, multiCall, out);
      } else {
        rows := StartFresh(record, start, end, index, value, last && sameWindow, multiCall, out);
      }
    }

    /** Feeds one record, cut into windows by `index`. The window left open by the previous record
        continues in the first part; the last part stays open when `sameWindow` holds. */
    method Aggregate(record: Record, index: seq<nat>, sameWindow: bool, multiCall: bool, out: OutRecord)
      returns (ghost rows: seq<OutRow>)
      requires Valid() && record != [] && IsIndex(record, index) && outCol < |out.columns.cols|
      requires dense ==> Dense(record, call.col)
      modifies this, out
      ensures Valid()
      ensures
        var windows := JoinFirst(old(carried), Slices(record, index));
        carried == StillOpen(windows, sameWindow) && AnswersAll(call, Closed(windows, sameWindow), rows, dense)
      ensures Grown(call, outCol, multiCall, old(out.columns), out.columns, rows)
    {
      ghost var parts := Slices(record, index);
      ghost var windows := JoinFirst(carried, parts);
      rows := [];
      for i := 0 to |index|
        invariant Valid()
        invariant carried
               == if i == 0 then old(carried) else if i == |index| then StillOpen(windows, sameWindow) else []
        invariant AnswersAll(call, if i == |index| then Closed(windows, sameWindow) else windows[..i], rows, dense)
        invariant Grown(call, outCol, multiCall, old(out.columns), out.columns, rows)
      {
        ghost var columns, before := out.columns, carried;
        var end := EndOf(record, index, i);
        ghost var more := AggregateWindow(record, index[i], end, i == 0, i + 1 == |index|, sameWindow, multiCall, out);
        GrownTwice(call, outCol, multiCall, old(out.columns), columns, out.columns, rows, more);
        assert windows[i] == before + record[index[i]..end];
        AnswersNext(call, windows, i, rows, more, sameWindow, dense);
        rows := rows + more;
      }
    }
  }

  /** The auxiliary row that goes with a merged buffer: the carried one, or that of the row just merged. */
  function MergedAux(call: Call, merged: ColBuf, carriedAux: seq<Option<int>>, record: Record): seq<Option<int>>
    requires merged.index <= |record|
  {
    if call.aux == [] then [] else if merged.index == 0 then carriedAux else Project(record[merged.index - 1], call.aux)
  }

  lemma {:induction false} MergeKeepsPoint(call: Call, row: OutRow, record: Record, index: nat, value: int)
    requires row.value.Some? && index < |record| && (call.aux == [] ==> row.aux == [])
    ensures
      var carriedBuf, newBuf := ColBuf(0, row.time, row.value.value, false),
        ColBuf(index + 1, record[index].time, value, false);
      var m := Merge(call.op, carriedBuf, newBuf);
      && !m.isNil
      && (m.index == 0 || m.index == index + 1)
      && MergePoint(call.op, Point(row.value.value, row.time, row.aux), PointAt(call, record, index, value))
         == Point(m.value, m.time, MergedAux(call, m, row.aux, record))
  {
  }

  /** The merged buffer, with the auxiliary row it points at, answers the longer window. */
  lemma {:induction false} MergeAnswers(call: Call, carried: seq<Row>, part: seq<Row>, row: OutRow,
                                        record: Record, index: nat, value: int, dense: bool)
    returns (joint: OutRow)
    requires row.value.Some? && Answers(call, carried, row, dense) && index < |record|
    requires call.aux == [] ==> row.aux == []
    requires Summarises(call, part, PointAt(call, record, index, value))
    ensures Answers(call, carried + part, joint, dense)
    ensures
      var carriedBuf, newBuf := ColBuf(0, row.time, row.value.value, false),
        ColBuf(index + 1, record[index].time, value, false);
      var m := Merge(call.op, carriedBuf, newBuf);
      && !m.isNil
      && m.index <= |record|
      && joint == OutRow(Some(m.value), m.time, MergedAux(call, m, row.aux, record))
  {
    var p, q := Point(row.value.value, row.time, row.aux), PointAt(call, record, index, value);
    MergeSummarises(call, carried, part, p, q);
    MergeKeepsPoint(call, row, record, index, value);
    var m := MergePoint(call.op, p, q);
    joint := OutRow(Some(m.value), m.time, m.aux);
  }

  lemma {:induction false} SubHasValue(record: Record, start: nat, end: nat, col: nat)
    requires start <= end <= |record|
    ensures HasValue(record[start..end], col) ==> HasValue(record, col)
  {
    if HasValue(record[start..end], col) {
      var k :| 0 <= k < end - start && Cell(record[start..end][k], col).Some?;
      assert Cell(record[start + k], col).Some?;
    }
  }
}
