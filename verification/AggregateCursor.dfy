/** The aggregating cursor: pulls records, peeks one ahead, and hands out records of aggregated rows. */
module AggregateCursors {
  import opened Records
  import opened Windows
  import opened Aggregates
  import opened Grouping
  import opened Reducers

  class AggregateCursor {
    const interval: nat  // 0: no grouping by time
    const maxRecordSize: nat
    const width: nat  // number of output columns
    const reducers: seq<Reducer>
    var input: seq<Record>  // what the cursor below has still to deliver
    var bufRecord: Option<Record>
    var inNextWin: bool
    ghost var carried: seq<Row>  // rows of the window left open, the same for every call

    constructor (interval: nat, maxRecordSize: nat, width: nat, reducers: seq<Reducer>, input: seq<Record>)
      requires maxRecordSize > 0
      requires ReducersFit(reducers, width) && RecordsFit(reducers, input)
      requires AllCarry(reducers, 0, |reducers|, [])
      ensures this.interval == interval && this.width == width && this.reducers == reducers
      ensures Valid() && Pending() == input && carried == []
    {
      this.interval, this.maxRecordSize, this.width := interval, maxRecordSize, width;
      this.reducers, this.input := reducers, input;
      bufRecord, inNextWin, carried := None, false, [];
    }

    /** The records not yet reduced: the one put back, then the input. */
    function Pending(): seq<Record>
      reads this
    {
      (if bufRecord.Some? then [bufRecord.value] else []) + input
    }

    ghost predicate Valid()
      reads this, reducers
    {
      && maxRecordSize > 0
      && ReducersFit(reducers, width)
      && RecordsFit(reducers, Pending())
      && AllCarry(reducers, 0, |reducers|, carried)
    }

    /** The windows still to be reported from here on. */
    ghost function Future(): seq<seq<Row>>
      reads this
    {
      Groups(Aligned(interval), carried, Pending())
    }

    method NextRecord() returns (record: Option<Record>)
      modifies this`bufRecord, this`input
      ensures record.None? <==> old(Pending()) == []
      ensures record.None? ==> Pending() == []
      ensures record.Some? ==> [record.value] + Pending() == old(Pending())
      ensures bufRecord.None?
    {
      if bufRecord.Some? {
        record := bufRecord;
        bufRecord := None;
      } else if input == [] {
        record := None;
      } else {
        record := Some(input[0]);
        input := input[1..];
      }
    }

    method UnreadRecord(record: Record)
      requires bufRecord.None?
      modifies this`bufRecord
      ensures Pending() == [record] + old(Pending())
    {
      bufRecord := Some(record);
    }

    method PeekRecord() returns (record: Option<Record>)
      modifies this`bufRecord, this`input
      ensures Pending() == old(Pending())
      ensures record == if Pending() == [] then None else Some(Pending()[0])
    {
      record := NextRecord();
      bufRecord := record;
    }

    method InNextWindow(current: Record)
      requires current != []
      modifies this`bufRecord, this`input, this`inNextWin
      ensures Pending() == old(Pending())
      ensures inNextWin == GoesOn(Aligned(interval), current, Pending())
    {
      var next := PeekRecord();
      inNextWin := Peek(interval, current, if next.None? then [] else [next.value]);
    }

    /** What is handed out and what is still to be reported make up `total`. */
    ghost predicate InNext(
      total: seq<seq<Row>>, out: OutRecord, closed: seq<seq<Row>>, rows: seq<seq<OutRow>>
    )
      reads this, reducers, out
    {
      && Valid() && Splits(Aligned(interval), total, closed, carried, Pending())
      && Extends(reducers, EmptyColumns(width), out.columns, closed, rows)
    }

    /** Decides whether the record's last window goes on, then reduces the record. */
    method Consume(
      record: Record, out: OutRecord, ghost total: seq<seq<Row>>, ghost before: seq<seq<Row>>,
      ghost beforeRows: seq<seq<OutRow>>
    ) returns (ghost closed: seq<seq<Row>>, ghost rows: seq<seq<OutRow>>)
      requires Valid() && record != [] && RecordFits(reducers, record)
      requires Splits(Aligned(interval), total, before, carried, [record] + Pending())
      requires Extends(reducers, EmptyColumns(width), out.columns, before, beforeRows)
      modifies this`bufRecord, this`input, this`inNextWin, this`carried, reducers, out
      ensures Pending() == old(Pending()) && InNext(total, out, closed, rows)
      ensures |closed| <= |before| + |record| && !inNextWin
    {
      RunsBound(Aligned(interval), record);
      InNextWindow(record);
      GroupsGoOn(Aligned(interval), total, before, carried, record, Pending());
      closed, rows := ReduceMore(interval, reducers, record, inNextWin, carried, out, width, before, beforeRows);
      carried := StillOpen(JoinFirst(carried, Runs(Aligned(interval), record)), inNextWin);
      inNextWin := false;
    }

    /** Hands out the next record of aggregated rows, or null when the input is used up. What it reports
        is a prefix of what was still to be reported, and each row is right for its window. Records are read until
        the record size is reached or none is left, and not longer. */
    method Next() returns (out: OutRecord?, ghost closed: seq<seq<Row>>, ghost rows: seq<seq<OutRow>>)
      requires Valid()
      modifies this, reducers
      ensures Valid()
      ensures old(Future()) == closed + Future()
      ensures out == null ==> closed == [] && Pending() == []
      ensures out != null ==>
        && fresh(out)
        && |Pending()| < |old(Pending())|
        && |out.columns.times| > 0
        && Extends(reducers, EmptyColumns(width), out.columns, closed, rows)
        && (Pending() == [] || |out.columns.times| >= maxRecordSize)
        && ReadUpTo(maxRecordSize, old(Pending()), Pending(), |out.columns.times|)
    {
      ghost var total, pending := Future(), Pending();
      var newRecord := new OutRecord(width);
      closed, rows := [], seq(|reducers|, _ => []);
      ExtendsNothing(reducers, EmptyColumns(width));
      var more := true;
      while more
        invariant InNext(total, newRecord, closed, rows) && fresh(newRecord)
        invariant newRecord.columns.times != [] ==> |Pending()| < |old(Pending())|
        invariant !more ==> |newRecord.columns.times| >= maxRecordSize || Pending() == []
        invariant ReadUpTo(maxRecordSize, pending, Pending(), |newRecord.columns.times|)
        decreases more, |Pending()|
      {
        ghost var left, size := Pending(), |newRecord.columns.times|;
        more, closed, rows := Turn(total, newRecord, closed, rows);
        ReadMore(maxRecordSize, pending, left, size, Pending(), |newRecord.columns.times|);
      }
      if |newRecord.columns.times| > 0 {
        return newRecord, closed, rows;
      }
      NoTimesNoRows(reducers, width, newRecord.columns, closed, rows);
      return null, closed, rows;
    }

    /** One turn of Next: the input is used up, or the record is full, or one more record is reduced. */
    method Turn(
      ghost total: seq<seq<Row>>, newRecord: OutRecord, ghost closed: seq<seq<Row>>, ghost rows: seq<seq<OutRow>>
    ) returns (more: bool, ghost closed': seq<seq<Row>>, ghost rows': seq<seq<OutRow>>)
      requires InNext(total, newRecord, closed, rows)
      modifies this`bufRecord, this`input, this`inNextWin, this`carried, reducers, newRecord
      ensures InNext(total, newRecord, closed', rows')
      ensures more ==> old(Pending()) != [] && Pending() == old(Pending())[1..]
      ensures more ==>
        newRecord.columns.times == old(newRecord.columns.times)
        || |newRecord.columns.times| < maxRecordSize + |old(Pending())[0]|
      ensures !more ==> Pending() == old(Pending()) && newRecord.columns == old(newRecord.columns)
      ensures !more ==> |newRecord.columns.times| >= maxRecordSize || Pending() == []
    {
      ghost var pending := Pending();
      closed', rows' := closed, rows;
      var inRecord := NextRecord();
      if inRecord.None? {
        return false, closed, rows;
      }
      assert pending[0] == inRecord.value && pending[1..] == Pending();
      if inRecord.value == [] {
        return true, closed, rows;
      }
      if |newRecord.columns.times| >= maxRecordSize {
        UnreadRecord(inRecord.value);
        return false, closed, rows;
      }
      more := true;
      NoTimesNoRows(reducers, width, newRecord.columns, closed, rows);
      closed', rows' := Consume(inRecord.value, newRecord, total, closed, rows);
      NoTimesNoRows(reducers, width, newRecord.columns, closed', rows');
    }

    /** Repeated Next from a fresh cursor: however the series was cut into records, and whatever the
        record size, each call's column answers one window after the other. The windows are the true ones
        exactly when no peek was misjudged, and every misjudged peek costs one row. */
    method Drain() returns (all: Columns, ghost rows: seq<seq<OutRow>>)
      requires Valid() && carried == []
      modifies this, reducers
      ensures Valid() && Pending() == []
      ensures
        var win, input := Aligned(interval), old(Pending());
        var truth := Runs(win, Flatten(input));
        && Extends(reducers, EmptyColumns(width), all, Groups(win, [], input), rows)
        && ColumnsRight(reducers, Groups(win, [], input), all)
        && |all.times| + Misjudgements(win, input) == |truth|
        && (Misjudgements(win, input) == 0 <==> Groups(win, [], input) == truth)
    {
      ghost var closed;
      all, closed, rows := DrainAll();
      ExtendsAnswers(reducers, width, all, closed, rows);
      GroupsCount(Aligned(interval), [], old(Pending()));
      GroupsAreRuns(Aligned(interval), old(Pending()));
    }

    /** Until Next has nothing more. */
    method DrainAll() returns (all: Columns, ghost closed: seq<seq<Row>>, ghost rows: seq<seq<OutRow>>)
      requires Valid()
      modifies this, reducers
      ensures Valid() && Pending() == [] && closed == old(Future())
      ensures Extends(reducers, EmptyColumns(width), all, closed, rows)
    {
      all, rows := EmptyColumns(width), seq(|reducers|, _ => []);
      closed := [];
      ExtendsNothing(reducers, all);
      while true
        invariant Valid()
        invariant old(Future()) == closed + Future()
        invariant Extends(reducers, EmptyColumns(width), all, closed, rows)
        decreases |Pending()|
      {
        var out, more, moreRows := Next();
        if out == null {
          break;
        }
        Associate(closed, more, Future());
        AppendExtends(reducers, width, all, out.columns, closed, more, rows, moreRows);
        all := Concat(all, out.columns);
        closed, rows := closed + more, ZipRows(rows, moreRows);
      }
      assert Future() == [] && closed + [] == closed;
    }
  }

  /** Of the records that were to come, those not left are read, and the rows made of them are fewer than the record
      size and the rows of one of them. */
  ghost predicate ReadUpTo(maxRecordSize: nat, pending: seq<Record>, left: seq<Record>, size: nat) {
    && |left| <= |pending| && left == pending[|pending| - |left|..]
    && (size == 0 || exists k :: 0 <= k < |pending| - |left| && size < maxRecordSize + |pending[k]|)
  }

  lemma {:induction false} ReadMore(
    maxRecordSize: nat, pending: seq<Record>, left: seq<Record>, size: nat, left': seq<Record>, size': nat
  )
    requires ReadUpTo(maxRecordSize, pending, left, size)
    requires if left' == left then size' == size
             else left != [] && left' == left[1..] && (size' == size || size' < maxRecordSize + |left[0]|)
    ensures ReadUpTo(maxRecordSize, pending, left', size')
  {
    if left' != left {
      assert left[0] == pending[|pending| - |left|];
    }
  }

  /** The coprocessor: every call of the query appends its rows for the record. */
  method WorkOnRecord(reducers: seq<Reducer>, record: Record, index: seq<nat>, sameWindow: bool,
                      ghost carried: seq<Row>, out: OutRecord)
    returns (ghost rows: seq<seq<OutRow>>)
    requires ReducersFit(reducers, |out.columns.cols|) && RecordFits(reducers, record)
    requires record != [] && IsIndex(record, index)
    requires AllCarry(reducers, 0, |reducers|, carried)
    modifies reducers, out
    ensures
      var windows := JoinFirst(carried, Slices(record, index));
      && AllCarry(reducers, 0, |reducers|, StillOpen(windows, sameWindow))
      && AllAnswer(reducers, Closed(windows, sameWindow), rows)
    ensures |rows| == |reducers| && AllGrown(reducers, |reducers| > 1, old(out.columns), out.columns, rows)
  {
    rows := [];
    ghost var windows := JoinFirst(carried, Slices(record, index));
    for i := 0 to |reducers|
      invariant AllCarry(reducers, 0, i, StillOpen(windows, sameWindow))
      invariant AllCarry(reducers, i, |reducers|, carried)
      invariant |rows| == i
      invariant AllAnswer(reducers, Closed(windows, sameWindow), rows)
      invariant AllGrown(reducers, |reducers| > 1, old(out.columns), out.columns, rows)
    {
      ghost var columns := out.columns;
      ghost var more := FeedOne(reducers, i, record, index, sameWindow, carried, windows, out);
      AllGrownNext(reducers, old(out.columns), columns, out.columns, rows, more);
      AllAnswerNext(reducers, Closed(windows, sameWindow), rows, more);
      rows := rows + [more];
    }
  }

  /** With several calls: the time of the first row of each finished part goes to the time column. */
  method DeriveIntervalIndex(multiCall: bool, record: Record, index: seq<nat>, sameWindow: bool, out: OutRecord)
    requires record != [] && IsIndex(record, index)
    modifies out
    ensures out.columns == old(out.columns).(times := old(out.columns.times) +
              if multiCall then FirstTimes(Closed(Slices(record, index), sameWindow)) else [])
    ensures
      var n := |old(out.columns.times)|;
      && |out.columns.times| == n + (if !multiCall then 0 else if sameWindow then |index| - 1 else |index|)
      && forall i :: n <= i < |out.columns.times| ==> out.columns.times[i] == record[index[i - n]].time
  {
    if !multiCall {
      return;
    }
    var addRecordLen := if sameWindow then |index| - 1 else |index|;
    var added := PartTimes(record, index, addRecordLen);
    TimesByIndex(record, index, sameWindow, added);
    out.columns := out.columns.(times := out.columns.times + added);
  }

  method PartTimes(record: Record, index: seq<nat>, n: nat) returns (times: seq<int>)
    requires IsIndex(record, index) && n <= |index|
    ensures |times| == n && forall i :: 0 <= i < n ==> times[i] == record[index[i]].time
  {
    times := [];
    for i := 0 to n
      invariant |times| == i && forall k :: 0 <= k < i ==> times[k] == record[index[k]].time
    {
      times := times + [record[index[i]].time];
    }
  }

  lemma {:induction false} TimesByIndex(record: Record, index: seq<nat>, sameWindow: bool, added: seq<int>)
    requires record != [] && IsIndex(record, index) && |added| == if sameWindow then |index| - 1 else |index|
    requires forall i :: 0 <= i < |added| ==> added[i] == record[index[i]].time
    ensures added == FirstTimes(Closed(Slices(record, index), sameWindow))
  {
    var parts := Slices(record, index);
    forall i: nat | i < |added|
      ensures Closed(parts, sameWindow)[i][0].time == added[i]
    {
      SliceHead(record, index, i);
      assert Closed(parts, sameWindow)[i] == parts[i];
    }
  }

  /** Reduces one record: cuts it into windows, feeds every call, and completes the time column. */
  method ReduceRecord(interval: nat, reducers: seq<Reducer>, record: Record, sameWindow: bool,
                      ghost carried: seq<Row>, out: OutRecord)
    returns (ghost closed: seq<seq<Row>>, ghost rows: seq<seq<OutRow>>)
    requires ReducersFit(reducers, |out.columns.cols|) && RecordFits(reducers, record) && record != []
    requires AllCarry(reducers, 0, |reducers|, carried)
    modifies reducers, out
    ensures
      var windows := JoinFirst(carried, Runs(Aligned(interval), record));
      closed == Closed(windows, sameWindow) && AllCarry(reducers, 0, |reducers|, StillOpen(windows, sameWindow))
    ensures Extends(reducers, old(out.columns), out.columns, closed, rows)
  {
    var index := GetIntervalIndex(interval, record);
    IndexIsRight(interval, record);
    ghost var parts := Slices(record, index);
    closed := Closed(JoinFirst(carried, parts), sameWindow);
    rows := WorkOnRecord(reducers, record, index, sameWindow, carried, out);
    ghost var columns := out.columns;
    DeriveIntervalIndex(|reducers| > 1, record, index, sameWindow, out);
    GrownExtends(reducers, old(out.columns), columns, out.columns, carried, parts, sameWindow, rows);
  }

  /** The same after other windows. */
  method ReduceMore(
    interval: nat, reducers: seq<Reducer>, record: Record, sameWindow: bool, ghost carried: seq<Row>, out: OutRecord,
    ghost width: nat, ghost before: seq<seq<Row>>, ghost beforeRows: seq<seq<OutRow>>
  ) returns (ghost closed: seq<seq<Row>>, ghost rows: seq<seq<OutRow>>)
    requires ReducersFit(reducers, width) && RecordFits(reducers, record) && record != []
    requires AllCarry(reducers, 0, |reducers|, carried)
    requires Extends(reducers, EmptyColumns(width), out.columns, before, beforeRows)
    modifies reducers, out
    ensures
      var windows := JoinFirst(carried, Runs(Aligned(interval), record));
      && closed == before + Closed(windows, sameWindow)
      && AllCarry(reducers, 0, |reducers|, StillOpen(windows, sameWindow))
    ensures Extends(reducers, EmptyColumns(width), out.columns, closed, rows)
  {
    ghost var columns := out.columns;
    ghost var more, moreRows := ReduceRecord(interval, reducers, record, sameWindow, carried, out);
    ExtendsTwice(reducers, EmptyColumns(width), columns, out.columns, before, more, beforeRows, moreRows);
    closed, rows := before + more, ZipRows(beforeRows, moreRows);
  }

  /** Every finished window has a time. */
  lemma {:induction false} NoTimesNoRows(
    reducers: seq<Reducer>, width: nat, columns: Columns, windows: seq<seq<Row>>, rows: seq<seq<OutRow>>
  )
    requires Extends(reducers, EmptyColumns(width), columns, windows, rows)
    ensures |columns.times| == |windows|
  {
    if |reducers| > 1 {
      assert columns.times[0..] == columns.times;
    }
  }

  method FeedOne(reducers: seq<Reducer>, i: nat, record: Record, index: seq<nat>, sameWindow: bool,
                 ghost carried: seq<Row>, ghost windows: seq<seq<Row>>, out: OutRecord)
    returns (ghost rows: seq<OutRow>)
    requires i < |reducers| && ReducersFit(reducers, |out.columns.cols|) && RecordFits(reducers, record)
    requires record != [] && IsIndex(record, index) && windows == JoinFirst(carried, Slices(record, index))
    requires AllCarry(reducers, 0, i, StillOpen(windows, sameWindow))
    requires AllCarry(reducers, i, |reducers|, carried)
    modifies reducers[i], out
    ensures AllCarry(reducers, 0, i + 1, StillOpen(windows, sameWindow))
    ensures AnswersAll(reducers[i].call, Closed(windows, sameWindow), rows, reducers[i].dense)
    ensures AllCarry(reducers, i + 1, |reducers|, carried)
    ensures Grown(reducers[i].call, reducers[i].outCol, |reducers| > 1, old(out.columns), out.columns, rows)
  {
    assert forall j :: 0 <= j < |reducers| && j != i ==> reducers[j] != reducers[i];
    rows := reducers[i].Aggregate(record, index, sameWindow, |reducers| > 1, out);
    assert forall j :: 0 <= j < |reducers| && j != i ==> unchanged(reducers[j]);
  }

  /** Calls `from` up to `to` hold a consistent partial result for the carried rows. */
  ghost predicate AllCarry(reducers: seq<Reducer>, from: nat, to: nat, carried: seq<Row>)
    requires from <= to <= |reducers|
    reads reducers
  {
    forall j :: from <= j < to ==> reducers[j].Valid() && reducers[j].carried == carried
  }

  function FirstTimes(parts: seq<seq<Row>>): seq<int>
    requires forall k :: 0 <= k < |parts| ==> parts[k] != []
  {
    seq(|parts|, k requires 0 <= k < |parts| => parts[k][0].time)
  }

  /** Each time is that of a row of its window. */
  ghost predicate TimesInside(windows: seq<seq<Row>>, times: seq<int>) {
    && |times| == |windows|
    && forall k :: 0 <= k < |times| ==> TimeInside(windows[k], times[k])
  }

  ghost predicate TimeInside(window: seq<Row>, time: int) {
    exists j :: 0 <= j < |window| && window[j].time == time
  }

  lemma {:induction false} FirstTimesInside(carried: seq<Row>, parts: seq<seq<Row>>, sameWindow: bool)
    requires parts != [] && forall k :: 0 <= k < |parts| ==> parts[k] != []
    ensures TimesInside(Closed(JoinFirst(carried, parts), sameWindow), FirstTimes(Closed(parts, sameWindow)))
  {
    var closed: seq<seq<Row>> := Closed(parts, sameWindow);
    var windows := JoinFirst(carried, parts);
    forall k: nat | k < |closed|
      ensures TimeInside(windows[k], closed[k][0].time)
    {
      var j := if k == 0 then |carried| else 0;
      assert windows[k][j] == closed[k][0];
    }
  }

  /** From `was` to `now` the record has grown by exactly one row for each of `windows`: in every call's
      column the right answers, in the time column as many times, and for a single call the times and
      auxiliary rows of those answers. */
  ghost predicate Extends(
    reducers: seq<Reducer>, was: Columns, now: Columns, windows: seq<seq<Row>>, rows: seq<seq<OutRow>>
  ) {
    && reducers != [] && |rows| == |reducers|
    && AllAnswer(reducers, windows, rows)
    && |was.cols| == |now.cols|
    && (forall i :: 0 <= i < |reducers| ==>
          && reducers[i].outCol < |now.cols|
          && now.cols[reducers[i].outCol] == was.cols[reducers[i].outCol] + ValuesOf(rows[i]))
    && was.times <= now.times
    && (if |reducers| > 1 then TimesInside(windows, now.times[|was.times|..])
        else now.times == was.times + TimesOf(rows[0])
             && now.aux == was.aux + if reducers[0].call.aux == [] then [] else AuxOf(rows[0]))
  }

  /** The columns, window by window: every call's column holds the value of the call on the window. A single call
      reports it with the time and the auxiliary columns that go with it, several with a time inside the window. */
  ghost predicate ColumnsRight(reducers: seq<Reducer>, windows: seq<seq<Row>>, all: Columns) {
    && |all.times| == |windows|
    && (forall i :: 0 <= i < |reducers| ==>
          reducers[i].outCol < |all.cols| && ColumnAnswers(reducers[i].call, windows, all.cols[reducers[i].outCol]))
    && (|reducers| > 1 ==> TimesInside(windows, all.times))
    && (|reducers| == 1 ==> SingleRight(reducers[0], windows, all))
  }

  ghost predicate ColumnAnswers(call: Call, windows: seq<seq<Row>>, column: seq<Option<int>>) {
    |column| == |windows| && forall k :: 0 <= k < |windows| ==> ValueRight(call, windows[k], column[k])
  }

  ghost predicate SingleRight(r: Reducer, windows: seq<seq<Row>>, all: Columns) {
    && |all.times| == |windows| && r.outCol < |all.cols| && |all.cols[r.outCol]| == |windows|
    && |all.aux| == (if r.call.aux == [] then 0 else |windows|)
    && forall k :: 0 <= k < |windows| ==>
         var aux := if r.call.aux == [] then [] else all.aux[k];
         Answers(r.call, windows[k], OutRow(all.cols[r.outCol][k], all.times[k], aux), r.dense)
  }

  lemma {:induction false} ExtendsAnswers(
    reducers: seq<Reducer>, width: nat, all: Columns, windows: seq<seq<Row>>, rows: seq<seq<OutRow>>
  )
    requires Extends(reducers, EmptyColumns(width), all, windows, rows)
    ensures ColumnsRight(reducers, windows, all)
  {
    NoTimesNoRows(reducers, width, all, windows, rows);
    forall i | 0 <= i < |reducers|
      ensures all.cols[reducers[i].outCol] == ValuesOf(rows[i])
      ensures ColumnAnswers(reducers[i].call, windows, all.cols[reducers[i].outCol])
    {
      var call := reducers[i].call;
      assert [] + ValuesOf(rows[i]) == ValuesOf(rows[i]);
      forall k | 0 <= k < |windows|
        ensures ValueRight(call, windows[k], rows[i][k].value)
      {
        assert Answers(call, windows[k], rows[i][k], reducers[i].dense);
      }
    }
    if |reducers| > 1 {
      assert all.times[0..] == all.times;
    } else {
      SingleAnswers(reducers[0], windows, all, rows[0]);
    }
  }

  lemma {:induction false} SingleAnswers(r: Reducer, windows: seq<seq<Row>>, all: Columns, rows: seq<OutRow>)
    requires AnswersAll(r.call, windows, rows, r.dense) && r.outCol < |all.cols|
    requires all.cols[r.outCol] == ValuesOf(rows) && all.times == TimesOf(rows)
    requires all.aux == if r.call.aux == [] then [] else AuxOf(rows)
    ensures SingleRight(r, windows, all)
  {
    forall k | 0 <= k < |windows|
      ensures
        var aux := if r.call.aux == [] then [] else all.aux[k];
        Answers(r.call, windows[k], OutRow(all.cols[r.outCol][k], all.times[k], aux), r.dense)
    {
      assert Answers(r.call, windows[k], rows[k], r.dense);
      assert all.times[k] == rows[k].time && all.cols[r.outCol][k] == rows[k].value;
    }
  }

  function EmptyColumns(width: nat): Columns {
    Columns(seq(width, _ => []), [], [])
  }

  function ZipRows(a: seq<seq<OutRow>>, b: seq<seq<OutRow>>): seq<seq<OutRow>>
    requires |a| == |b|
  {
    seq(|a|, i requires 0 <= i < |a| => a[i] + b[i])
  }

  lemma {:induction false} ExtendsNothing(reducers: seq<Reducer>, columns: Columns)
    requires ReducersFit(reducers, |columns.cols|)
    ensures Extends(reducers, columns, columns, [], seq(|reducers|, _ => []))
  {
  }

  lemma {:induction false} ExtendsTwice(reducers: seq<Reducer>, a: Columns, b: Columns, c: Columns,
                     windows: seq<seq<Row>>, more: seq<seq<Row>>, rows: seq<seq<OutRow>>, moreRows: seq<seq<OutRow>>)
    requires Extends(reducers, a, b, windows, rows) && Extends(reducers, b, c, more, moreRows)
    ensures Extends(reducers, a, c, windows + more, ZipRows(rows, moreRows))
  {
    var zipped := ZipRows(rows, moreRows);
    forall i | 0 <= i < |reducers|
      ensures c.cols[reducers[i].outCol] == a.cols[reducers[i].outCol] + ValuesOf(zipped[i])
      ensures AnswersAll(reducers[i].call, windows + more, zipped[i], reducers[i].dense)
    {
      RowsConcat(rows[i], moreRows[i]);
      AnswersConcat(reducers[i].call, windows, more, rows[i], moreRows[i], reducers[i].dense);
      Associate(a.cols[reducers[i].outCol], ValuesOf(rows[i]), ValuesOf(moreRows[i]));
    }
    if |reducers| > 1 {
      var t, u := b.times[|a.times|..], c.times[|b.times|..];
      assert c.times[|a.times|..] == t + u;
    } else {
      RowsConcat(rows[0], moreRows[0]);
      Associate(a.times, TimesOf(rows[0]), TimesOf(moreRows[0]));
      Associate(a.aux, AuxOf(rows[0]), AuxOf(moreRows[0]));
    }
  }

  function Concat(a: Columns, b: Columns): Columns
    requires |a.cols| == |b.cols|
  {
    Columns(seq(|a.cols|, k requires 0 <= k < |a.cols| => a.cols[k] + b.cols[k]), a.times + b.times, a.aux + b.aux)
  }

  lemma {:induction false} AppendExtends(reducers: seq<Reducer>, width: nat, a: Columns, b: Columns,
                      windows: seq<seq<Row>>, more: seq<seq<Row>>, rows: seq<seq<OutRow>>, moreRows: seq<seq<OutRow>>)
    requires Extends(reducers, EmptyColumns(width), a, windows, rows)
    requires Extends(reducers, EmptyColumns(width), b, more, moreRows)
    ensures Extends(reducers, EmptyColumns(width), Concat(a, b), windows + more, ZipRows(rows, moreRows))
  {
    var c := Concat(a, b);
    forall i | 0 <= i < |reducers|
      ensures c.cols[reducers[i].outCol] == a.cols[reducers[i].outCol] + ValuesOf(moreRows[i])
    {
      assert b.cols[reducers[i].outCol] == ValuesOf(moreRows[i]);
    }
    assert b.times[|EmptyColumns(width).times|..] == b.times;
    assert c.times[|a.times|..] == b.times;
    assert Extends(reducers, a, c, more, moreRows);
    ExtendsTwice(reducers, EmptyColumns(width), a, c, windows, more, rows, moreRows);
  }

  lemma {:induction false} RowsConcat(a: seq<OutRow>, b: seq<OutRow>)
    ensures ValuesOf(a + b) == ValuesOf(a) + ValuesOf(b)
    ensures TimesOf(a + b) == TimesOf(a) + TimesOf(b)
    ensures AuxOf(a + b) == AuxOf(a) + AuxOf(b)
  {
  }

  lemma {:induction false} AnswersConcat(
    call: Call, a: seq<seq<Row>>, b: seq<seq<Row>>, rows: seq<OutRow>, more: seq<OutRow>, dense: bool
  )
    requires AnswersAll(call, a, rows, dense) && AnswersAll(call, b, more, dense)
    ensures AnswersAll(call, a + b, rows + more, dense)
  {
  }

  lemma {:induction false} GrownExtends(reducers: seq<Reducer>, a: Columns, b: Columns, c: Columns, carried: seq<Row>,
                     parts: seq<seq<Row>>, sameWindow: bool, rows: seq<seq<OutRow>>)
    requires reducers != [] && |rows| == |reducers| && parts != []
    requires forall k :: 0 <= k < |parts| ==> parts[k] != []
    requires AllAnswer(reducers, Closed(JoinFirst(carried, parts), sameWindow), rows)
    requires AllGrown(reducers, |reducers| > 1, a, b, rows)
    requires c == b.(times := b.times + if |reducers| > 1 then FirstTimes(Closed(parts, sameWindow)) else [])
    ensures Extends(reducers, a, c, Closed(JoinFirst(carried, parts), sameWindow), rows)
  {
    FirstTimesInside(carried, parts, sameWindow);
  }

  /** Calls write to different columns, and auxiliary columns need a single call. */
  ghost predicate ReducersFit(reducers: seq<Reducer>, width: nat) {
    && reducers != []
    && (forall i, j :: 0 <= i < j < |reducers| ==>
        reducers[i] != reducers[j] && reducers[i].outCol != reducers[j].outCol)
    && (forall i :: 0 <= i < |reducers| ==> reducers[i].outCol < width)
    && (forall i :: 0 <= i < |reducers| && reducers[i].call.aux != [] ==> |reducers| == 1)
  }

  /** Row numbers fit in 16 bits, and columns declared dense are dense. */
  ghost predicate RecordFits(reducers: seq<Reducer>, record: Record) {
    && |record| <= MAX_INDEX
    && forall i :: 0 <= i < |reducers| && reducers[i].dense ==> Dense(record, reducers[i].call.col)
  }

  ghost predicate RecordsFit(reducers: seq<Reducer>, records: seq<Record>) {
    forall k :: 0 <= k < |records| ==> RecordFits(reducers, records[k])
  }

  /** Call by call, `rows` answers the windows. */
  ghost predicate AllAnswer(reducers: seq<Reducer>, windows: seq<seq<Row>>, rows: seq<seq<OutRow>>) {
    && |rows| <= |reducers|
    && forall i :: 0 <= i < |rows| ==> AnswersAll(reducers[i].call, windows, rows[i], reducers[i].dense)
  }

  lemma {:induction false} AllAnswerNext(
    reducers: seq<Reducer>, windows: seq<seq<Row>>, rows: seq<seq<OutRow>>, more: seq<OutRow>
  )
    requires |rows| < |reducers| && AllAnswer(reducers, windows, rows)
    requires AnswersAll(reducers[|rows|].call, windows, more, reducers[|rows|].dense)
    ensures AllAnswer(reducers, windows, rows + [more])
  {
  }

  /** The column of each call up to |rows| has grown by the call's rows, the others have not changed;
      a single call also appends times and auxiliary rows. */
  ghost predicate AllGrown(
    reducers: seq<Reducer>, multiCall: bool, was: Columns, now: Columns, rows: seq<seq<OutRow>>
  ) {
    && |rows| <= |reducers|
    && |was.cols| == |now.cols|
    && (forall i :: 0 <= i < |reducers| ==>
          && reducers[i].outCol < |now.cols|
          && now.cols[reducers[i].outCol]
             == was.cols[reducers[i].outCol] + if i < |rows| then ValuesOf(rows[i]) else [])
    && (if multiCall || rows == [] then now.times == was.times && now.aux == was.aux
        else now.times == was.times + TimesOf(rows[0])
             && now.aux == was.aux + if reducers[0].call.aux == [] then [] else AuxOf(rows[0]))
  }

  lemma {:induction false} AllGrownNext(reducers: seq<Reducer>, a: Columns, b: Columns, c: Columns,
                     rows: seq<seq<OutRow>>, more: seq<OutRow>)
    requires ReducersFit(reducers, |a.cols|) && |rows| < |reducers|
    requires AllGrown(reducers, |reducers| > 1, a, b, rows)
    requires Grown(reducers[|rows|].call, reducers[|rows|].outCol, |reducers| > 1, b, c, more)
    ensures AllGrown(reducers, |reducers| > 1, a, c, rows + [more])
  {
    var n := |rows|;
    forall i | 0 <= i < |reducers|
      ensures c.cols[reducers[i].outCol]
          == a.cols[reducers[i].outCol] + if i < n + 1 then ValuesOf((rows + [more])[i]) else []
    {
      if i != n {
        assert reducers[i].outCol != reducers[n].outCol;
        assert c.cols[reducers[i].outCol] == b.cols[reducers[i].outCol];
      }
    }
  }
}
