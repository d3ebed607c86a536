/** Downsampling one field of one series: reduce window by window, then put the rows on the grid. */
module Downsample {
  import opened Records
  import opened Windows
  import opened Aggregates
  import opened Grouping
  import opened Kicking
  import opened Reducers
  import opened AggregateCursors
  import opened Grid
  import opened Chunking
  import opened FieldGrid
  import opened FieldExact

  // ----- the rows of a record

  predicate Rectangular(columns: Columns, width: nat) {
    && |columns.cols| == width
    && forall c :: 0 <= c < width ==> |columns.cols[c]| == |columns.times|
  }

  function RowAt(columns: Columns, width: nat, k: nat): AggRow
    requires Rectangular(columns, width) && k < |columns.times|
  {
    AggRow(columns.times[k], seq(width, c requires 0 <= c < width => columns.cols[c][k]))
  }

  function RowsOf(columns: Columns, width: nat): (rows: seq<AggRow>)
    requires Rectangular(columns, width)
    ensures |rows| == |columns.times|
  {
    seq(|columns.times|, k requires 0 <= k < |columns.times| => RowAt(columns, width, k))
  }

  /** Column c belongs to call c; all calls are on the one field of the records, from which nulls are kicked. */
  ghost predicate OneColumnEach(reducers: seq<Reducer>) {
    && reducers != []
    && forall c :: 0 <= c < |reducers| ==>
         reducers[c].outCol == c && reducers[c].dense && reducers[c].call.aux == [] && reducers[c].call.col == FIELD
  }

  /** What the reducers have appended are right rows. */
  lemma {:induction false} ExtendsIsRight(
    reducers: seq<Reducer>, columns: Columns, windows: seq<seq<Row>>, rows: seq<seq<OutRow>>
  )
    requires OneColumnEach(reducers) && AllDense(windows)
    requires Extends(reducers, EmptyColumns(|reducers|), columns, windows, rows)
    ensures Rectangular(columns, |reducers|) && RowsRight(reducers, windows, RowsOf(columns, |reducers|))
  {
    forall c | 0 <= c < |reducers|
      ensures columns.cols[c] == ValuesOf(rows[c])
    {
      assert reducers[c].outCol == c;
      assert EmptyColumns(|reducers|).cols[c] + ValuesOf(rows[c]) == ValuesOf(rows[c]);
    }
    TimesAreInside(reducers, columns, windows, rows);
    forall k | 0 <= k < |windows|
      ensures RowRight(reducers, windows[k], RowsOf(columns, |reducers|)[k])
    {
      forall c | 0 <= c < |reducers|
        ensures ValueRight(reducers[c].call, windows[k], columns.cols[c][k])
      {
        assert Answers(reducers[c].call, windows[k], rows[c][k], true);
      }
    }
  }

  lemma {:induction false} TimesAreInside(
    reducers: seq<Reducer>, columns: Columns, windows: seq<seq<Row>>, rows: seq<seq<OutRow>>
  )
    requires OneColumnEach(reducers) && AllDense(windows)
    requires Extends(reducers, EmptyColumns(|reducers|), columns, windows, rows)
    ensures TimesInside(windows, columns.times)
  {
    if |reducers| > 1 {
      assert columns.times[0..] == columns.times;
    } else {
      assert columns.times == TimesOf(rows[0]);
      forall k | 0 <= k < |windows|
        ensures TimeInside(windows[k], rows[0][k].time)
      {
        assert Answers(reducers[0].call, windows[k], rows[0][k], true);
        SingleTimeInside(reducers[0].call, windows[k], rows[0][k]);
      }
    }
  }

  /** On a dense window the reported time is that of one of its rows. */
  lemma {:induction false} SingleTimeInside(call: Call, window: seq<Row>, row: OutRow)
    requires window != [] && Dense(window, call.col) && Answers(call, window, row, true)
    ensures TimeInside(window, row.time)
  {
    assert Cell(window[0], call.col).Some?;
    assert HasValue(window, call.col);
    if Selector(call.op) {
      var k: nat :|
        IsSelected(call.op, window, call.col, k) && IsRow(call, window[k], Point(row.value.value, row.time, row.aux));
      assert window[k].time == row.time;
    } else {
      assert window[0].time == row.time;
    }
  }

  /** What has been sent of some chunks, with more to come ... */
  ghost predicate Progress(
    interval: nat, width: nat, chunks: seq<seq<AggRow>>, parts: seq<seq<AggRow>>, sent: seq<AggRow>,
    start: int, end: int, shardStart: int
  )
    requires interval > 0
  {
    sent == Flatten(parts) && NonEmpty(parts) && sent == SentOpen(interval, width, chunks, start, end, shardStart)
  }

  /** ... and with none. */
  ghost predicate Complete(
    interval: nat, width: nat, chunks: seq<seq<AggRow>>, parts: seq<seq<AggRow>>, sent: seq<AggRow>,
    start: int, end: int, shardStart: int
  )
    requires interval > 0
  {
    sent == Flatten(parts) && NonEmpty(parts) && sent == Sent(interval, width, chunks, start, end, shardStart)
  }

  lemma {:induction false} SendsOn(
    interval: nat, width: nat, chunks: seq<seq<AggRow>>, parts: seq<seq<AggRow>>, sent: seq<AggRow>,
    start: int, end: int, shardStart: int, rows: seq<AggRow>, out: seq<AggRow>, last: bool
  )
    requires interval > 0 && Progress(interval, width, chunks, parts, sent, start, end, shardStart) && out != []
    requires out == Padded(interval, width, rows, LastTime(sent, start), end, shardStart, last)
    ensures !last ==>
      Progress(interval, width, chunks + [rows], parts + [out], sent + out, start, end, shardStart)
    ensures last ==>
      Complete(interval, width, chunks + [rows], parts + [out], sent + out, start, end, shardStart)
    ensures LastTime(sent + out, start) == out[|out| - 1].time
  {
    SentNext(interval, width, chunks, rows, start, end, shardStart);
    FlattenSnoc(parts, out);
  }

  /** All of a field is sent, in the chunks of its plan. */
  ghost predicate Ended(
    interval: nat, reducers: seq<Reducer>, plan: Plan, windows: seq<seq<Row>>, chunks: seq<seq<AggRow>>,
    parts: seq<seq<AggRow>>, sent: seq<AggRow>, start: int, end: int, shardStart: int
  )
    requires interval > 0
  {
    && NonEmpty(chunks) && RowsRight(reducers, windows, Flatten(chunks)) && Lengths(chunks) == ChunkLengths(plan)
    && if plan.left > 0 then Complete(interval, |reducers|, chunks, parts, sent, start, end, shardStart)
       else Progress(interval, |reducers|, chunks, parts, sent, start, end, shardStart)
  }

  lemma {:induction false} EndedIsSent(
    interval: nat, reducers: seq<Reducer>, plan: Plan, windows: seq<seq<Row>>, chunks: seq<seq<AggRow>>,
    parts: seq<seq<AggRow>>, sent: seq<AggRow>, start: int, end: int, shardStart: int, lo: int, hi: int
  )
    requires interval > 0 && Ended(interval, reducers, plan, windows, chunks, parts, sent, start, end, shardStart)
    requires start == interval * (lo - 1) && end == interval * (hi + 1)
    ensures SentAs(interval, reducers, plan, windows, chunks, sent, lo, hi, shardStart)
    ensures sent == Flatten(parts) && NonEmpty(parts)
  {
  }

  /** What the records of a field promise of the rows that are sent. */
  ghost predicate Promised(
    interval: nat, size: nat, reducers: seq<Reducer>, records: seq<Record>, chunks: seq<seq<AggRow>>,
    sent: seq<AggRow>, min: int, max: int, shardStart: int
  )
    requires interval > 0
  {
    && SentByPlan(interval, size, reducers, records, chunks, sent, min, max, shardStart)
    && (InSeries(records, min, max) && shardStart <= min ==>
          FieldResult(interval, size, reducers, records, sent, min, max, shardStart))
  }

  /** Before the first record all windows are to come. */
  lemma {:induction false} FromStart(win: Windowing, windows: seq<seq<Row>>, records: seq<Record>)
    ensures Divides(win, windows, [], [], records) <==> windows == Reported(win, [], records)
  {
    assert [] + Reported(win, [], records) == Reported(win, [], records);
  }

  lemma {:induction false} PlanIsSent(
    interval: nat, size: nat, reducers: seq<Reducer>, records: seq<Record>, plan: Plan, windows: seq<seq<Row>>,
    chunks: seq<seq<AggRow>>, sent: seq<AggRow>, min: int, max: int, shardStart: int
  )
    requires interval > 0 && IsPlan(Aligned(interval), size, records, plan)
    requires windows == Reported(Aligned(interval), [], records)
    requires SentAs(
               interval, reducers, plan, windows, chunks, sent, WindowNumber(interval, min),
               WindowNumber(interval, max), shardStart)
    ensures SentByPlan(interval, size, reducers, records, chunks, sent, min, max, shardStart)
  {
  }

  lemma {:induction false} PromiseKept(
    interval: nat, size: nat, reducers: seq<Reducer>, records: seq<Record>, plan: Plan, windows: seq<seq<Row>>,
    chunks: seq<seq<AggRow>>, sent: seq<AggRow>, min: int, max: int, shardStart: int
  )
    requires interval > 0 && IsPlan(Aligned(interval), size, records, plan)
    requires Divides(Aligned(interval), windows, [], [], records)
    requires SentAs(
               interval, reducers, plan, windows, chunks, sent, WindowNumber(interval, min),
               WindowNumber(interval, max), shardStart)
    ensures Promised(interval, size, reducers, records, chunks, sent, min, max, shardStart)
  {
    FromStart(Aligned(interval), windows, records);
    PlanIsSent(interval, size, reducers, records, plan, windows, chunks, sent, min, max, shardStart);
    if InSeries(records, min, max) && shardStart <= min {
      FieldIsExact(interval, size, reducers, records, chunks, sent, min, max, shardStart);
    }
  }

  /** The chunks and windows to come. */
  lemma {:induction false} PlanAhead(interval: nat, size: nat, records: seq<Record>)
    returns (plan: Plan, windows: seq<seq<Row>>)
    ensures IsPlan(Aligned(interval), size, records, plan)
    ensures Divides(Aligned(interval), windows, [], [], records) && AllDense(windows)
  {
    var win := Aligned(interval);
    plan, windows := FieldPlan(win, size, records), Reported(win, [], records);
    ReportedDense(win, [], records);
    FromStart(win, windows, records);
  }

  // ----- the aggregator

  class FileSequenceAggregator {
    const interval: nat
    const chunkSize: nat
    const shardStart: int
    const reducers: seq<Reducer>
    var trMin: int  // last time already covered
    var trMax: int  // first time beyond the series
    var parts: seq<seq<AggRow>>  // the records handed on
    ghost var sent: seq<AggRow>  // all their rows
    ghost var start: int
    ghost var chunks: seq<seq<AggRow>>  // reduced rows, chunk by chunk
    ghost var done: seq<seq<Row>>  // the windows they report

    constructor (interval: nat, chunkSize: nat, shardStart: int, reducers: seq<Reducer>)
      ensures this.interval == interval && this.chunkSize == chunkSize
      ensures this.shardStart == shardStart && this.reducers == reducers
      ensures parts == [] && sent == [] && chunks == [] && done == []
    {
      this.interval, this.chunkSize, this.shardStart, this.reducers := interval, chunkSize, shardStart, reducers;
      trMin, trMax, parts, sent, start, chunks, done := 0, 0, [], [], 0, [], [];
    }

    ghost predicate SentSoFar()
      reads this
    {
      && interval > 0 && NonEmpty(chunks)
      && Progress(interval, |reducers|, chunks, parts, sent, start, trMax, shardStart) && trMin == LastTime(sent, start)
      && RowsRight(reducers, done, Flatten(chunks))
    }

    /** Pads a chunk and sends it; the next chunk will be padded from its last time. */
    method SendRecord(columns: Columns, last: bool)
      requires interval > 0 && Rectangular(columns, |reducers|) && columns.times != []
      requires Progress(interval, |reducers|, chunks, parts, sent, start, trMax, shardStart)
      requires trMin == LastTime(sent, start)
      modifies this`sent, this`trMin, this`chunks, this`parts
      ensures chunks == old(chunks) + [RowsOf(columns, |reducers|)]
      ensures !last ==> Progress(interval, |reducers|, chunks, parts, sent, start, trMax, shardStart)
      ensures !last ==> trMin == LastTime(sent, start)
      ensures last ==> Complete(interval, |reducers|, chunks, parts, sent, start, trMax, shardStart)
    {
      var rows := RowsOf(columns, |reducers|);
      var out := AppendRecWithNilRows(interval, |reducers|, rows, trMin, trMax, shardStart, last);
      SendsOn(interval, |reducers|, chunks, parts, sent, start, trMax, shardStart, rows, out, last);
      parts, sent := parts + [out], sent + out;
      trMin := out[|out| - 1].time;
      chunks := chunks + [rows];
    }

    /** Sends the record that reports the windows `cur`. */
    method Flush(columns: Columns, last: bool, ghost cur: seq<seq<Row>>, ghost curRows: seq<seq<OutRow>>)
      requires SentSoFar() && OneColumnEach(reducers) && AllDense(cur)
      requires Extends(reducers, EmptyColumns(|reducers|), columns, cur, curRows) && columns.times != []
      modifies this`sent, this`trMin, this`chunks, this`done, this`parts
      ensures done == old(done) + cur && Lengths(chunks) == Lengths(old(chunks)) + [|columns.times|]
      ensures !last ==> SentSoFar()
      ensures last ==>
        && chunks != [] && NonEmpty(chunks) && RowsRight(reducers, done, Flatten(chunks))
        && Complete(interval, |reducers|, chunks, parts, sent, start, trMax, shardStart)
    {
      ghost var before := chunks;
      ExtendsIsRight(reducers, columns, cur, curRows);
      ghost var rows := RowsOf(columns, |reducers|);
      SendRecord(columns, last);
      FlattenSnoc(before, rows);
      RightConcat(reducers, done, cur, Flatten(before), rows);
      done := done + cur;
    }

    /** One field of one series, from its first record to its last: the reduced rows are right, one for each
        window reported, and they are sent in the chunks that the records ask for. For values in order and in the
        range of the series, the field is on the grid if it has values, every peek is right and no row is missing;
        and only if, when the peeks are right or one of the calls counts. */
    method AggregateSameSchema(records: seq<Record>, seriesMin: int, seriesMax: int)
      requires interval > 0 && chunkSize > 0 && parts == [] && sent == [] && chunks == [] && done == []
      requires OneColumnEach(reducers) && ReducersFit(reducers, |reducers|) && AllCarry(reducers, 0, |reducers|, [])
      requires Indexable(records)
      modifies this, reducers
      ensures sent == Flatten(parts) && NonEmpty(parts)
      ensures Promised(interval, chunkSize, reducers, records, chunks, sent, seriesMin, seriesMax, shardStart)
    {
      Begin(seriesMin, seriesMax);
      ghost var plan, windows := PlanAhead(interval, chunkSize, records);
      ReduceAndSend(records, plan, windows);
      EndedIsSent(
        interval, reducers, plan, windows, chunks, parts, sent, start, trMax, shardStart,
        WindowNumber(interval, seriesMin), WindowNumber(interval, seriesMax));
      PromiseKept(
        interval, chunkSize, reducers, records, plan, windows, chunks, sent, seriesMin, seriesMax, shardStart);
    }

    method ReduceAndSend(records: seq<Record>, ghost plan: Plan, ghost windows: seq<seq<Row>>)
      requires SentSoFar() && chunkSize > 0 && chunks == [] && done == []
      requires OneColumnEach(reducers) && ReducersFit(reducers, |reducers|) && AllCarry(reducers, 0, |reducers|, [])
      requires Indexable(records) && IsPlan(Aligned(interval), chunkSize, records, plan)
      requires Divides(Aligned(interval), windows, [], [], records) && AllDense(windows)
      modifies this`sent, this`trMin, this`chunks, this`done, this`parts, reducers
      ensures Ended(interval, reducers, plan, windows, chunks, parts, sent, start, trMax, shardStart)
    {
      var newRecord, cur, curRows := ReduceAll(records, plan, windows);
      Finish(newRecord.columns, windows, cur, curRows);
    }

    /** What is left at the end is sent, with the padding after it. */
    method Finish(
      columns: Columns, ghost windows: seq<seq<Row>>, ghost cur: seq<seq<Row>>, ghost curRows: seq<seq<OutRow>>
    )
      requires SentSoFar() && OneColumnEach(reducers) && AllDense(windows)
      requires Extends(reducers, EmptyColumns(|reducers|), columns, cur, curRows)
      requires windows == done + cur && (columns.times == [] ==> cur == [])
      modifies this`sent, this`trMin, this`chunks, this`done, this`parts
      ensures NonEmpty(chunks) && RowsRight(reducers, windows, Flatten(chunks))
      ensures if columns.times != []
              then Complete(interval, |reducers|, chunks, parts, sent, start, trMax, shardStart)
              else Progress(interval, |reducers|, chunks, parts, sent, start, trMax, shardStart)
      ensures Lengths(chunks) == Lengths(old(chunks)) + if columns.times != [] then [|columns.times|] else []
    {
      if |columns.times| > 0 {
        assert windows == done + cur + [];
        DenseMiddle(done, cur, []);
        Flush(columns, true, cur, curRows);
      }
    }

    /** All records of the series; the last record under construction is left to be sent. */
    method ReduceAll(records: seq<Record>, ghost plan: Plan, ghost windows: seq<seq<Row>>)
      returns (newRecord: OutRecord, ghost cur: seq<seq<Row>>, ghost curRows: seq<seq<OutRow>>)
      requires SentSoFar() && chunkSize > 0 && chunks == [] && done == []
      requires OneColumnEach(reducers) && ReducersFit(reducers, |reducers|) && AllCarry(reducers, 0, |reducers|, [])
      requires Indexable(records) && IsPlan(Aligned(interval), chunkSize, records, plan)
      requires Divides(Aligned(interval), windows, [], [], records) && AllDense(windows)
      modifies this`sent, this`trMin, this`chunks, this`done, this`parts, reducers
      ensures SentSoFar() && fresh(newRecord)
      ensures Extends(reducers, EmptyColumns(|reducers|), newRecord.columns, cur, curRows)
      ensures windows == done + cur && (newRecord.columns.times == [] ==> cur == [])
      ensures plan == Plan(Lengths(chunks), |newRecord.columns.times|)
    {
      ghost var carried, adds := [], Adds(Aligned(interval), [], records);
      newRecord, cur, curRows := BeginReduce(records, adds, windows);
      for i := 0 to |records|
        invariant Reducing(records, i, adds, newRecord, windows, carried, cur, curRows) && fresh(newRecord)
      {
        newRecord, carried, cur, curRows := IterateAt(records, i, adds, newRecord, windows, carried, cur, curRows);
      }
      EndReduce(records, adds, newRecord, windows, carried, cur, curRows);
    }

    method BeginReduce(records: seq<Record>, ghost adds: seq<nat>, ghost windows: seq<seq<Row>>)
      returns (newRecord: OutRecord, ghost cur: seq<seq<Row>>, ghost curRows: seq<seq<OutRow>>)
      requires SentSoFar() && chunks == [] && done == [] && ReducersFit(reducers, |reducers|)
      requires AllCarry(reducers, 0, |reducers|, []) && Indexable(records)
      requires ToAdd(Aligned(interval), [], records, adds) && Divides(Aligned(interval), windows, [], [], records)
      ensures fresh(newRecord) && Reducing(records, 0, adds, newRecord, windows, [], cur, curRows)
    {
      cur, curRows := [], seq(|reducers|, _ => []);
      ExtendsNothing(reducers, EmptyColumns(|reducers|));
      newRecord := new OutRecord(|reducers|);
      assert records[0..] == records && adds[0..] == adds;
    }

    lemma {:induction false} EndReduce(
      records: seq<Record>, adds: seq<nat>, newRecord: OutRecord, windows: seq<seq<Row>>, carried: seq<Row>,
      cur: seq<seq<Row>>, curRows: seq<seq<OutRow>>
    )
      requires Reducing(records, |records|, adds, newRecord, windows, carried, cur, curRows)
      ensures windows == done + cur && (newRecord.columns.times == [] ==> cur == [])
    {
      assert records[|records|..] == [];
      assert done + cur + [] == done + cur;
      NoTimesNoRows(reducers, |reducers|, newRecord.columns, cur, curRows);
    }

    /** Where the loop is after i records: chunks and record under construction are those of the plan. */
    ghost predicate Reducing(
      records: seq<Record>, i: nat, adds: seq<nat>, newRecord: OutRecord, windows: seq<seq<Row>>, carried: seq<Row>,
      cur: seq<seq<Row>>, curRows: seq<seq<OutRow>>
    )
      reads this, newRecord, reducers
    {
      && i <= |records| == |adds| && InLoop(newRecord, windows, carried, cur, curRows, records[i..])
      && ToAdd(Aligned(interval), carried, records[i..], adds[i..])
      && PlanOf(chunkSize, adds, i) == Plan(Lengths(chunks), |newRecord.columns.times|)
    }

    method IterateAt(
      records: seq<Record>, i: nat, ghost adds: seq<nat>, newRecord: OutRecord, ghost windows: seq<seq<Row>>,
      ghost carried: seq<Row>, ghost cur: seq<seq<Row>>, ghost curRows: seq<seq<OutRow>>
    ) returns (next: OutRecord, ghost carried': seq<Row>, ghost cur': seq<seq<Row>>, ghost curRows': seq<seq<OutRow>>)
      requires Reducing(records, i, adds, newRecord, windows, carried, cur, curRows) && i < |records|
      requires chunkSize > 0 && OneColumnEach(reducers) && ReducersFit(reducers, |reducers|) && AllDense(windows)
      modifies this`sent, this`trMin, this`chunks, this`done, this`parts, reducers, newRecord
      ensures next == newRecord || fresh(next)
      ensures Reducing(records, i + 1, adds, next, windows, carried', cur', curRows')
    {
      AddsTurn(Aligned(interval), carried, records[i..], adds[i..]);
      assert records[i..][1..] == records[i + 1..] && adds[i..][1..] == adds[i + 1..];
      next, carried', cur', curRows' := Iterate(records[i..], newRecord, windows, carried, cur, curRows);
    }

    /** Between two records: chunks sent, record under construction, open window and records to come
        together make up the windows that are reported. */
    ghost predicate InLoop(
      newRecord: OutRecord, windows: seq<seq<Row>>, carried: seq<Row>,
      cur: seq<seq<Row>>, curRows: seq<seq<OutRow>>, pending: seq<Record>
    )
      reads this, newRecord, reducers
    {
      && SentSoFar() && AllCarry(reducers, 0, |reducers|, carried)
      && Extends(reducers, EmptyColumns(|reducers|), newRecord.columns, cur, curRows)
      && Indexable(pending)
      && Divides(Aligned(interval), windows, done + cur, carried, pending)
    }

    /** One turn of the loop: send if the chunk is full, then reduce. */
    method Iterate(
      pending: seq<Record>, newRecord: OutRecord, ghost windows: seq<seq<Row>>,
      ghost carried: seq<Row>, ghost cur: seq<seq<Row>>, ghost curRows: seq<seq<OutRow>>
    ) returns (next: OutRecord, ghost carried': seq<Row>, ghost cur': seq<seq<Row>>, ghost curRows': seq<seq<OutRow>>)
      requires pending != [] && InLoop(newRecord, windows, carried, cur, curRows, pending)
      requires chunkSize > 0 && OneColumnEach(reducers) && ReducersFit(reducers, |reducers|) && AllDense(windows)
      modifies this`sent, this`trMin, this`chunks, this`done, this`parts, reducers, newRecord
      ensures next == newRecord || fresh(next)
      ensures InLoop(next, windows, carried', cur', curRows', pending[1..])
      ensures carried' == OpenAfter(Aligned(interval), carried, pending)
      ensures
        var n := |old(newRecord.columns.times)|;
        && Lengths(chunks) == Lengths(old(chunks)) + Cut(chunkSize, n)
        && |next.columns.times| == |ClosedBy(Aligned(interval), carried, pending)| + Uncut(chunkSize, n)
    {
      next, cur', curRows' := FlushFull(newRecord, cur, curRows, Reported(Aligned(interval), carried, pending));
      carried', cur', curRows' := ReduceBeside(pending, next, windows, carried, cur', curRows');
    }

    /** Reducing leaves what has been sent alone. */
    method ReduceBeside(
      pending: seq<Record>, out: OutRecord, ghost windows: seq<seq<Row>>,
      ghost carried: seq<Row>, ghost cur: seq<seq<Row>>, ghost curRows: seq<seq<OutRow>>
    ) returns (ghost carried': seq<Row>, ghost cur': seq<seq<Row>>, ghost curRows': seq<seq<OutRow>>)
      requires SentSoFar() && pending != [] && Indexable(pending)
      requires OneColumnEach(reducers) && ReducersFit(reducers, |reducers|)
      requires AllCarry(reducers, 0, |reducers|, carried)
      requires Extends(reducers, EmptyColumns(|reducers|), out.columns, cur, curRows)
      requires Divides(Aligned(interval), windows, done + cur, carried, pending)
      modifies reducers, out
      ensures SentSoFar() && carried' == OpenAfter(Aligned(interval), carried, pending)
      ensures AllCarry(reducers, 0, |reducers|, carried')
      ensures Extends(reducers, EmptyColumns(|reducers|), out.columns, cur', curRows')
      ensures Divides(Aligned(interval), windows, done + cur', carried', pending[1..])
      ensures |out.columns.times| == |old(out.columns.times)| + |ClosedBy(Aligned(interval), carried, pending)|
    {
      carried', cur', curRows' := ReduceNext(interval, reducers, pending, out, windows, done, carried, cur, curRows);
    }

    /** A record that has reached the chunk size is sent before the next one is reduced. */
    method FlushFull(
      newRecord: OutRecord, ghost cur: seq<seq<Row>>, ghost curRows: seq<seq<OutRow>>, ghost rest: seq<seq<Row>>
    ) returns (next: OutRecord, ghost cur': seq<seq<Row>>, ghost curRows': seq<seq<OutRow>>)
      requires SentSoFar() && chunkSize > 0 && OneColumnEach(reducers) && ReducersFit(reducers, |reducers|)
      requires AllDense(done + cur + rest)
      requires Extends(reducers, EmptyColumns(|reducers|), newRecord.columns, cur, curRows)
      modifies this`sent, this`trMin, this`chunks, this`done, this`parts
      ensures SentSoFar() && done + cur' == old(done) + cur
      ensures next == newRecord || fresh(next)
      ensures Extends(reducers, EmptyColumns(|reducers|), next.columns, cur', curRows')
      ensures
        var n := |old(newRecord.columns.times)|;
        Lengths(chunks) == Lengths(old(chunks)) + Cut(chunkSize, n) && |next.columns.times| == Uncut(chunkSize, n)
    {
      next, cur', curRows' := newRecord, cur, curRows;
      if |newRecord.columns.times| >= chunkSize {
        DenseMiddle(done, cur, rest);
        Flush(newRecord.columns, false, cur, curRows);
        next := new OutRecord(|reducers|);
        cur', curRows' := [], seq(|reducers|, _ => []);
        ExtendsNothing(reducers, EmptyColumns(|reducers|));
      }
    }

    /** The series time range, widened by one window on either side. */
    method Begin(seriesMin: int, seriesMax: int)
      requires interval > 0 && parts == [] && sent == [] && chunks == [] && done == []
      modifies this`trMin, this`trMax, this`start
      ensures SentSoFar() && start == interval * (WindowNumber(interval, seriesMin) - 1)
      ensures trMax == interval * (WindowNumber(interval, seriesMax) + 1)
    {
      trMin := WindowStart(interval, seriesMin - interval);
      trMax := WindowStart(interval, seriesMax + interval);
      NextWindow(interval, seriesMin - interval);
      NextWindow(interval, seriesMax);
      WindowStartIsMultiple(interval, seriesMax + interval);
      start := trMin;
    }
  }

  /** Whether the last window goes on in the next record of the series. Here an empty record ends it. */
  method InNextWindow(interval: nat, current: Record, rest: seq<Record>) returns (same: bool)
    requires interval > 0 && current != []
    ensures same == PeeksOn(Aligned(interval), current, rest)
  {
    if rest == [] || rest[0] == [] {
      return false;
    }
    var lastTime := current[|current| - 1].time;
    var startTime := WindowStart(interval, rest[0][0].time);
    var endTime := startTime + interval;
    InWindow(interval, rest[0][0].time, lastTime);
    return startTime <= lastTime < endTime;
  }

  /** Reduces one record of the series into the record under construction, unless all its rows are kicked. */
  method ReduceNext(
    interval: nat, reducers: seq<Reducer>, pending: seq<Record>, out: OutRecord,
    ghost windows: seq<seq<Row>>, ghost done: seq<seq<Row>>, ghost carried: seq<Row>,
    ghost cur: seq<seq<Row>>, ghost curRows: seq<seq<OutRow>>
  ) returns (ghost carried': seq<Row>, ghost cur': seq<seq<Row>>, ghost curRows': seq<seq<OutRow>>)
    requires interval > 0 && pending != [] && Indexable(pending)
    requires OneColumnEach(reducers) && ReducersFit(reducers, |reducers|) && AllCarry(reducers, 0, |reducers|, carried)
    requires Extends(reducers, EmptyColumns(|reducers|), out.columns, cur, curRows)
    requires Divides(Aligned(interval), windows, done + cur, carried, pending)
    modifies reducers, out
    ensures AllCarry(reducers, 0, |reducers|, carried') && carried' == OpenAfter(Aligned(interval), carried, pending)
    ensures Extends(reducers, EmptyColumns(|reducers|), out.columns, cur', curRows')
    ensures Divides(Aligned(interval), windows, done + cur', carried', pending[1..])
    ensures |out.columns.times| == |old(out.columns.times)| + |ClosedBy(Aligned(interval), carried, pending)|
  {
    var kept := KickNilRow(pending[0]);
    var rest := pending[1..];
    KeptMeaning(pending[0]);
    ReportedGoOn(Aligned(interval), windows, done + cur, carried, pending);
    NoTimesNoRows(reducers, |reducers|, out.columns, cur, curRows);
    carried', cur', curRows' := carried, cur, curRows;
    if kept != [] {
      var same := InNextWindow(interval, kept, rest);
      ghost var more := Closed(JoinFirst(carried, Runs(Aligned(interval), kept)), same);
      cur', curRows' := ReduceMore(interval, reducers, kept, same, carried, out, |reducers|, cur, curRows);
      carried' := StillOpen(JoinFirst(carried, Runs(Aligned(interval), kept)), same);
      Associate(done, cur, more);
      NoTimesNoRows(reducers, |reducers|, out.columns, cur', curRows');
    }
  }

  /** Records whose row numbers fit in 16 bits. */
  ghost predicate Indexable(records: seq<Record>) {
    forall k :: 0 <= k < |records| ==> |records[k]| <= MAX_INDEX
  }

  lemma {:induction false} NextWindow(interval: nat, t: int)
    requires interval > 0
    ensures WindowStart(interval, t) == interval * WindowNumber(interval, t)
    ensures WindowNumber(interval, t + interval) == WindowNumber(interval, t) + 1
  {
    WindowStartIsMultiple(interval, t);
    var q := t / interval;
    assert t + interval == interval * (q + 1) + t % interval;
    DivideWith(interval, q + 1, t % interval);
  }
}
