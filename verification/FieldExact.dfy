/** When a downsampled field is right, told from its records: which rows are missing, and what a wrong peek does
    to it. */
module FieldExact {
  import opened Records
  import opened Windows
  import opened Aggregates
  import opened Grouping
  import opened Kicking
  import opened Reducers
  import opened Grid
  import opened Chunking
  import opened FieldGrid

  // ----- the rows missing, by chunks and by records

  function Lengths(chunks: seq<seq<AggRow>>): seq<nat> {
    seq(|chunks|, k requires 0 <= k < |chunks| => |chunks[k]|)
  }

  lemma {:induction false} SecondRow(chunks: seq<seq<AggRow>>)
    requires NonEmpty(chunks) && chunks != []
    ensures Flatten(chunks) != [] && Flatten(chunks)[0] == chunks[0][0]
    ensures |chunks| > 1 && |chunks[0]| == 1 ==> |Flatten(chunks)| > 1 && Flatten(chunks)[1] == chunks[1][0]
  {
    if |chunks| > 1 {
      assert Flatten(chunks[1..]) == chunks[1] + Flatten(chunks[1..][1..]);
    }
  }

  /** The chunks of a field with right peeks lose what its records say. */
  lemma {:induction false} LossIs(
    interval: nat, size: nat, reducers: seq<Reducer>, records: seq<Record>, chunks: seq<seq<AggRow>>, lo: int,
    shardStart: int
  )
    requires interval > 0 && NonEmpty(chunks) && chunks != []
    requires RowsRight(reducers, TrueWindows(interval, records), Flatten(chunks))
    requires Lengths(chunks) == ChunkLengths(FieldPlan(Aligned(interval), size, records))
    ensures LosesWindow(interval, lo, shardStart, chunks) <==> ClampLoses(interval, size, records, lo, shardStart)
  {
    SecondRow(chunks);
    RowInWindow(interval, reducers, KeptRows(records), Flatten(chunks), 0);
    if |Flatten(chunks)| > 1 {
      RowInWindow(interval, reducers, KeptRows(records), Flatten(chunks), 1);
    }
    assert |chunks| == |Lengths(chunks)| && Lengths(chunks)[0] == |chunks[0]|;
  }

  lemma {:induction false} MissingIs(
    interval: nat, size: nat, reducers: seq<Reducer>, records: seq<Record>, chunks: seq<seq<AggRow>>,
    min: int, max: int, shardStart: int
  )
    requires interval > 0 && NonEmpty(chunks) && KeptRows(records) != []
    requires RowsRight(reducers, TrueWindows(interval, records), Flatten(chunks))
    requires Lengths(chunks) == ChunkLengths(FieldPlan(Aligned(interval), size, records))
    ensures
      var lo, hi := WindowNumber(interval, min), WindowNumber(interval, max);
      Missing(interval, chunks, lo, hi, shardStart, FieldPlan(Aligned(interval), size, records).left > 0)
      == MissingRows(interval, size, records, min, max, shardStart)
  {
    assert chunks != [];
    LossIs(interval, size, reducers, records, chunks, WindowNumber(interval, min), shardStart);
    RowInWindow(interval, reducers, KeptRows(records), Flatten(chunks), |Flatten(chunks)| - 1);
  }

  // ----- the values of one column

  /** The entries of column c that are not null. */
  function Present(rows: seq<AggRow>, c: nat): seq<int> {
    if rows == [] then []
    else
      var n := |rows| - 1;
      Present(rows[..n], c) + PresentAt(rows[n], c)
  }

  function PresentAt(row: AggRow, c: nat): seq<int> {
    if c < |row.values| && row.values[c].Some? then [row.values[c].value] else []
  }

  lemma {:induction false} PresentConcat(a: seq<AggRow>, b: seq<AggRow>, c: nat)
    ensures Present(a + b, c) == Present(a, c) + Present(b, c)
  {
    if b == [] {
      assert a + b == a;
    } else {
      var n := |b| - 1;
      assert (a + b)[..|a + b| - 1] == a + b[..n];
      PresentConcat(a, b[..n], c);
    }
  }

  lemma {:induction false} PresentOne(row: AggRow, c: nat)
    ensures Present([row], c) == PresentAt(row, c)
  {
    assert [row][..0] == [];
  }

  lemma {:induction false} NullsHaveNone(rows: seq<AggRow>, width: nat, c: nat)
    requires forall k :: 0 <= k < |rows| ==> AllNull(width, rows[k].values)
    ensures Present(rows, c) == []
  {
    if rows != [] {
      NullsHaveNone(rows[..|rows| - 1], width, c);
    }
  }

  lemma {:induction false} GapHasNone(interval: nat, width: nat, from: int, end: int, c: nat)
    requires interval > 0
    ensures Present(Gap(interval, width, from, end), c) == []
  {
    NullsHaveNone(Gap(interval, width, from, end), width, c);
  }

  lemma {:induction false} FillKeeps(interval: nat, width: nat, from: int, rows: seq<AggRow>, c: nat)
    requires interval > 0
    ensures Present(Fill(interval, width, from, rows), c) == Present(rows, c)
    decreases |rows|
  {
    if rows != [] {
      var end := WindowStart(interval, rows[0].time);
      var gap, row, rest := Gap(interval, width, from, end), rows[0].(time := end), rows[1..];
      FillKeeps(interval, width, end, rest, c);
      GapHasNone(interval, width, from, end, c);
      PresentParts(gap, row, Fill(interval, width, end, rest), c);
      PresentHead(rows, c);
      assert [] + PresentAt(row, c) == PresentAt(rows[0], c);
    }
  }

  lemma {:induction false} PresentHead(rows: seq<AggRow>, c: nat)
    requires rows != []
    ensures Present(rows, c) == PresentAt(rows[0], c) + Present(rows[1..], c)
  {
    PresentConcat([rows[0]], rows[1..], c);
    PresentOne(rows[0], c);
    assert [rows[0]] + rows[1..] == rows;
  }

  lemma {:induction false} PresentParts(a: seq<AggRow>, row: AggRow, b: seq<AggRow>, c: nat)
    ensures Present(a + [row] + b, c) == Present(a, c) + PresentAt(row, c) + Present(b, c)
  {
    PresentConcat(a, [row], c);
    PresentConcat(a + [row], b, c);
    PresentOne(row, c);
  }

  lemma {:induction false} ClampKeeps(rows: seq<AggRow>, shardStart: int, c: nat)
    ensures Present(Clamp(rows, shardStart), c) == Present(rows, c)
  {
    if rows != [] && rows[0].time < shardStart {
      var clamped := [rows[0].(time := shardStart)] + rows[1..];
      PresentHead(clamped, c);
      PresentHead(rows, c);
      assert clamped[1..] == rows[1..];
    }
  }

  lemma {:induction false} PaddedKeeps(
    interval: nat, width: nat, rows: seq<AggRow>, from: int, end: int, shardStart: int, c: nat
  )
    requires interval > 0
    ensures Present(Padded(interval, width, rows, from, end, shardStart, false), c) == Present(rows, c)
  {
    var filled := Fill(interval, width, from, rows);
    FillKeeps(interval, width, from, rows, c);
    assert filled + [] == filled;
    ClampKeeps(filled, shardStart, c);
  }

  lemma {:induction false} OpenKeeps(
    interval: nat, width: nat, chunks: seq<seq<AggRow>>, start: int, end: int, shardStart: int, c: nat
  )
    requires interval > 0
    ensures Present(SentOpen(interval, width, chunks, start, end, shardStart), c) == Present(Flatten(chunks), c)
    decreases |chunks|
  {
    if chunks != [] {
      var out := Padded(interval, width, chunks[0], start, end, shardStart, false);
      var from := LastTime(out, start);
      PaddedKeeps(interval, width, chunks[0], start, end, shardStart, c);
      OpenKeeps(interval, width, chunks[1..], from, end, shardStart, c);
      PresentConcat(out, SentOpen(interval, width, chunks[1..], from, end, shardStart), c);
      PresentConcat(chunks[0], Flatten(chunks[1..]), c);
    }
  }

  /** Padding adds nothing but nulls: the values sent are those of the reduced rows. */
  lemma {:induction false} DeliveredKeeps(
    interval: nat, width: nat, chunks: seq<seq<AggRow>>, lo: int, hi: int, shardStart: int, tailed: bool, c: nat
  )
    requires interval > 0 && NonEmpty(chunks)
    ensures Present(Delivered(interval, width, chunks, lo, hi, shardStart, tailed), c) == Present(Flatten(chunks), c)
  {
    var start, end := interval * (lo - 1), interval * (hi + 1);
    OpenKeeps(interval, width, chunks, start, end, shardStart, c);
    if tailed && chunks != [] {
      OpenLacksTail(interval, width, chunks, start, end, shardStart);
      var last := Flatten(chunks)[|Flatten(chunks)| - 1];
      var tail := Gap(interval, width, WindowStart(interval, last.time), end);
      GapHasNone(interval, width, WindowStart(interval, last.time), end, c);
      PresentConcat(SentOpen(interval, width, chunks, start, end, shardStart), tail, c);
    }
  }

  // ----- a column of counts

  function Sizes(windows: seq<seq<Row>>): seq<int> {
    seq(|windows|, k requires 0 <= k < |windows| => |windows[k]|)
  }

  ghost predicate CountsAt(reducers: seq<Reducer>, c: nat) {
    c < |reducers| && reducers[c].call.op.Count? && reducers[c].call.col == FIELD
  }

  /** The right entry for a window of values is its size. */
  lemma {:induction false} CountRight(reducers: seq<Reducer>, c: nat, window: seq<Row>, v: Option<int>)
    requires CountsAt(reducers, c) && window != [] && Dense(window, FIELD)
    requires ValueRight(reducers[c].call, window, v)
    ensures v == Some(|window|)
  {
    assert Cell(window[0], FIELD).Some?;
    assert HasValue(window, FIELD);
    CountBound(window, FIELD);
  }

  lemma {:induction false} ReducedCounts(reducers: seq<Reducer>, c: nat, windows: seq<seq<Row>>, rows: seq<AggRow>)
    requires CountsAt(reducers, c) && AllDense(windows) && RowsRight(reducers, windows, rows)
    ensures Present(rows, c) == Sizes(windows)
  {
    if rows != [] {
      var n := |rows| - 1;
      ReducedCounts(reducers, c, windows[..n], rows[..n]);
      assert RowRight(reducers, windows[n], rows[n]);
      CountRight(reducers, c, windows[n], rows[n].values[c]);
      assert Sizes(windows) == Sizes(windows[..n]) + [|windows[n]|];
    }
  }

  /** Windows in ever later places, all from `lo` to `hi`. */
  ghost predicate Placed(interval: nat, windows: seq<seq<Row>>, lo: int, hi: int)
    requires interval > 0
  {
    && AllDense(windows) && Rise(interval, windows)
    && forall j :: 0 <= j < |windows| ==> lo <= WindowNumber(interval, windows[j][0].time) <= hi
  }

  ghost predicate Rise(interval: nat, windows: seq<seq<Row>>)
    requires interval > 0 && forall k :: 0 <= k < |windows| ==> windows[k] != []
  {
    forall i, j :: 0 <= i < j < |windows| ==>
      WindowNumber(interval, windows[i][0].time) < WindowNumber(interval, windows[j][0].time)
  }

  /** The first j windows are those before `q`. */
  ghost predicate Before(interval: nat, windows: seq<seq<Row>>, q: int, j: nat)
    requires interval > 0 && forall k :: 0 <= k < |windows| ==> windows[k] != []
  {
    && j <= |windows|
    && (forall i :: 0 <= i < j ==> WindowNumber(interval, windows[i][0].time) < q)
    && forall i :: j <= i < |windows| ==> WindowNumber(interval, windows[i][0].time) >= q
  }

  /** The entry of window q adds the window of q, if there is one. */
  lemma {:induction false} EntryCounts(
    interval: nat, reducers: seq<Reducer>, c: nat, windows: seq<seq<Row>>, q: int, row: AggRow, j: nat
  ) returns (j': nat)
    requires interval > 0 && CountsAt(reducers, c) && AllDense(windows) && Rise(interval, windows)
    requires Before(interval, windows, q, j) && EntryRight(interval, reducers, windows, q, row.values)
    ensures Before(interval, windows, q + 1, j') && Sizes(windows[..j']) == Sizes(windows[..j]) + PresentAt(row, c)
  {
    j' := j;
    if j < |windows| && WindowNumber(interval, windows[j][0].time) == q {
      CountRight(reducers, c, windows[j], row.values[c]);
      assert Sizes(windows[..j + 1]) == Sizes(windows[..j]) + [|windows[j]|];
      j' := j + 1;
    } else {
      assert AllNull(|reducers|, row.values);
    }
  }

  lemma {:induction false} GridCountsTo(
    interval: nat, reducers: seq<Reducer>, c: nat, windows: seq<seq<Row>>, lo: int, hi: int, out: seq<AggRow>,
    k: nat
  ) returns (j: nat)
    requires interval > 0 && CountsAt(reducers, c) && Placed(interval, windows, lo, hi) && k <= |out|
    requires ValuesOnGrid(interval, reducers, windows, lo, hi, out)
    ensures Before(interval, windows, lo + k, j) && Present(out[..k], c) == Sizes(windows[..j])
  {
    if k == 0 {
      return 0;
    }
    j := GridCountsTo(interval, reducers, c, windows, lo, hi, out, k - 1);
    assert out[..k][..k - 1] == out[..k - 1];
    j := EntryCounts(interval, reducers, c, windows, lo + (k - 1), out[k - 1], j);
  }

  lemma {:induction false} NoneLater(interval: nat, windows: seq<seq<Row>>, lo: int, hi: int, j: nat)
    requires interval > 0 && Placed(interval, windows, lo, hi) && Before(interval, windows, hi + 1, j)
    ensures windows[..j] == windows
  {
    if windows != [] {
      assert WindowNumber(interval, windows[|windows| - 1][0].time) <= hi;
    }
  }

  lemma {:induction false} GridCounts(
    interval: nat, reducers: seq<Reducer>, c: nat, windows: seq<seq<Row>>, lo: int, hi: int, out: seq<AggRow>
  )
    requires interval > 0 && CountsAt(reducers, c) && Placed(interval, windows, lo, hi)
    requires ValuesOnGrid(interval, reducers, windows, lo, hi, out)
    ensures Present(out, c) == Sizes(windows)
  {
    var j := GridCountsTo(interval, reducers, c, windows, lo, hi, out, |out|);
    assert out[..|out|] == out;
    NoneLater(interval, windows, lo, hi, j);
  }

  // ----- what a wrong peek does

  /** What is reported are the values in order, up to where the last window is left open. */
  lemma {:induction false} ReportedPrefix(win: Windowing, carried: seq<Row>, records: seq<Record>)
    ensures Flatten(Reported(win, carried, records)) <= carried + KeptRows(records)
    decreases |records|
  {
    if records != [] {
      var kept, rest := Kept(records[0]), records[1..];
      if kept == [] {
        ReportedPrefix(win, carried, rest);
        assert KeptRows(records) == KeptRows(rest);
      } else {
        var windows, same := JoinFirst(carried, Runs(win, kept)), PeeksOn(win, kept, rest);
        var open := StillOpen(windows, same);
        ReportedPrefix(win, open, rest);
        FlattenAppend(Closed(windows, same), Reported(win, open, rest));
        JoinedRows(win, carried, kept, same);
        PrefixJoins(
          Flatten(Closed(windows, same)), open, carried + kept, KeptRows(rest), Flatten(Reported(win, open, rest)));
        Associate(carried, kept, KeptRows(rest));
      }
    }
  }

  lemma {:induction false} JoinedRows(win: Windowing, carried: seq<Row>, kept: Record, same: bool)
    requires kept != []
    ensures
      var windows := JoinFirst(carried, Runs(win, kept));
      Flatten(Closed(windows, same)) + StillOpen(windows, same) == carried + kept
  {
    var runs := Runs(win, kept);
    var windows := JoinFirst(carried, runs);
    RunsFlatten(win, kept);
    assert windows[1..] == runs[1..];
    assert Flatten(windows) == (carried + runs[0]) + Flatten(runs[1..]);
    Associate(carried, runs[0], Flatten(runs[1..]));
    if same {
      var n := |windows| - 1;
      assert windows == windows[..n] + [windows[n]];
      FlattenSnoc(windows[..n], windows[n]);
    } else {
      assert Flatten(windows) + [] == Flatten(windows);
    }
  }

  lemma {:induction false} PrefixJoins<T>(a: seq<T>, open: seq<T>, whole: seq<T>, later: seq<T>, more: seq<T>)
    requires a + open == whole && more <= open + later
    ensures a + more <= whole + later
  {
    Associate(a, open, later);
    assert open + later == more + (open + later)[|more|..];
    Associate(a, more, (open + later)[|more|..]);
  }

  /** Rows cut into windows of the same sizes are cut into the same windows. */
  lemma {:induction false} SizesDecide(a: seq<seq<Row>>, b: seq<seq<Row>>)
    requires Sizes(a) == Sizes(b) && Flatten(a) <= Flatten(b)
    ensures a == b
  {
    assert |a| == |Sizes(a)| == |Sizes(b)| == |b|;
    if a != [] {
      assert Sizes(a)[0] == |a[0]| && Sizes(b)[0] == |b[0]|;
      assert a[0] == Flatten(a)[..|a[0]|] == Flatten(b)[..|b[0]|] == b[0];
      assert Flatten(a[1..]) == Flatten(a)[|a[0]|..] && Flatten(b[1..]) == Flatten(b)[|a[0]|..];
      assert Sizes(a[1..]) == Sizes(a)[1..] && Sizes(b[1..]) == Sizes(b)[1..];
      SizesDecide(a[1..], b[1..]);
    }
  }

  lemma {:induction false} WindowsPlaced(interval: nat, records: seq<Record>, min: int, max: int)
    requires interval > 0 && Ascending(KeptRows(records)) && Within(KeptRows(records), min, max)
    ensures Placed(interval, TrueWindows(interval, records), WindowNumber(interval, min), WindowNumber(interval, max))
  {
    var rows := KeptRows(records);
    var windows: seq<seq<Row>> := TrueWindows(interval, records);
    KeptRowsDense(records);
    RunsDense(Aligned(interval), rows);
    RunsFlatten(Aligned(interval), rows);
    AlignedIsMonotone(interval);
    RunsAscend(Aligned(interval), rows);
    forall j | 0 <= j < |windows|
      ensures WindowNumber(interval, min) <= WindowNumber(interval, windows[j][0].time) <= WindowNumber(interval, max)
    {
      FirstRowInside(windows, j, min, max);
      WindowNumberMonotone(interval, min, windows[j][0].time);
      WindowNumberMonotone(interval, windows[j][0].time, max);
    }
    forall i, j | 0 <= i < j < |windows|
      ensures WindowNumber(interval, windows[i][0].time) < WindowNumber(interval, windows[j][0].time)
    {
      LaterWindow(interval, windows[i][0].time, windows[j][0].time);
    }
  }

  lemma {:induction false} KeptRowsDense(records: seq<Record>)
    ensures Dense(KeptRows(records), FIELD)
  {
    if records != [] {
      KeptMeaning(records[0]);
      KeptRowsDense(records[1..]);
    }
  }

  /** A field that is counted cannot have the values of the grid after a wrong peek. */
  lemma {:induction false} CountsTellPeeks(
    interval: nat, reducers: seq<Reducer>, c: nat, records: seq<Record>, chunks: seq<seq<AggRow>>,
    min: int, max: int, shardStart: int, tailed: bool
  )
    requires interval > 0 && CountsAt(reducers, c) && NonEmpty(chunks)
    requires Ascending(KeptRows(records)) && Within(KeptRows(records), min, max)
    requires RowsRight(reducers, Reported(Aligned(interval), [], records), Flatten(chunks))
    requires
      var lo, hi := WindowNumber(interval, min), WindowNumber(interval, max);
      ValuesOnGrid(
        interval, reducers, TrueWindows(interval, records), lo, hi,
        Delivered(interval, |reducers|, chunks, lo, hi, shardStart, tailed))
    ensures PeeksRight(Aligned(interval), records)
  {
    var win, lo, hi := Aligned(interval), WindowNumber(interval, min), WindowNumber(interval, max);
    var windows, reported := TrueWindows(interval, records), Reported(win, [], records);
    var sent := Delivered(interval, |reducers|, chunks, lo, hi, shardStart, tailed);
    DeliveredKeeps(interval, |reducers|, chunks, lo, hi, shardStart, tailed, c);
    ReportedDense(win, [], records);
    ReducedCounts(reducers, c, reported, Flatten(chunks));
    WindowsPlaced(interval, records, min, max);
    GridCounts(interval, reducers, c, windows, lo, hi, sent);
    ReportedPrefix(win, [], records);
    RunsFlatten(win, KeptRows(records));
    assert [] + KeptRows(records) == KeptRows(records);
    SizesDecide(reported, windows);
    ReportedExact(win, records);
  }

  // ----- the whole field

  /** The values of a field come in order and lie in the time range of its series. */
  ghost predicate InSeries(records: seq<Record>, min: int, max: int) {
    min <= max && Ascending(KeptRows(records)) && Within(KeptRows(records), min, max)
  }

  /** A caller can tell from the records that the field will be right: it has values, every peek is right, and no
      row is missing. */
  ghost predicate Sound(interval: nat, size: nat, records: seq<Record>, min: int, max: int, shardStart: int)
    requires interval > 0
  {
    && KeptRows(records) != [] && PeeksRight(Aligned(interval), records)
    && MissingRows(interval, size, records, min, max, shardStart) == 0
  }

  /** Every peek is right, or a wrong one shows in a count. */
  ghost predicate Telling(interval: nat, reducers: seq<Reducer>, records: seq<Record>) {
    PeeksRight(Aligned(interval), records) || exists c :: CountsAt(reducers, c)
  }

  /** What is sent of a field: nothing if it has no values; with right peeks all but the missing rows; the grid if the
      field is sound, and not even its values if it is not, unless wrong peeks do not show. */
  ghost predicate FieldResult(
    interval: nat, size: nat, reducers: seq<Reducer>, records: seq<Record>, sent: seq<AggRow>,
    min: int, max: int, shardStart: int
  )
    requires interval > 0
  {
    var lo, hi := WindowNumber(interval, min), WindowNumber(interval, max);
    && (KeptRows(records) == [] ==> sent == [])
    && (KeptRows(records) != [] && PeeksRight(Aligned(interval), records) ==>
          |sent| + MissingRows(interval, size, records, min, max, shardStart) == hi - lo + 1)
    && (Sound(interval, size, records, min, max, shardStart) ==>
          FieldOnGrid(interval, reducers, TrueWindows(interval, records), lo, hi, shardStart, sent))
    && (Telling(interval, reducers, records) && ValuesOnGrid(
          interval, reducers, TrueWindows(interval, records), lo, hi, sent) ==>
            Sound(interval, size, records, min, max, shardStart))
  }

  /** The rows sent of a field, by its chunks and its plan. */
  ghost predicate SentByPlan(
    interval: nat, size: nat, reducers: seq<Reducer>, records: seq<Record>, chunks: seq<seq<AggRow>>,
    sent: seq<AggRow>, min: int, max: int, shardStart: int
  )
    requires interval > 0
  {
    var plan := FieldPlan(Aligned(interval), size, records);
    SentAs(
      interval, reducers, plan, Reported(Aligned(interval), [], records), chunks, sent, WindowNumber(interval, min),
      WindowNumber(interval, max), shardStart)
  }

  ghost predicate SentAs(
    interval: nat, reducers: seq<Reducer>, plan: Plan, windows: seq<seq<Row>>, chunks: seq<seq<AggRow>>,
    sent: seq<AggRow>, lo: int, hi: int, shardStart: int
  )
    requires interval > 0
  {
    && NonEmpty(chunks) && RowsRight(reducers, windows, Flatten(chunks))
    && Lengths(chunks) == ChunkLengths(plan)
    && sent == Delivered(interval, |reducers|, chunks, lo, hi, shardStart, plan.left > 0)
  }

  lemma {:induction false} NoValuesNothingSent(
    interval: nat, size: nat, reducers: seq<Reducer>, records: seq<Record>, chunks: seq<seq<AggRow>>,
    sent: seq<AggRow>, min: int, max: int, shardStart: int
  )
    requires interval > 0 && SentByPlan(interval, size, reducers, records, chunks, sent, min, max, shardStart)
    requires KeptRows(records) == []
    ensures sent == []
  {
    ReportedPrefix(Aligned(interval), [], records);
    ReportedDense(Aligned(interval), [], records);
    NoRowsNoWindows(Reported(Aligned(interval), [], records));
    NoRowsNoWindows(chunks);
  }

  lemma {:induction false} NoRowsNoWindows<T>(parts: seq<seq<T>>)
    requires Flatten(parts) == [] && forall k :: 0 <= k < |parts| ==> parts[k] != []
    ensures parts == []
  {
  }

  lemma {:induction false} RightPeeksExact(
    interval: nat, size: nat, reducers: seq<Reducer>, records: seq<Record>, chunks: seq<seq<AggRow>>,
    sent: seq<AggRow>, min: int, max: int, shardStart: int
  )
    requires interval > 0 && SentByPlan(interval, size, reducers, records, chunks, sent, min, max, shardStart)
    requires InSeries(records, min, max) && shardStart <= min
    requires KeptRows(records) != [] && PeeksRight(Aligned(interval), records)
    ensures Exact(
        interval, reducers, TrueWindows(interval, records), WindowNumber(interval, min), WindowNumber(interval, max),
        shardStart, sent, MissingRows(interval, size, records, min, max, shardStart))
  {
    ReportedExact(Aligned(interval), records);
    MissingIs(interval, size, reducers, records, chunks, min, max, shardStart);
    FieldGridExact(
      interval, reducers, KeptRows(records), chunks, min, max, shardStart,
      FieldPlan(Aligned(interval), size, records).left > 0);
  }

  lemma {:induction false} FieldIsExact(
    interval: nat, size: nat, reducers: seq<Reducer>, records: seq<Record>, chunks: seq<seq<AggRow>>,
    sent: seq<AggRow>, min: int, max: int, shardStart: int
  )
    requires interval > 0 && SentByPlan(interval, size, reducers, records, chunks, sent, min, max, shardStart)
    requires InSeries(records, min, max) && shardStart <= min
    ensures FieldResult(interval, size, reducers, records, sent, min, max, shardStart)
  {
    var lo, hi := WindowNumber(interval, min), WindowNumber(interval, max);
    WindowNumberMonotone(interval, min, max);
    if KeptRows(records) == [] {
      NoValuesNothingSent(interval, size, reducers, records, chunks, sent, min, max, shardStart);
    } else if PeeksRight(Aligned(interval), records) {
      RightPeeksExact(interval, size, reducers, records, chunks, sent, min, max, shardStart);
    }
    if ValuesOnGrid(interval, reducers, TrueWindows(interval, records), lo, hi, sent) {
      if exists c :: CountsAt(reducers, c) {
        var c :| CountsAt(reducers, c);
        CountsTellPeeks(
          interval, reducers, c, records, chunks, min, max, shardStart,
          FieldPlan(Aligned(interval), size, records).left > 0);
      }
    }
  }

  /** A field whose records all begin with a value is sound, if the chunk size is at least 2 or the shard begins with a
      window. */
  lemma {:induction false} PlainFieldIsSound(
    interval: nat, size: nat, records: seq<Record>, min: int, max: int, shardStart: int
  )
    requires interval > 0 && records != [] && (size > 1 || shardStart <= interval * WindowNumber(interval, min))
    requires forall k :: 0 <= k < |records| ==> records[k] != [] && Cell(records[k][0], FIELD).Some?
    ensures Sound(interval, size, records, min, max, shardStart)
  {
    HeadsWithValues(Aligned(interval), records);
    KeptMeaning(records[0]);
    KeptMeaning(records[|records| - 1]);
    assert records[0][0] in Kept(records[0]);
    assert records[|records| - 1][0] in Kept(records[|records| - 1]);
    NothingMissing(interval, size, records, min, max, shardStart);
  }

  // ----- two wrong peeks that do not show

  lemma {:induction false} FirstPeekWrong(win: Windowing, record: Record, rest: seq<Record>)
    requires Kept(record) != [] && PeeksOn(win, Kept(record), rest) != ReallyGoesOn(win, Kept(record), rest)
    ensures !PeeksRight(win, [record] + rest)
  {
    assert ([record] + rest)[0] == record && ([record] + rest)[1..] == rest;
  }

  /** A null joins a row with the next window. */
  lemma {:induction false} Joined(win: Windowing, b: Row, n: Row, c: Row)
    requires Cell(b, FIELD).Some? && Cell(n, FIELD).None? && Cell(c, FIELD).Some? && win(b.time) == win(n.time)
    ensures Reported(win, [], [[b], [n, c]]) == [[b, c]] && KeptRows([[b], [n, c]]) == [b, c]
  {
    var last: seq<Record> := [[n, c]];
    KeptOfTwo(b, b);
    LastOfTwoKept(win, [b], n, c);
    assert PeeksOn(win, [b], last);
    OneKept(win, [], [b], b, last);
    assert [] + [b] == [b] && [b] + [c] == [b, c] && [[b]] + last == [[b], [n, c]];
  }

  /** An empty record cuts a window, and a null joins what is cut off with the next one. */
  lemma {:induction false} CutAndJoined(win: Windowing, a: Row, b: Row, n: Row, c: Row)
    requires Cell(a, FIELD).Some? && Cell(b, FIELD).Some? && Cell(n, FIELD).None? && Cell(c, FIELD).Some?
    requires win(a.time) == win(b.time) == win(n.time)
    ensures
      var records := [[a], [], [b], [n, c]];
      && Reported(win, [], records) == [[a], [b, c]] && KeptRows(records) == [a, b, c]
      && !PeeksRight(win, records)
  {
    var rest: seq<Record> := [[], [b], [n, c]];
    Joined(win, b, n, c);
    NoneKept(win, [], [], [[b], [n, c]]);
    assert [[]] + [[b], [n, c]] == rest;
    KeptOfTwo(a, a);
    assert !PeeksOn(win, [a], rest) && ReallyGoesOn(win, [a], rest);
    OneKept(win, [], [a], a, rest);
    FirstPeekWrong(win, [a], rest);
    assert [] + [a] == [a] && [[a]] + rest == [[a], [], [b], [n, c]] && [a] + [b, c] == [a, b, c];
  }

  lemma {:induction false} TwoOfThree(win: Windowing, a: Row, b: Row, c: Row)
    requires win(a.time) == win(b.time) != win(c.time)
    ensures Runs(win, [a, b, c]) == [[a, b], [c]]
  {
    assert [a, b, c][..2] == [a, b] && [a, b][..1] == [a];
    SingleRun(win, a);
    assert WithLast([[a]], b) == [[a] + [b]] && [a] + [b] == [a, b];
    assert Runs(win, [a, b]) == WithLast([[a]], b);
  }

  lemma {:induction false} MaxIs(call: Call, window: seq<Row>, k: nat, v: int)
    requires call == Call(Max, FIELD, []) && k < |window| && Cell(window[k], FIELD) == Some(v)
    requires forall j :: 0 <= j < |window| && j != k ==>
               Cell(window[j], FIELD).Some? && Cell(window[j], FIELD).value < v
    ensures ValueRight(call, window, Some(v))
  {
    assert HasValue(window, FIELD);
    assert IsSelected(Max, window, FIELD, k) && IsRow(call, window[k], Point(v, window[k].time, []));
    assert Summarises(call, window, Point(v, window[k].time, []));
  }

  function Valued(time: int, v: int): Row {
    Row(time, [Some(v)])
  }

  lemma {:induction false} MaximaRight(reducers: seq<Reducer>)
    requires |reducers| == 1 && reducers[0].call == Call(Max, FIELD, [])
    ensures
      var a, b, c := Valued(1, 5), Valued(2, 1), Valued(11, 7);
      && ValuesRight(reducers, [a], [Some(5)]) && ValuesRight(reducers, [a, b], [Some(5)])
      && ValuesRight(reducers, [c], [Some(7)]) && ValuesRight(reducers, [b, c], [Some(7)])
  {
    var a, b, c, call := Valued(1, 5), Valued(2, 1), Valued(11, 7), reducers[0].call;
    MaxIs(call, [a], 0, 5);
    MaxIs(call, [a, b], 0, 5);
    MaxIs(call, [c], 0, 7);
    MaxIs(call, [b, c], 1, 7);
  }

  lemma {:induction false} NoGap(from: int)
    ensures Gap(10, 1, from, from + 10) == []
  {
    assert (from + 10 - from) / 10 == 1;
  }

  lemma {:induction false} FillNext(row: AggRow, from: int, rest: seq<AggRow>)
    requires WindowStart(10, row.time) == from + 10
    ensures Fill(10, 1, from, [row] + rest) == [row.(time := from + 10)] + Fill(10, 1, from + 10, rest)
  {
    NoGap(from);
    assert ([row] + rest)[1..] == rest;
    assert [] + [row.(time := from + 10)] == [row.(time := from + 10)];
  }

  lemma {:induction false} TwoRowsSent()
    ensures Delivered(10, 1, [[AggRow(1, [Some(5)]), AggRow(11, [Some(7)])]], 0, 1, 0, true)
         == [AggRow(0, [Some(5)]), AggRow(10, [Some(7)])]
  {
    var x, y := AggRow(1, [Some(5)]), AggRow(11, [Some(7)]);
    var out := [x.(time := 0), y.(time := 10)];
    FillNext(y, 0, []);
    FillNext(x, -10, [y]);
    assert [x] + [y] == [x, y] && [y] + [] == [y];
    assert Fill(10, 1, -10, [x, y]) == out;
    NoGap(10);
    assert out + [] == out;
    assert Padded(10, 1, [x, y], -10, 20, 0, true) == out;
    assert Sent(10, 1, [[x, y]], -10, 20, 0) == out + [] by {
      assert [[x, y]][1..] == [];
    }
  }

  /** Windows of 10 and the maximum alone: values at 1 and 2 with an empty record between them, and at 11 after a
      null at 3. Two peeks are wrong, and the rows are right all the same. */
  lemma {:induction false} WrongPeeksMayAgree(reducers: seq<Reducer>)
    requires |reducers| == 1 && reducers[0].call == Call(Max, FIELD, [])
    ensures
      var records := [[Valued(1, 5)], [], [Valued(2, 1)], [WithoutValue(3), Valued(11, 7)]];
      var reduced := [AggRow(1, [Some(5)]), AggRow(11, [Some(7)])];
      && !PeeksRight(Aligned(10), records)
      && RowsRight(reducers, Reported(Aligned(10), [], records), reduced)
      && FieldOnGrid(
           10, reducers, TrueWindows(10, records), 0, 1, 0, Delivered(10, 1, [reduced], 0, 1, 0, true))
  {
    var a, b, n, c := Valued(1, 5), Valued(2, 1), WithoutValue(3), Valued(11, 7);
    var records := [[a], [], [b], [n, c]];
    CutAndJoined(Aligned(10), a, b, n, c);
    TwoOfThree(Aligned(10), a, b, c);
    MaximaRight(reducers);
    TwoRowsSent();
    AgreesOnGrid(reducers, TrueWindows(10, records), a, b, c);
    AgreesReduced(reducers, Reported(Aligned(10), [], records), a, b, c);
  }

  lemma {:induction false} AgreesReduced(reducers: seq<Reducer>, windows: seq<seq<Row>>, a: Row, b: Row, c: Row)
    requires windows == [[a], [b, c]] && a.time == 1 && c.time == 11
    requires ValuesRight(reducers, [a], [Some(5)]) && ValuesRight(reducers, [b, c], [Some(7)])
    ensures RowsRight(reducers, windows, [AggRow(1, [Some(5)]), AggRow(11, [Some(7)])])
  {
    assert windows[0][0].time == 1 && windows[1][1].time == 11;
  }

  lemma {:induction false} AgreesOnGrid(reducers: seq<Reducer>, windows: seq<seq<Row>>, a: Row, b: Row, c: Row)
    requires windows == [[a, b], [c]] && a.time == 1 && c.time == 11
    requires ValuesRight(reducers, [a, b], [Some(5)]) && ValuesRight(reducers, [c], [Some(7)])
    ensures FieldOnGrid(10, reducers, windows, 0, 1, 0, [AggRow(0, [Some(5)]), AggRow(10, [Some(7)])])
  {
    assert WindowNumber(10, windows[0][0].time) == 0 && WindowNumber(10, windows[1][0].time) == 1;
  }
}
