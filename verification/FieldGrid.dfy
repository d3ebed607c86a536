/** What a downsampled field ought to be, and how much of it a sequence of chunks delivers. */
module FieldGrid {
  import opened Records
  import opened Windows
  import opened Aggregates
  import opened Reducers
  import opened AggregateCursors
  import opened Grid

  // ----- reduced rows

  /** `row` reports the window: a time inside it and, column by column, the value of each call. */
  ghost predicate RowRight(reducers: seq<Reducer>, window: seq<Row>, row: AggRow) {
    && TimeInside(window, row.time)
    && |row.values| == |reducers|
    && forall c :: 0 <= c < |reducers| ==> ValueRight(reducers[c].call, window, row.values[c])
  }

  ghost predicate RowsRight(reducers: seq<Reducer>, windows: seq<seq<Row>>, rows: seq<AggRow>) {
    && |rows| == |windows|
    && forall k :: 0 <= k < |rows| ==> RowRight(reducers, windows[k], rows[k])
  }

  lemma {:induction false} RightConcat(
    reducers: seq<Reducer>, a: seq<seq<Row>>, b: seq<seq<Row>>, rows: seq<AggRow>, more: seq<AggRow>
  )
    requires RowsRight(reducers, a, rows) && RowsRight(reducers, b, more)
    ensures RowsRight(reducers, a + b, rows + more)
  {
  }

  /** What is sent of a series with windows `lo` to `hi`, with the padding after its last row or without. */
  function Delivered(
    interval: nat, width: nat, chunks: seq<seq<AggRow>>, lo: int, hi: int, shardStart: int, tailed: bool
  ): seq<AggRow>
    requires interval > 0
  {
    if tailed then Sent(interval, width, chunks, interval * (lo - 1), interval * (hi + 1), shardStart)
    else SentOpen(interval, width, chunks, interval * (lo - 1), interval * (hi + 1), shardStart)
  }

  // ----- the field on the grid

  ghost predicate ValuesRight(reducers: seq<Reducer>, window: seq<Row>, values: seq<Option<int>>) {
    |values| == |reducers| && forall c :: 0 <= c < |reducers| ==> ValueRight(reducers[c].call, window, values[c])
  }

  /** The values of the calls on the rows of the series in window `q`, or nulls if it has none. */
  ghost predicate EntryRight(
    interval: nat, reducers: seq<Reducer>, windows: seq<seq<Row>>, q: int, values: seq<Option<int>>
  )
    requires interval > 0 && forall k :: 0 <= k < |windows| ==> windows[k] != []
  {
    && (forall j :: 0 <= j < |windows| && WindowNumber(interval, windows[j][0].time) == q ==>
          ValuesRight(reducers, windows[j], values))
    && ((forall j :: 0 <= j < |windows| ==> WindowNumber(interval, windows[j][0].time) != q) ==>
          AllNull(|reducers|, values))
  }

  /** A value or null for each call, whether the window has rows or not. */
  lemma {:induction false} EntryWidth(
    interval: nat, reducers: seq<Reducer>, windows: seq<seq<Row>>, q: int, values: seq<Option<int>>
  )
    requires interval > 0 && forall k :: 0 <= k < |windows| ==> windows[k] != []
    requires EntryRight(interval, reducers, windows, q, values)
    ensures |values| == |reducers|
  {
    if j :| 0 <= j < |windows| && WindowNumber(interval, windows[j][0].time) == q {
      assert ValuesRight(reducers, windows[j], values);
    }
  }

  /** One right row for each window from `lo` to `hi`, at the window's start (the first not before the shard). */
  ghost predicate FieldOnGrid(
    interval: nat, reducers: seq<Reducer>, windows: seq<seq<Row>>, lo: int, hi: int, shardStart: int, out: seq<AggRow>
  )
    requires interval > 0 && forall k :: 0 <= k < |windows| ==> windows[k] != []
  {
    && |out| == hi - lo + 1
    && forall k :: 0 <= k < |out| ==>
         && out[k].time == GridTime(interval, lo, shardStart, k)
         && EntryRight(interval, reducers, windows, lo + k, out[k].values)
  }

  /** The values alone. */
  ghost predicate ValuesOnGrid(
    interval: nat, reducers: seq<Reducer>, windows: seq<seq<Row>>, lo: int, hi: int, out: seq<AggRow>
  )
    requires interval > 0 && forall k :: 0 <= k < |windows| ==> windows[k] != []
  {
    && |out| == hi - lo + 1
    && forall k :: 0 <= k < |out| ==> EntryRight(interval, reducers, windows, lo + k, out[k].values)
  }

  /** So many rows are missing, and the field is on the grid if and only if none is. */
  ghost predicate Exact(
    interval: nat, reducers: seq<Reducer>, windows: seq<seq<Row>>, lo: int, hi: int, shardStart: int,
    sent: seq<AggRow>, missing: int
  )
    requires interval > 0 && forall k :: 0 <= k < |windows| ==> windows[k] != []
  {
    && 0 <= missing && |sent| + missing == hi - lo + 1
    && (FieldOnGrid(interval, reducers, windows, lo, hi, shardStart, sent) <==> missing == 0)
  }

  lemma {:induction false} SameWindowNumber(interval: nat, t: int, u: int)
    requires interval > 0 && Aligned(interval)(t) == Aligned(interval)(u)
    ensures WindowNumber(interval, t) == WindowNumber(interval, u)
  {
    WindowStartIsMultiple(interval, t);
    WindowStartIsMultiple(interval, u);
    MulDiv(interval, WindowNumber(interval, t));
    MulDiv(interval, WindowNumber(interval, u));
  }

  /** A reduced row lies in the window it reports. */
  lemma {:induction false} RowInWindow(
    interval: nat, reducers: seq<Reducer>, rows: seq<Row>, reduced: seq<AggRow>, k: nat
  )
    requires interval > 0 && k < |reduced| && RowsRight(reducers, Runs(Aligned(interval), rows), reduced)
    ensures WindowNumber(interval, reduced[k].time) == WindowNumber(interval, Runs(Aligned(interval), rows)[k][0].time)
  {
    var windows: seq<seq<Row>> := Runs(Aligned(interval), rows);
    RunsShare(Aligned(interval), rows);
    assert RowRight(reducers, windows[k], reduced[k]);
    var j :| 0 <= j < |windows[k]| && windows[k][j].time == reduced[k].time;
    SameWindowNumber(interval, windows[k][j].time, windows[k][0].time);
  }

  /** Row k of the grid stands at the first time of its window that is not before the shard. */
  lemma {:induction false} GridTimeMeaning(interval: nat, lo: int, shardStart: int, k: nat)
    requires interval > 0 && shardStart < interval * (lo + 1)
    ensures
      var t := GridTime(interval, lo, shardStart, k);
      && WindowNumber(interval, t) == lo + k && shardStart <= t
      && forall u :: WindowNumber(interval, u) == lo + k && shardStart <= u ==> t <= u
  {
    var t := GridTime(interval, lo, shardStart, k);
    if k > 0 {
      ScaleUp(interval, lo, lo + k);
    }
    assert interval * (lo + 1) == interval * lo + interval;
    DivideWith(interval, lo + k, t - interval * (lo + k));
    forall u | WindowNumber(interval, u) == lo + k && shardStart <= u
      ensures t <= u
    {
      assert u == interval * (lo + k) + u % interval;
    }
  }

  ghost predicate Within(rows: seq<Row>, min: int, max: int) {
    forall i :: 0 <= i < |rows| ==> min <= rows[i].time <= max
  }

  lemma {:induction false} FirstRowInside(parts: seq<seq<Row>>, k: nat, min: int, max: int)
    requires k < |parts| && parts[k] != [] && Within(Flatten(parts), min, max)
    ensures min <= parts[k][0].time <= max
  {
    var whole := Flatten(parts);
    if k == 0 {
      assert whole[0] == parts[0][0];
    } else {
      var rest := Flatten(parts[1..]);
      assert forall i :: 0 <= i < |rest| ==> rest[i] == whole[|parts[0]| + i];
      FirstRowInside(parts[1..], k - 1, min, max);
    }
  }

  lemma {:induction false} WindowNumberMonotone(interval: nat, t: int, u: int)
    requires interval > 0 && t <= u
    ensures WindowNumber(interval, t) <= WindowNumber(interval, u)
  {
    var p, q := t / interval, u / interval;
    MulMonotone(interval, q, p);
  }

  /** The reduced rows of an ascending series fit the grid of its time range. */
  lemma {:induction false} ReducedFits(interval: nat, reducers: seq<Reducer>, rows: seq<Row>, reduced: seq<AggRow>,
                                       min: int, max: int, shardStart: int)
    requires interval > 0 && rows != [] && Ascending(rows) && Within(rows, min, max) && shardStart <= min
    requires RowsRight(reducers, Runs(Aligned(interval), rows), reduced)
    ensures Fits(interval, WindowNumber(interval, min), WindowNumber(interval, max), shardStart, reduced)
  {
    var lo, hi := WindowNumber(interval, min), WindowNumber(interval, max);
    assert |reduced| > 0;
    assert Rising(interval, lo - 1, reduced) by {
      ReducedInside(interval, reducers, rows, reduced, min, max);
      ReducedRise(interval, reducers, rows, reduced);
    }
    assert LastWindow(interval, lo - 1, reduced) <= hi by {
      ReducedInside(interval, reducers, rows, reduced, min, max);
    }
    BeforeNextWindow(interval, min);
  }

  lemma {:induction false} BeforeNextWindow(interval: nat, t: int)
    requires interval > 0
    ensures t < interval * (WindowNumber(interval, t) + 1)
  {
    var q := t / interval;
    assert interval * (q + 1) == interval * q + interval;
  }

  lemma {:induction false} ReducedInside(
    interval: nat, reducers: seq<Reducer>, rows: seq<Row>, reduced: seq<AggRow>, min: int, max: int
  )
    requires interval > 0 && Within(rows, min, max) && RowsRight(reducers, Runs(Aligned(interval), rows), reduced)
    ensures forall k :: 0 <= k < |reduced| ==>
      WindowNumber(interval, min) <= WindowNumber(interval, reduced[k].time) <= WindowNumber(interval, max)
  {
    var windows: seq<seq<Row>> := Runs(Aligned(interval), rows);
    RunsFlatten(Aligned(interval), rows);
    forall k | 0 <= k < |reduced|
      ensures WindowNumber(interval, min) <= WindowNumber(interval, reduced[k].time) <= WindowNumber(interval, max)
    {
      RowInWindow(interval, reducers, rows, reduced, k);
      FirstRowInside(windows, k, min, max);
      WindowNumberMonotone(interval, min, windows[k][0].time);
      WindowNumberMonotone(interval, windows[k][0].time, max);
    }
  }

  lemma {:induction false} ReducedRise(interval: nat, reducers: seq<Reducer>, rows: seq<Row>, reduced: seq<AggRow>)
    requires interval > 0 && Ascending(rows) && RowsRight(reducers, Runs(Aligned(interval), rows), reduced)
    ensures forall i, j :: 0 <= i < j < |reduced| ==>
        WindowNumber(interval, reduced[i].time) < WindowNumber(interval, reduced[j].time)
  {
    var windows: seq<seq<Row>> := Runs(Aligned(interval), rows);
    AlignedIsMonotone(interval);
    RunsAscend(Aligned(interval), rows);
    forall i, j | 0 <= i < j < |reduced|
      ensures WindowNumber(interval, reduced[i].time) < WindowNumber(interval, reduced[j].time)
    {
      RowInWindow(interval, reducers, rows, reduced, i);
      RowInWindow(interval, reducers, rows, reduced, j);
      LaterWindow(interval, windows[i][0].time, windows[j][0].time);
    }
  }

  lemma {:induction false} LaterWindow(interval: nat, t: int, u: int)
    requires interval > 0 && Aligned(interval)(t) < Aligned(interval)(u)
    ensures WindowNumber(interval, t) < WindowNumber(interval, u)
  {
    WindowStartIsMultiple(interval, t);
    WindowStartIsMultiple(interval, u);
    if WindowNumber(interval, t) > WindowNumber(interval, u) {
      MulMonotone(interval, WindowNumber(interval, u), WindowNumber(interval, t));
    }
  }

  /** The rows that are not sent: a window lost to a clamped one-row chunk, and the padding after the last row
      when nothing was left to be sent at the end. */
  ghost function Missing(
    interval: nat, chunks: seq<seq<AggRow>>, lo: int, hi: int, shardStart: int, tailed: bool
  ): int
    requires interval > 0 && NonEmpty(chunks)
  {
    (if LosesWindow(interval, lo, shardStart, chunks) then 1 else 0)
    + if tailed then 0 else hi - LastWindow(interval, lo - 1, Flatten(chunks))
  }

  /** The downsampled field is the grid if and only if no row is missing. */
  lemma {:induction false} FieldGridExact(
    interval: nat, reducers: seq<Reducer>, rows: seq<Row>, chunks: seq<seq<AggRow>>,
    min: int, max: int, shardStart: int, tailed: bool
  )
    requires interval > 0 && rows != [] && Ascending(rows) && Within(rows, min, max) && shardStart <= min
    requires NonEmpty(chunks) && RowsRight(reducers, Runs(Aligned(interval), rows), Flatten(chunks))
    ensures
      var lo, hi := WindowNumber(interval, min), WindowNumber(interval, max);
      Exact(
        interval, reducers, Runs(Aligned(interval), rows), lo, hi, shardStart,
        Delivered(interval, |reducers|, chunks, lo, hi, shardStart, tailed),
        Missing(interval, chunks, lo, hi, shardStart, tailed))
  {
    assert chunks != [];
    ReducedFits(interval, reducers, rows, Flatten(chunks), min, max, shardStart);
    FieldExactAt(
      interval, reducers, rows, chunks, WindowNumber(interval, min), WindowNumber(interval, max), shardStart, tailed);
  }

  lemma {:induction false} FieldExactAt(
    interval: nat, reducers: seq<Reducer>, rows: seq<Row>, chunks: seq<seq<AggRow>>,
    lo: int, hi: int, shardStart: int, tailed: bool
  )
    requires interval > 0 && chunks != [] && NonEmpty(chunks) && Fits(interval, lo, hi, shardStart, Flatten(chunks))
    requires RowsRight(reducers, Runs(Aligned(interval), rows), Flatten(chunks))
    ensures Exact(
        interval, reducers, Runs(Aligned(interval), rows), lo, hi, shardStart,
        Delivered(interval, |reducers|, chunks, lo, hi, shardStart, tailed),
        Missing(interval, chunks, lo, hi, shardStart, tailed))
  {
    SentLength(interval, |reducers|, chunks, lo, hi, shardStart, tailed);
    if !LosesWindow(interval, lo, shardStart, chunks) {
      FieldGain(interval, reducers, rows, chunks, lo, hi, shardStart);
    }
    ExactByLength(
      interval, reducers, Runs(Aligned(interval), rows), lo, hi, shardStart,
      Delivered(interval, |reducers|, chunks, lo, hi, shardStart, tailed),
      Delivered(interval, |reducers|, chunks, lo, hi, shardStart, true),
      Missing(interval, chunks, lo, hi, shardStart, tailed));
  }

  lemma {:induction false} ExactByLength(
    interval: nat, reducers: seq<Reducer>, windows: seq<seq<Row>>, lo: int, hi: int, shardStart: int,
    sent: seq<AggRow>, full: seq<AggRow>, missing: int
  )
    requires interval > 0 && forall k :: 0 <= k < |windows| ==> windows[k] != []
    requires Lacks(sent, full, missing, hi - lo + 1)
    requires missing == 0 ==> FieldOnGrid(interval, reducers, windows, lo, hi, shardStart, full)
    ensures Exact(interval, reducers, windows, lo, hi, shardStart, sent, missing)
  {
  }

  /** With the padding after the last row only a lost window can be missing. */
  lemma {:induction false} FullLength(
    interval: nat, width: nat, chunks: seq<seq<AggRow>>, lo: int, hi: int, shardStart: int
  )
    requires interval > 0 && chunks != [] && NonEmpty(chunks) && Fits(interval, lo, hi, shardStart, Flatten(chunks))
    ensures |Delivered(interval, width, chunks, lo, hi, shardStart, true)|
         == hi - lo + 1 - if LosesWindow(interval, lo, shardStart, chunks) then 1 else 0
  {
    if LosesWindow(interval, lo, shardStart, chunks) {
      LossLength(interval, width, lo, hi, shardStart, chunks);
    } else {
      GridExact(interval, width, lo, hi, shardStart, chunks);
    }
  }

  lemma {:induction false} OpenLength(
    interval: nat, width: nat, chunks: seq<seq<AggRow>>, lo: int, hi: int, shardStart: int
  )
    requires interval > 0 && chunks != [] && NonEmpty(chunks) && Fits(interval, lo, hi, shardStart, Flatten(chunks))
    ensures
      var last := LastWindow(interval, lo - 1, Flatten(chunks));
      var sent := Delivered(interval, width, chunks, lo, hi, shardStart, false);
      var full := Delivered(interval, width, chunks, lo, hi, shardStart, true);
      last <= hi && |full| == |sent| + hi - last && (last == hi ==> full == sent)
  {
    var all := Flatten(chunks);
    var last := LastWindow(interval, lo - 1, all);
    OpenLacksTail(interval, width, chunks, interval * (lo - 1), interval * (hi + 1), shardStart);
    WindowStartIsMultiple(interval, all[|all| - 1].time);
    GapCovers(interval, width, last, hi + 1);
  }

  ghost predicate Lacks(sent: seq<AggRow>, full: seq<AggRow>, missing: int, n: int) {
    0 <= missing && |sent| + missing == n && (missing == 0 ==> sent == full)
  }

  lemma {:induction false} SentLength(
    interval: nat, width: nat, chunks: seq<seq<AggRow>>, lo: int, hi: int, shardStart: int, tailed: bool
  )
    requires interval > 0 && chunks != [] && NonEmpty(chunks) && Fits(interval, lo, hi, shardStart, Flatten(chunks))
    ensures Lacks(
        Delivered(interval, width, chunks, lo, hi, shardStart, tailed),
        Delivered(interval, width, chunks, lo, hi, shardStart, true),
        Missing(interval, chunks, lo, hi, shardStart, tailed), hi - lo + 1)
  {
    FullLength(interval, width, chunks, lo, hi, shardStart);
    OpenLength(interval, width, chunks, lo, hi, shardStart);
  }

  lemma {:induction false} FieldGain(interval: nat, reducers: seq<Reducer>, rows: seq<Row>, chunks: seq<seq<AggRow>>,
                                     lo: int, hi: int, shardStart: int)
    requires interval > 0 && chunks != [] && NonEmpty(chunks) && Fits(interval, lo, hi, shardStart, Flatten(chunks))
    requires RowsRight(reducers, Runs(Aligned(interval), rows), Flatten(chunks))
    requires !LosesWindow(interval, lo, shardStart, chunks)
    ensures FieldOnGrid(interval, reducers, Runs(Aligned(interval), rows), lo, hi, shardStart,
                        Sent(interval, |reducers|, chunks, interval * (lo - 1), interval * (hi + 1), shardStart))
  {
    var reduced := Flatten(chunks);
    var windows: seq<seq<Row>> := Runs(Aligned(interval), rows);
    GridExact(interval, |reducers|, lo, hi, shardStart, chunks);
    forall k | 0 <= k < |reduced|
      ensures WindowNumber(interval, reduced[k].time) == WindowNumber(interval, windows[k][0].time)
    {
      RowInWindow(interval, reducers, rows, reduced, k);
    }
    GridOfField(interval, reducers, windows, reduced, lo, hi, shardStart,
                Sent(interval, |reducers|, chunks, interval * (lo - 1), interval * (hi + 1), shardStart));
  }

  lemma {:induction false} GridOfField(
    interval: nat, reducers: seq<Reducer>, windows: seq<seq<Row>>, reduced: seq<AggRow>, lo: int, hi: int,
    shardStart: int, out: seq<AggRow>
  )
    requires interval > 0 && forall k :: 0 <= k < |windows| ==> windows[k] != []
    requires WholeGrid(interval, |reducers|, lo, hi, shardStart, reduced, out) && RowsRight(reducers, windows, reduced)
    requires forall k :: 0 <= k < |reduced| ==>
        WindowNumber(interval, reduced[k].time) == WindowNumber(interval, windows[k][0].time)
    ensures FieldOnGrid(interval, reducers, windows, lo, hi, shardStart, out)
  {
    forall k | 0 <= k < |out|
      ensures EntryRight(interval, reducers, windows, lo + k, out[k].values)
    {
      assert OnGrid(interval, |reducers|, lo + k, reduced, out[k].(time := interval * (lo + k)));
      forall j | 0 <= j < |windows| && WindowNumber(interval, windows[j][0].time) == lo + k
        ensures ValuesRight(reducers, windows[j], out[k].values)
      {
        assert RowRight(reducers, windows[j], reduced[j]);
      }
    }
  }

  function TimesOfRows(rows: seq<AggRow>): seq<int> {
    seq(|rows|, k requires 0 <= k < |rows| => rows[k].time)
  }

  /** The times of the grid of a series. */
  function GridTimes(interval: nat, lo: int, hi: int, shardStart: int): seq<int>
    requires lo <= hi
  {
    seq(hi - lo + 1, k requires 0 <= k < hi - lo + 1 => GridTime(interval, lo, shardStart, k))
  }

  /** A field has the times of the grid, or fewer. */
  lemma {:induction false} FieldTimes(
    interval: nat, width: nat, chunks: seq<seq<AggRow>>, lo: int, hi: int, shardStart: int, tailed: bool
  )
    requires interval > 0 && chunks != [] && NonEmpty(chunks) && Fits(interval, lo, hi, shardStart, Flatten(chunks))
    ensures lo <= hi
    ensures
      var times := TimesOfRows(Delivered(interval, width, chunks, lo, hi, shardStart, tailed));
      var missing := Missing(interval, chunks, lo, hi, shardStart, tailed);
      |times| == hi - lo + 1 - missing && (missing == 0 ==> times == GridTimes(interval, lo, hi, shardStart))
  {
    SentLength(interval, width, chunks, lo, hi, shardStart, tailed);
    if !LosesWindow(interval, lo, shardStart, chunks) {
      GridExact(interval, width, lo, hi, shardStart, chunks);
      WholeTimes(
        interval, width, lo, hi, shardStart, Flatten(chunks),
        Delivered(interval, width, chunks, lo, hi, shardStart, true));
    }
  }

  lemma {:induction false} WholeTimes(
    interval: nat, width: nat, lo: int, hi: int, shardStart: int, rows: seq<AggRow>, out: seq<AggRow>
  )
    requires interval > 0 && lo <= hi && WholeGrid(interval, width, lo, hi, shardStart, rows, out)
    ensures TimesOfRows(out) == GridTimes(interval, lo, hi, shardStart)
  {
  }

  /** Two fields of a series, whatever rows they have: if no row is missing they share one time column, and if
      different numbers of rows are missing they cannot. */
  lemma {:induction false} FieldsShareTimes(
    interval: nat, width: nat, otherWidth: nat, chunks: seq<seq<AggRow>>, other: seq<seq<AggRow>>,
    lo: int, hi: int, shardStart: int, tailed: bool, otherTailed: bool
  )
    requires interval > 0 && chunks != [] && NonEmpty(chunks) && Fits(interval, lo, hi, shardStart, Flatten(chunks))
    requires other != [] && NonEmpty(other) && Fits(interval, lo, hi, shardStart, Flatten(other))
    ensures
      var times := TimesOfRows(Delivered(interval, width, chunks, lo, hi, shardStart, tailed));
      var otherTimes := TimesOfRows(Delivered(interval, otherWidth, other, lo, hi, shardStart, otherTailed));
      var missing := Missing(interval, chunks, lo, hi, shardStart, tailed);
      var otherMissing := Missing(interval, other, lo, hi, shardStart, otherTailed);
      && (missing == 0 && otherMissing == 0 ==> times == otherTimes)
      && (missing != otherMissing ==> |times| != |otherTimes|)
  {
    FieldTimes(interval, width, chunks, lo, hi, shardStart, tailed);
    FieldTimes(interval, otherWidth, other, lo, hi, shardStart, otherTailed);
  }
}
