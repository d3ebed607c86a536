/** Time windows: which rows of a series are aggregated together. */
module Windows {
  import opened Records

  /** A windowing sends each time to the key of its window. */
  type Windowing = int -> int

  /** Start of the aligned window that holds `t`; the window is [start, start + interval). */
  function WindowStart(interval: nat, t: int): int
    requires interval > 0
  {
    t - t % interval
  }

  /** An interval of 0 means the query has no time grouping: everything is one window. */
  function Aligned(interval: nat): Windowing {
    t => if interval == 0 then 0 else WindowStart(interval, t)
  }

  /** The half-open test the cursors perform agrees with comparing window starts. */
  lemma {:induction false} InWindow(interval: nat, t: int, u: int)
    requires interval > 0
    ensures WindowStart(interval, t) <= u < WindowStart(interval, t) + interval
            <==> Aligned(interval)(t) == Aligned(interval)(u)
  {
    var q, k := t / interval, u / interval;
    assert WindowStart(interval, t) == interval * q;
    assert WindowStart(interval, u) == interval * k;
    MulMonotone(interval, k, q);
    MulMonotone(interval, q, k);
  }

  lemma {:induction false} MulMonotone(interval: nat, k: int, q: int)
    requires interval > 0
    ensures k < q ==> interval * k + interval <= interval * q
    decreases q - k
  {
    if k < q {
      assert interval * q == interval * (q - 1) + interval;
      MulMonotone(interval, k, q - 1);
    }
  }

  lemma {:induction false} DivideWith(interval: nat, d: int, r: int)
    requires interval > 0 && 0 <= r < interval
    ensures (interval * d + r) / interval == d
  {
    var t := interval * d + r;
    var p := t / interval;
    assert t == interval * p + t % interval;
    MulMonotone(interval, p, d);
    MulMonotone(interval, d, p);
  }

  /** The runs with one more row in the last of them. */
  function WithLast(runs: seq<seq<Row>>, row: Row): (extended: seq<seq<Row>>)
    requires runs != []
    ensures |extended| == |runs|
  {
    runs[..|runs| - 1] + [runs[|runs| - 1] + [row]]
  }

  /** The maximal runs of consecutive rows that share a window. */
  function Runs(win: Windowing, rows: seq<Row>): (runs: seq<seq<Row>>)
    ensures runs == [] <==> rows == []
    ensures forall k :: 0 <= k < |runs| ==> runs[k] != []
  {
    if rows == [] then []
    else
      var n := |rows| - 1;
      var runs := Runs(win, rows[..n]);
      if n > 0 && win(rows[n - 1].time) == win(rows[n].time)
      then WithLast(runs, rows[n])
      else runs + [[rows[n]]]
  }

  lemma {:induction false} RunsBound(win: Windowing, rows: seq<Row>)
    ensures |Runs(win, rows)| <= |rows|
  {
    if rows != [] {
      RunsBound(win, rows[..|rows| - 1]);
    }
  }

  ghost predicate OneWindow(win: Windowing, rows: seq<Row>) {
    rows != [] && forall i :: 0 <= i < |rows| ==> win(rows[i].time) == win(rows[0].time)
  }

  /** `runs` cuts `rows` exactly where the window changes. */
  ghost predicate Partitions(win: Windowing, rows: seq<Row>, runs: seq<seq<Row>>) {
    && Flatten(runs) == rows
    && (forall k :: 0 <= k < |runs| ==> OneWindow(win, runs[k]))
    && forall k :: 0 < k < |runs| ==> win(runs[k - 1][0].time) != win(runs[k][0].time)
  }

  lemma {:induction false} RunsPartition(win: Windowing, rows: seq<Row>)
    ensures Partitions(win, rows, Runs(win, rows))
  {
    RunsFlatten(win, rows);
    RunsShare(win, rows);
    RunsDiffer(win, rows);
  }

  lemma {:induction false} RunsFlatten(win: Windowing, rows: seq<Row>)
    ensures Flatten(Runs(win, rows)) == rows
  {
    if rows != [] {
      var n := |rows| - 1;
      var before := Runs(win, rows[..n]);
      RunsFlatten(win, rows[..n]);
      FlattenAppend(before, [[rows[n]]]);
      FlattenOne([rows[n]]);
      if n > 0 {
        ExtendLast(before, rows[n]);
      }
    }
  }

  lemma {:induction false} RunsShare(win: Windowing, rows: seq<Row>)
    ensures forall k :: 0 <= k < |Runs(win, rows)| ==> OneWindow(win, Runs(win, rows)[k])
  {
    if rows != [] {
      var n := |rows| - 1;
      RunsShare(win, rows[..n]);
      RunsEnds(win, rows[..n]);
    }
  }

  lemma {:induction false} RunsDiffer(win: Windowing, rows: seq<Row>)
    ensures var runs := Runs(win, rows); forall k :: 0 < k < |runs| ==> win(runs[k - 1][0].time) != win(runs[k][0].time)
  {
    if rows != [] {
      var n := |rows| - 1;
      RunsDiffer(win, rows[..n]);
      RunsEnds(win, rows[..n]);
    }
  }

  /** The first run begins with the first row, and the last row lies in the window of the last run. */
  lemma {:induction false} RunsEnds(win: Windowing, rows: seq<Row>)
    ensures rows != [] ==>
      var runs := Runs(win, rows);
      && runs[0][0] == rows[0]
      && win(runs[|runs| - 1][0].time) == win(rows[|rows| - 1].time)
  {
    if |rows| > 1 {
      RunsEnds(win, rows[..|rows| - 1]);
    }
  }

  ghost predicate Ascending(rows: seq<Row>) {
    forall i, j :: 0 <= i < j < |rows| ==> rows[i].time <= rows[j].time
  }

  ghost predicate Monotone(win: Windowing) {
    forall t, u :: t <= u ==> win(t) <= win(u)
  }

  lemma {:induction false} WindowStartMonotone(interval: nat, t: int, u: int)
    requires interval > 0 && t <= u
    ensures WindowStart(interval, t) <= WindowStart(interval, u)
  {
    assert WindowStart(interval, t) == interval * (t / interval);
    assert WindowStart(interval, u) == interval * (u / interval);
    MulMonotone(interval, u / interval, t / interval);
  }

  lemma {:induction false} AlignedIsMonotone(interval: nat)
    ensures Monotone(Aligned(interval))
  {
    forall t: int, u: int | t <= u
      ensures Aligned(interval)(t) <= Aligned(interval)(u)
    {
      if interval > 0 {
        WindowStartMonotone(interval, t, u);
      }
    }
  }

  /** In an ascending series every occupied window is one run, and the windows come in order. */
  lemma {:induction false} RunsAscend(win: Windowing, rows: seq<Row>)
    requires Monotone(win) && Ascending(rows)
    ensures
      var runs := Runs(win, rows);
      forall i, j :: 0 <= i < j < |runs| ==> win(runs[i][0].time) < win(runs[j][0].time)
  {
    if |rows| > 1 {
      var n := |rows| - 1;
      RunsAscend(win, rows[..n]);
      RunsEnds(win, rows[..n]);
      assert win(rows[n - 1].time) <= win(rows[n].time);
    }
  }

  lemma {:induction false} ExtendLast(runs: seq<seq<Row>>, row: Row)
    requires runs != []
    ensures Flatten(WithLast(runs, row)) == Flatten(runs) + [row]
  {
    var m := |runs| - 1;
    var init, last := runs[..m], runs[m];
    assert runs == init + [last];
    FlattenAppend(init, [last]);
    FlattenAppend(init, [last + [row]]);
    FlattenOne(last);
    FlattenOne(last + [row]);
  }

  /** Glues two lists of runs, joining the runs that meet when `join` holds. */
  function Glue(a: seq<seq<Row>>, b: seq<seq<Row>>, join: bool): seq<seq<Row>> {
    if join && a != [] && b != [] then a[..|a| - 1] + [a[|a| - 1] + b[0]] + b[1..]
    else a + b
  }

  /** The runs after one more row, which continues the last window or opens a new one. */
  function Grow(runs: seq<seq<Row>>, continues: bool, row: Row): seq<seq<Row>>
    requires continues ==> runs != []
  {
    if continues then WithLast(runs, row) else runs + [[row]]
  }

  predicate Continues(win: Windowing, rows: seq<Row>, row: Row) {
    rows != [] && win(rows[|rows| - 1].time) == win(row.time)
  }

  lemma {:induction false} RunsSnoc(win: Windowing, rows: seq<Row>, row: Row)
    ensures Runs(win, rows + [row]) == Grow(Runs(win, rows), Continues(win, rows, row), row)
  {
    assert (rows + [row])[..|rows|] == rows;
  }

  /** The runs of a concatenation are those of its halves, joined if the seam lies inside a window. */
  lemma {:induction false} RunsConcat(win: Windowing, a: seq<Row>, b: seq<Row>)
    requires a != [] && b != []
    ensures Runs(win, a + b) == Glue(Runs(win, a), Runs(win, b), Continues(win, a, b[0]))
    decreases |b|
  {
    var init, row := b[..|b| - 1], b[|b| - 1];
    var whole := a + init;
    var ra, ri, rw := Runs(win, a), Runs(win, init), Runs(win, whole);
    assert Runs(win, a + b) == Grow(rw, Continues(win, whole, row), row) by {
      RunsSnoc(win, whole, row);
      assert a + b == whole + [row];
    }
    assert Runs(win, b) == Grow(ri, Continues(win, init, row), row) by {
      RunsSnoc(win, init, row);
      assert b == init + [row];
    }
    var join := Continues(win, a, b[0]);
    if init == [] {
      assert whole == a;
      assert Runs(win, b) == [[row]];
      GlueOne(ra, row, join);
    } else {
      RunsConcat(win, a, init);
      GlueGrow(ra, ri, join, Continues(win, init, row), row);
    }
  }

  lemma {:induction false} GlueOne(a: seq<seq<Row>>, row: Row, join: bool)
    requires a != []
    ensures Grow(a, join, row) == Glue(a, [[row]], join)
  {
  }

  lemma {:induction false} GlueGrow(a: seq<seq<Row>>, b: seq<seq<Row>>, join: bool, continues: bool, row: Row)
    requires a != [] && b != []
    ensures Glue(a, b, join) != []
    ensures Grow(Glue(a, b, join), continues, row) == Glue(a, Grow(b, continues, row), join)
  {
    var g, g' := Grow(Glue(a, b, join), continues, row), Glue(a, Grow(b, continues, row), join);
    assert |g| == |g'|;
    assert forall k :: 0 <= k < |g| ==> g[k] == g'[k];
  }

  predicate IsIndex(rows: seq<Row>, starts: seq<nat>) {
    && (rows != [] ==> starts != [] && starts[0] == 0)
    && (forall k :: 0 <= k < |starts| ==> starts[k] < |rows|)
    && forall k :: 0 < k < |starts| ==> starts[k - 1] < starts[k]
  }

  function EndOf(rows: seq<Row>, starts: seq<nat>, k: nat): nat
    requires k < |starts|
  {
    if k + 1 < |starts| then starts[k + 1] else |rows|
  }

  /** The parts of a record that begin at the given row numbers. */
  function Slices(rows: seq<Row>, starts: seq<nat>): (parts: seq<seq<Row>>)
    requires IsIndex(rows, starts)
    ensures |parts| == |starts| && forall k :: 0 <= k < |parts| ==> parts[k] != []
  {
    seq(|starts|, k requires 0 <= k < |starts| => rows[starts[k]..EndOf(rows, starts, k)])
  }

  lemma {:induction false} SliceHead(rows: seq<Row>, starts: seq<nat>, k: nat)
    requires IsIndex(rows, starts) && k < |starts|
    ensures Slices(rows, starts)[k][0] == rows[starts[k]]
  {
    assert starts[k] < EndOf(rows, starts, k) <= |rows|;
  }

  /** Row numbers at which a new window begins. */
  function Starts(win: Windowing, rows: seq<Row>): (starts: seq<nat>)
    ensures IsIndex(rows, starts)
  {
    if rows == [] then []
    else
      var n := |rows| - 1;
      var starts := Starts(win, rows[..n]);
      if n > 0 && win(rows[n - 1].time) == win(rows[n].time) then starts else starts + [n]
  }

  lemma {:induction false} StartsCutRuns(win: Windowing, rows: seq<Row>)
    ensures Slices(rows, Starts(win, rows)) == Runs(win, rows)
  {
    if rows != [] {
      var n := |rows| - 1;
      StartsCutRuns(win, rows[..n]);
      SlicesExtend(rows, Starts(win, rows[..n]));
    }
  }

  lemma {:induction false} SlicesExtend(rows: seq<Row>, starts: seq<nat>)
    requires rows != [] && IsIndex(rows[..|rows| - 1], starts)
    ensures var n := |rows| - 1; Slices(rows, starts + [n]) == Slices(rows[..n], starts) + [[rows[n]]]
    ensures |rows| > 1 ==>
      var n := |rows| - 1;
      Slices(rows, starts) == WithLast(Slices(rows[..n], starts), rows[n])
  {
    var n := |rows| - 1;
    var before := Slices(rows[..n], starts);
    var longer := Slices(rows, starts + [n]);
    assert longer[|starts|] == [rows[n]];
    assert forall k :: 0 <= k < |starts| ==> longer[k] == before[k];
    if n > 0 {
      var same := Slices(rows, starts);
      var m := |starts| - 1;
      assert same[m] == before[m] + [rows[n]];
      assert forall k :: 0 <= k < m ==> same[k] == before[k];
    }
  }

  const MAX_INDEX := 0x1_0000

  /** The cursor keeps its window starts as 16-bit numbers. */
  function Wrapped(starts: seq<nat>): seq<nat> {
    seq(|starts|, k requires 0 <= k < |starts| => starts[k] % MAX_INDEX)
  }

  /** The window index of one record, as the cursor computes it row by row. */
  method GetIntervalIndex(interval: nat, record: Record) returns (index: seq<nat>)
    requires record != []
    ensures index == Wrapped(Starts(Aligned(interval), record))
  {
    if interval == 0 {
      OneRun(record);
      return [0];
    }
    index := [];
    var startTime, endTime := 0, 0;
    for i := 0 to |record|
      invariant index == Wrapped(Starts(Aligned(interval), record[..i]))
      invariant i > 0 ==> startTime == WindowStart(interval, record[i - 1].time) && endTime == startTime + interval
    {
      var t := record[i].time;
      assert record[..i + 1][..i] == record[..i];
      if i > 0 {
        InWindow(interval, record[i - 1].time, t);
      }
      if i == 0 || t >= endTime || t < startTime {
        index := index + [i % MAX_INDEX];
        startTime := WindowStart(interval, t);
        endTime := startTime + interval;
      }
    }
    assert record[..|record|] == record;
  }

  lemma {:induction false} OneRun(rows: seq<Row>)
    requires rows != []
    ensures Starts(Aligned(0), rows) == [0]
  {
    var n := |rows| - 1;
    if n > 0 {
      OneRun(rows[..n]);
    }
  }

  /** The 16-bit index is the real one exactly when the last window begins below row 65536. */
  lemma {:induction false} WrapIsHarmless(win: Windowing, rows: seq<Row>)
    requires rows != []
    ensures Wrapped(Starts(win, rows)) == Starts(win, rows)
            <==> var s := Starts(win, rows); s[|s| - 1] < 65536
    ensures
      var s, w := Starts(win, rows), Wrapped(Starts(win, rows));
      |w| == |s| && forall k :: 0 <= k < |s| ==> w[k] < 65536 && (s[k] - w[k]) % 65536 == 0
  {
    var s := Starts(win, rows);
    IndexAscends(rows, s);
    assert Wrapped(s)[|s| - 1] < MAX_INDEX;
    if s[|s| - 1] < MAX_INDEX {
      assert forall k :: 0 <= k < |s| ==> s[k] < MAX_INDEX;
    }
  }

  lemma {:induction false} IndexAscends(rows: seq<Row>, starts: seq<nat>)
    requires IsIndex(rows, starts)
    ensures forall i, j :: 0 <= i < j < |starts| ==> starts[i] < starts[j]
  {
    if |starts| > 1 {
      var init := starts[..|starts| - 1];
      IndexAscends(rows, init);
      assert starts[|init| - 1] < starts[|init|];
      assert forall i :: 0 <= i < |init| ==> starts[i] == init[i];
    }
  }
}
