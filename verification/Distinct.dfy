/** distinct: every value of a window once, with the time it first appeared. */
module Distinct {
  import opened Records
  import opened Windows
  import opened Aggregates
  import opened Grouping
  import opened Sorting
  import opened TopN

  // ----- what is to be reported

  predicate Occurs(points: seq<PointItem>, value: int) {
    exists k :: 0 <= k < |points| && points[k].value == value
  }

  /** The first appearance of each value, in order of appearance. */
  function Firsts(points: seq<PointItem>): seq<PointItem> {
    if points == [] then []
    else
      var n := |points| - 1;
      Firsts(points[..n]) + if Occurs(points[..n], points[n].value) then [] else [points[n]]
  }

  /** The report for a window: first appearances ordered by time, then value. */
  function Report(col: nat, window: seq<Row>): seq<PointItem> {
    Sort(CmpByTimeBottom, Firsts(Points(window, col)))
  }

  /** `p` is in the window and no earlier point has its value. */
  ghost predicate FirstSeen(points: seq<PointItem>, p: PointItem) {
    exists k :: 0 <= k < |points| && points[k] == p && forall j :: 0 <= j < k ==> points[j].value != p.value
  }

  ghost predicate OnlyFirsts(points: seq<PointItem>, out: seq<PointItem>) {
    forall p :: p in out <==> FirstSeen(points, p)
  }

  ghost predicate Covers(points: seq<PointItem>, out: seq<PointItem>) {
    forall k :: 0 <= k < |points| ==> Occurs(out, points[k].value)
  }

  ghost predicate NoValueTwice(out: seq<PointItem>) {
    forall i, j :: 0 <= i < j < |out| ==> out[i].value != out[j].value
  }

  lemma {:induction false} FirstsMeaning(points: seq<PointItem>)
    ensures OnlyFirsts(points, Firsts(points)) && Covers(points, Firsts(points)) && NoValueTwice(Firsts(points))
  {
    if points != [] {
      var before, last := points[..|points| - 1], points[|points| - 1];
      assert points == before + [last];
      FirstsMeaning(before);
      OccursNext(before, last);
      OnlyFirstsNext(before, last, Firsts(before));
      CoversNext(before, last, Firsts(before));
    }
  }

  lemma {:induction false} FirstSeenNext(before: seq<PointItem>, last: PointItem, p: PointItem)
    ensures FirstSeen(before + [last], p) <==> FirstSeen(before, p) || (p == last && !Occurs(before, last.value))
  {
    var points := before + [last];
    if FirstSeen(before, p) {
      var k :| 0 <= k < |before| && before[k] == p && forall j :: 0 <= j < k ==> before[j].value != p.value;
      assert points[k] == p && forall j :: 0 <= j < k ==> points[j] == before[j];
    }
    if p == last && !Occurs(before, last.value) {
      assert points[|before|] == p && forall j :: 0 <= j < |before| ==> points[j] == before[j];
    }
    if FirstSeen(points, p) {
      var k :| 0 <= k < |points| && points[k] == p && forall j :: 0 <= j < k ==> points[j].value != p.value;
      assert forall j :: 0 <= j < |before| ==> points[j] == before[j];
      assert k < |before| ==> before[k] == p;
    }
  }

  lemma {:induction false} OnlyFirstsNext(before: seq<PointItem>, last: PointItem, firsts: seq<PointItem>)
    requires OnlyFirsts(before, firsts) && NoValueTwice(firsts)
    ensures
      var next := firsts + if Occurs(before, last.value) then [] else [last];
      OnlyFirsts(before + [last], next) && NoValueTwice(next)
  {
    var next := firsts + if Occurs(before, last.value) then [] else [last];
    forall p
      ensures p in next <==> FirstSeen(before + [last], p)
    {
      FirstSeenNext(before, last, p);
    }
    forall i | 0 <= i < |firsts|
      ensures Occurs(before, firsts[i].value)
    {
      assert firsts[i] in firsts;
      assert FirstSeen(before, firsts[i]);
    }
  }

  lemma {:induction false} CoversNext(before: seq<PointItem>, last: PointItem, firsts: seq<PointItem>)
    requires Covers(before, firsts)
    ensures Covers(before + [last], firsts + if Occurs(before, last.value) then [] else [last])
  {
    var points := before + [last];
    var next := firsts + if Occurs(before, last.value) then [] else [last];
    forall k | 0 <= k < |points|
      ensures Occurs(next, points[k].value)
    {
      if k < |before| || Occurs(before, last.value) {
        var m := k;
        if k == |before| {
          m :| 0 <= m < |before| && before[m].value == last.value;
        }
        assert Occurs(firsts, before[m].value);
        var i :| 0 <= i < |firsts| && firsts[i].value == before[m].value;
        assert next[i] == firsts[i];
      } else {
        assert next[|firsts|] == last;
      }
    }
  }

  /** Times never fall, and at equal times values rise. */
  ghost predicate InOrder(out: seq<PointItem>) {
    forall i, j :: 0 <= i < j < |out| ==>
      out[i].time < out[j].time || (out[i].time == out[j].time && out[i].value < out[j].value)
  }

  /** Each value of the window is reported once, with the time of its first appearance, in order. */
  lemma {:induction false} ReportMeaning(col: nat, window: seq<Row>)
    ensures
      var points, out := Points(window, col), Report(col, window);
      && Sorted(CmpByTimeBottom, out) && OnlyFirsts(points, out) && Covers(points, out) && NoValueTwice(out)
      && InOrder(out)
  {
    var points, out := Points(window, col), Report(col, window);
    ComparisonsAreOrders();
    SortSorted(CmpByTimeBottom, Firsts(points));
    FirstsMeaning(points);
    SameMembers(Firsts(points), out);
    forall k | 0 <= k < |points|
      ensures Occurs(out, points[k].value)
    {
      SameValues(Firsts(points), out, points[k].value);
    }
    forall i, j | 0 <= i < j < |out|
      ensures out[i].value != out[j].value
    {
      NoRepeat(Firsts(points), out, i, j);
    }
  }

  /** In an ascending window the first appearance of a value is its earliest. */
  lemma {:induction false} FirstIsEarliest(points: seq<PointItem>, p: PointItem, k: nat)
    requires forall i, j :: 0 <= i < j < |points| ==> points[i].time <= points[j].time
    requires FirstSeen(points, p) && k < |points| && points[k].value == p.value
    ensures p.time <= points[k].time
  {
  }

  lemma {:induction false} SameMembers(a: seq<PointItem>, b: seq<PointItem>)
    requires multiset(a) == multiset(b)
    ensures forall p :: p in a <==> p in b
  {
    forall p
      ensures p in a <==> p in b
    {
      assert p in a <==> p in multiset(a);
      assert p in b <==> p in multiset(b);
    }
  }

  lemma {:induction false} SameValues(a: seq<PointItem>, b: seq<PointItem>, v: int)
    requires multiset(a) == multiset(b) && Occurs(a, v)
    ensures Occurs(b, v)
  {
    SameMembers(a, b);
    var k :| 0 <= k < |a| && a[k].value == v;
    assert a[k] in b;
  }

  lemma {:induction false} NoRepeat(a: seq<PointItem>, b: seq<PointItem>, i: nat, j: nat)
    requires multiset(a) == multiset(b) && i < j < |b| && NoValueTwice(a)
    ensures b[i].value != b[j].value
  {
    SameMembers(a, b);
    assert b[i] in a && b[j] in a;
    var k :| 0 <= k < |a| && a[k] == b[i];
    var m :| 0 <= m < |a| && a[m] == b[j];
    Once(a, k);
    Twice(b, i, j);
  }

  lemma {:induction false} Twice(s: seq<PointItem>, i: nat, j: nat)
    requires i < j < |s|
    ensures s[i] == s[j] ==> multiset(s)[s[i]] >= 2
  {
    assert s == s[..j] + [s[j]] + s[j + 1..];
    assert s[..j][i] == s[i];
    assert s[i] in multiset(s[..j]);
  }

  lemma {:induction false} Once(s: seq<PointItem>, k: nat)
    requires k < |s| && NoValueTwice(s)
    ensures multiset(s)[s[k]] == 1
  {
    assert s == s[..k] + [s[k]] + s[k + 1..];
    assert s[k] !in s[..k] && s[k] !in s[k + 1..];
  }

  // ----- the item and the reducer

  class DistinctItem {
    var m: set<int>  // values met in the window so far
    var items: seq<PointItem>
    ghost var seen: seq<PointItem>

    constructor ()
      ensures Valid() && seen == []
    {
      m, items, seen := {}, [], [];
    }

    ghost predicate Valid()
      reads this
    {
      && items == Firsts(seen)
      && forall v :: v in m <==> Occurs(seen, v)
    }

    method AppendItem(points: seq<PointItem>)
      requires Valid()
      modifies this
      ensures Valid() && seen == old(seen) + points
    {
      for i := 0 to |points|
        invariant Valid() && seen == old(seen) + points[..i]
      {
        var p := points[i];
        OccursNext(seen, p);
        if p.value !in m {
          m := m + {p.value};
          items := items + [p];
        }
        seen := seen + [p];
        TakeNext(points, i);
      }
      assert points[..|points|] == points;
    }

    method Flush() returns (points: seq<PointItem>)
      requires Valid()
      modifies this
      ensures Valid() && seen == [] && points == Sort(CmpByTimeBottom, old(Firsts(seen)))
    {
      points := Sort(CmpByTimeBottom, items);
      m, items, seen := {}, [], [];
    }
  }

  lemma {:induction false} OccursNext(points: seq<PointItem>, p: PointItem)
    ensures forall v :: Occurs(points + [p], v) <==> Occurs(points, v) || v == p.value
    ensures Firsts(points + [p]) == Firsts(points) + if Occurs(points, p.value) then [] else [p]
  {
    assert (points + [p])[..|points|] == points;
    forall v
      ensures Occurs(points + [p], v) <==> Occurs(points, v) || v == p.value
    {
      if Occurs(points, v) {
        var k :| 0 <= k < |points| && points[k].value == v;
        assert (points + [p])[k].value == v;
      }
      assert (points + [p])[|points|] == p;
    }
  }

  /** The reports of a list of windows, one after the other. */
  function ReportAll(col: nat, windows: seq<seq<Row>>): seq<PointItem> {
    if windows == [] then [] else Report(col, windows[0]) + ReportAll(col, windows[1..])
  }

  lemma {:induction false} ReportAllConcat(col: nat, a: seq<seq<Row>>, b: seq<seq<Row>>)
    ensures ReportAll(col, a + b) == ReportAll(col, a) + ReportAll(col, b)
  {
    if a == [] {
      assert a + b == b;
    } else {
      assert (a + b)[1..] == a[1..] + b;
      ReportAllConcat(col, a[1..], b);
      Associate(Report(col, a[0]), ReportAll(col, a[1..]), ReportAll(col, b));
    }
  }

  lemma {:induction false} ReportOne(col: nat, window: seq<Row>)
    ensures ReportAll(col, [window]) == Report(col, window)
  {
    assert [window][1..] == [];
  }

  /** The points of rows of a dense column, one for each row. */
  function DensePoints(rows: seq<Row>, col: nat): (points: seq<PointItem>)
    requires Dense(rows, col)
    ensures |points| == |rows|
  {
    seq(|rows|, k requires 0 <= k < |rows| => PointItem(rows[k].time, Cell(rows[k], col).value))
  }

  lemma {:induction false} DenseIsPoints(rows: seq<Row>, col: nat)
    requires Dense(rows, col)
    ensures DensePoints(rows, col) == Points(rows, col)
  {
    if rows != [] {
      var n := |rows| - 1;
      DenseIsPoints(rows[..n], col);
      assert DensePoints(rows, col)
          == DensePoints(rows[..n], col) + [PointItem(rows[n].time, Cell(rows[n], col).value)];
    }
  }

  class DistinctReducer {
    const col: nat
    const buf: DistinctItem
    ghost var carried: seq<Row>

    constructor (col: nat, buf: DistinctItem)
      requires buf.Valid() && buf.seen == []
      ensures this.col == col && this.buf == buf && Valid() && carried == []
    {
      this.col, this.buf, carried := col, buf, [];
    }

    ghost predicate Valid()
      reads this, buf
    {
      buf.Valid() && buf.seen == Points(carried, col)
    }

    /** Values are addressed by row number, so the column must have no nulls. */
    method AggregateWindow(record: Record, start: nat, end: nat, open: bool) returns (points: seq<PointItem>)
      requires Valid() && start <= end <= |record| && Dense(record, col)
      modifies this, buf
      ensures Valid()
      ensures
        var window := old(carried) + record[start..end];
        if open then carried == window && points == [] else carried == [] && points == Report(col, window)
    {
      var part := record[start..end];
      PointsConcat(carried, part, col);
      DenseIsPoints(part, col);
      buf.AppendItem(DensePoints(part, col));
      if open {
        points := [];
        carried := carried + part;
      } else {
        points := buf.Flush();
        carried := [];
      }
    }

    method Aggregate(record: Record, index: seq<nat>, sameWindow: bool) returns (points: seq<PointItem>)
      requires Valid() && record != [] && IsIndex(record, index) && Dense(record, col)
      modifies this, buf
      ensures Valid()
      ensures
        var windows := JoinFirst(old(carried), Slices(record, index));
        carried == StillOpen(windows, sameWindow) && points == ReportAll(col, Closed(windows, sameWindow))
    {
      ghost var windows := JoinFirst(carried, Slices(record, index));
      points := [];
      for i := 0 to |index|
        invariant Valid()
        invariant carried
               == if i == 0 then old(carried) else if i == |index| then StillOpen(windows, sameWindow) else []
        invariant points == ReportAll(col, if i == |index| then Closed(windows, sameWindow) else windows[..i])
      {
        ghost var before := carried;
        var end := EndOf(record, index, i);
        var more := AggregateWindow(record, index[i], end, i + 1 == |index| && sameWindow);
        assert windows[i] == before + record[index[i]..end];
        ReportAllNext(col, windows, i);
        points := points + more;
      }
    }
  }

  lemma {:induction false} ReportAllNext(col: nat, windows: seq<seq<Row>>, i: nat)
    requires i < |windows|
    ensures ReportAll(col, windows[..i + 1]) == ReportAll(col, windows[..i]) + Report(col, windows[i])
    ensures i + 1 == |windows| ==> windows[..i + 1] == windows
  {
    TakeNext(windows, i);
    ReportAllConcat(col, windows[..i], [windows[i]]);
    ReportOne(col, windows[i]);
  }

  /** A whole series through the cursor: each window the cursor forms is reported once, and no value
      of one window leaks into the next. */
  method DrainDistinct(interval: nat, reducer: DistinctReducer, records: seq<Record>) returns (points: seq<PointItem>)
    requires reducer.Valid() && reducer.carried == []
    requires forall k :: 0 <= k < |records| ==> |records[k]| <= MAX_INDEX && Dense(records[k], reducer.col)
    modifies reducer, reducer.buf
    ensures points == ReportAll(reducer.col, Groups(Aligned(interval), [], records))
    ensures Misjudgements(Aligned(interval), records) == 0 ==>
      points == ReportAll(reducer.col, Runs(Aligned(interval), Flatten(records)))
  {
    ghost var win := Aligned(interval);
    ghost var done, total := [], Groups(win, [], records);
    points := [];
    SplitsStart(win, records);
    for i := 0 to |records|
      invariant reducer.Valid() && points == ReportAll(reducer.col, done)
      invariant Splits(win, total, done, reducer.carried, records[i..])
    {
      assert records[i..] == [records[i]] + records[i + 1..];
      if records[i] == [] {
        SplitsSkip(win, total, done, reducer.carried, records[i + 1..]);
        continue;
      }
      var same := Peek(interval, records[i], records[i + 1..]);
      var index := GetIntervalIndex(interval, records[i]);
      ghost var before := reducer.carried;
      IndexIsRight(interval, records[i]);
      var more := reducer.Aggregate(records[i], index, same);
      ghost var closed := Closed(JoinFirst(before, Runs(win, records[i])), same);
      GroupsGoOn(win, total, done, before, records[i], records[i + 1..]);
      ReportAllConcat(reducer.col, done, closed);
      points, done := points + more, done + closed;
    }
    SplitsEnd(win, total, done, reducer.carried, records[|records|..]);
    GroupsAreRuns(win, records);
  }
}
