/** The downsampling grid: reduced rows are moved to the start of their window and every window
    without rows gets a null row, so that all fields of a series end up with the same times. */
module Grid {
  import opened Records
  import opened Windows

  /** A reduced row: its time and one optional value for each output column. */
  datatype AggRow = AggRow(time: int, values: seq<Option<int>>)

  function NullRow(width: nat, time: int): AggRow {
    AggRow(time, seq(width, _ => None))
  }

  /** A null for each column. */
  ghost predicate AllNull(width: nat, values: seq<Option<int>>) {
    |values| == width && forall c :: 0 <= c < width ==> values[c] == None
  }

  /** Number of the window that holds `t`: window q is [interval * q, interval * (q + 1)). */
  function WindowNumber(interval: nat, t: int): int
    requires interval > 0
  {
    t / interval
  }

  lemma {:induction false} WindowStartIsMultiple(interval: nat, t: int)
    requires interval > 0
    ensures WindowStart(interval, t) == interval * WindowNumber(interval, t)
  {
  }

  /** `n` null rows after `from`, one interval apart. */
  function Nulls(interval: nat, width: nat, from: int, n: nat): (rows: seq<AggRow>)
    ensures |rows| == n && forall k :: 0 <= k < n ==> rows[k] == NullRow(width, from + interval * (k + 1))
  {
    if n == 0 then [] else Nulls(interval, width, from, n - 1) + [NullRow(width, from + interval * n)]
  }

  /** The null rows strictly between two times. */
  function Gap(interval: nat, width: nat, from: int, to: int): seq<AggRow>
    requires interval > 0
  {
    var step := (to - from) / interval;
    Nulls(interval, width, from, if step > 1 then step - 1 else 0)
  }

  /** Each row moved to its window start and preceded by the null rows it needs. */
  function Fill(interval: nat, width: nat, from: int, rows: seq<AggRow>): (filled: seq<AggRow>)
    requires interval > 0
    ensures |filled| >= |rows|
    decreases |rows|
  {
    if rows == [] then []
    else
      var end := WindowStart(interval, rows[0].time);
      Gap(interval, width, from, end) + [rows[0].(time := end)] + Fill(interval, width, end, rows[1..])
  }

  function LastTime(rows: seq<AggRow>, from: int): int {
    if rows == [] then from else rows[|rows| - 1].time
  }

  /** The first row may not lie before the shard. */
  function Clamp(rows: seq<AggRow>, shardStart: int): (r: seq<AggRow>)
    ensures |r| == |rows|
  {
    if rows != [] && rows[0].time < shardStart then [rows[0].(time := shardStart)] + rows[1..] else rows
  }

  /** One chunk on its way out. */
  function Padded(
    interval: nat, width: nat, rows: seq<AggRow>, seriesStart: int, seriesEnd: int, shardStart: int, last: bool
  ): seq<AggRow>
    requires interval > 0
  {
    var filled := Fill(interval, width, seriesStart, rows);
    Clamp(filled + if last then Gap(interval, width, LastTime(filled, seriesStart), seriesEnd) else [], shardStart)
  }

  /** The rows at their window starts, with the null rows of the gaps between them. */
  method FillRows(interval: nat, width: nat, rows: seq<AggRow>, seriesStart: int) returns (rec: seq<AggRow>, from: int)
    requires interval > 0 && rows != []
    ensures rec == Fill(interval, width, seriesStart, rows)
    ensures rec != [] && from == rec[|rec| - 1].time
  {
    rec, from := [], seriesStart;
    ghost var all := Fill(interval, width, seriesStart, rows);
    for i := 0 to |rows|
      invariant i > 0 ==> rec != [] && rec[|rec| - 1].time == from
      invariant rec + Fill(interval, width, from, rows[i..]) == all
    {
      var end := WindowStart(interval, rows[i].time);
      var nulls := AppendNilRows(interval, width, from, end);
      FillHead(interval, width, from, rows, i);
      FourParts(rec, nulls, [rows[i].(time := end)], Fill(interval, width, end, rows[i + 1..]));
      rec := rec + nulls + [rows[i].(time := end)];
      from := end;
    }
    assert rows[|rows|..] == [] && rec + [] == rec;
  }

  /** AppendRecWithNilRows, loop by loop. */
  method AppendRecWithNilRows(
    interval: nat, width: nat, rows: seq<AggRow>, seriesStart: int, seriesEnd: int, shardStart: int, last: bool
  )
    returns (rec: seq<AggRow>)
    requires interval > 0 && rows != []
    ensures rec == Padded(interval, width, rows, seriesStart, seriesEnd, shardStart, last) && rec != []
  {
    var from;
    rec, from := FillRows(interval, width, rows, seriesStart);
    if last {
      var nulls := AppendNilRows(interval, width, from, seriesEnd);
      rec := rec + nulls;
    }
    if rec[0].time < shardStart {
      rec := [rec[0].(time := shardStart)] + rec[1..];
    }
  }

  lemma {:induction false} FillHead(interval: nat, width: nat, from: int, rows: seq<AggRow>, i: nat)
    requires interval > 0 && i < |rows|
    ensures
      var end := WindowStart(interval, rows[i].time);
      Fill(interval, width, from, rows[i..])
      == Gap(interval, width, from, end) + [rows[i].(time := end)] + Fill(interval, width, end, rows[i + 1..])
  {
    assert rows[i..][0] == rows[i] && rows[i..][1..] == rows[i + 1..];
  }

  lemma {:induction false} FourParts<T>(a: seq<T>, b: seq<T>, c: seq<T>, d: seq<T>)
    ensures a + (b + c + d) == (a + b + c) + d
  {
  }

  method AppendNilRows(interval: nat, width: nat, from: int, end: int) returns (nulls: seq<AggRow>)
    requires interval > 0
    ensures nulls == Gap(interval, width, from, end)
    ensures forall k :: 0 <= k < |nulls| ==>
      nulls[k].time == from + interval * (k + 1) && AllNull(width, nulls[k].values)
  {
    nulls := [];
    var step := (end - from) / interval;
    var j := 1;
    while j < step
      invariant j == 1 || 1 < j <= step
      invariant nulls == Nulls(interval, width, from, j - 1)
    {
      nulls := nulls + [NullRow(width, from + interval * j)];
      j := j + 1;
    }
  }

  // ----- what the grid promises

  /** `row` is right for window `q`: the reduced row of that window if there is one, else nulls. */
  ghost predicate OnGrid(interval: nat, width: nat, q: int, rows: seq<AggRow>, row: AggRow)
    requires interval > 0
  {
    && row.time == interval * q
    && (forall j :: 0 <= j < |rows| && WindowNumber(interval, rows[j].time) == q ==> row.values == rows[j].values)
    && ((forall j :: 0 <= j < |rows| ==> WindowNumber(interval, rows[j].time) != q) ==>
        AllNull(width, row.values))
  }

  /** `out` has exactly one row, and the right one, for each of the windows after `a` up to `b`. */
  ghost predicate Covers(interval: nat, width: nat, a: int, b: int, rows: seq<AggRow>, out: seq<AggRow>)
    requires interval > 0
  {
    && |out| == b - a
    && forall k :: 0 <= k < |out| ==> OnGrid(interval, width, a + 1 + k, rows, out[k])
  }

  /** Reduced rows lie in ever later windows, all after window `a`. */
  ghost predicate Rising(interval: nat, a: int, rows: seq<AggRow>)
    requires interval > 0
  {
    && (forall j :: 0 <= j < |rows| ==> a < WindowNumber(interval, rows[j].time))
    && forall i, j :: 0 <= i < j < |rows| ==>
        WindowNumber(interval, rows[i].time) < WindowNumber(interval, rows[j].time)
  }

  function LastWindow(interval: nat, a: int, rows: seq<AggRow>): int
    requires interval > 0
  {
    if rows == [] then a else WindowNumber(interval, rows[|rows| - 1].time)
  }

  lemma {:induction false} ScaledDifference(interval: nat, a: int, b: int)
    requires interval > 0
    ensures (interval * b - interval * a) / interval == b - a
    ensures interval * b - interval * a == interval * (b - a)
  {
    assert interval * b - interval * a == interval * (b - a);
    MulDiv(interval, b - a);
  }

  lemma {:induction false} MulDiv(interval: nat, d: int)
    requires interval > 0
    ensures (interval * d) / interval == d
  {
    var q := (interval * d) / interval;
    assert interval * d == interval * q + (interval * d) % interval;
    MulMonotone(interval, d, q);
    MulMonotone(interval, q, d);
  }

  /** Between two aligned times the gap is one null row for each window in between. */
  lemma {:induction false} GapCovers(interval: nat, width: nat, a: int, b: int)
    requires interval > 0 && a < b
    ensures
      var gap := Gap(interval, width, interval * a, interval * b);
      |gap| == b - 1 - a && forall k :: 0 <= k < |gap| ==> gap[k] == NullRow(width, interval * (a + 1 + k))
  {
    ScaledDifference(interval, a, b);
    var gap := Gap(interval, width, interval * a, interval * b);
    forall k | 0 <= k < |gap|
      ensures gap[k] == NullRow(width, interval * (a + 1 + k))
    {
      assert interval * a + interval * (k + 1) == interval * (a + 1 + k);
    }
  }

  lemma {:induction false} FillCovers(interval: nat, width: nat, a: int, rows: seq<AggRow>)
    requires interval > 0 && Rising(interval, a, rows)
    ensures Covers(interval, width, a, LastWindow(interval, a, rows), rows, Fill(interval, width, interval * a, rows))
    decreases |rows|
  {
    if rows != [] {
      var q, rest := WindowNumber(interval, rows[0].time), rows[1..];
      WindowStartIsMultiple(interval, rows[0].time);
      FillCovers(interval, width, q, rest);
      GapCovers(interval, width, a, q);
      var gap := Gap(interval, width, interval * a, interval * q);
      var tail := Fill(interval, width, interval * q, rest);
      HeadCovers(interval, width, a, q, rows, gap, tail);
    }
  }

  lemma {:induction false} HeadCovers(
    interval: nat, width: nat, a: int, q: int, rows: seq<AggRow>, gap: seq<AggRow>, tail: seq<AggRow>
  )
    requires interval > 0 && rows != [] && Rising(interval, a, rows) && q == WindowNumber(interval, rows[0].time)
    requires |gap| == q - 1 - a && forall k :: 0 <= k < |gap| ==> gap[k] == NullRow(width, interval * (a + 1 + k))
    requires Covers(interval, width, q, LastWindow(interval, q, rows[1..]), rows[1..], tail)
    ensures Covers(
        interval, width, a, LastWindow(interval, a, rows), rows, gap + [rows[0].(time := interval * q)] + tail)
  {
    var out := gap + [rows[0].(time := interval * q)] + tail;
    assert |out| == LastWindow(interval, a, rows) - a;
    forall k | 0 <= k < |out|
      ensures OnGrid(interval, width, a + 1 + k, rows, out[k])
    {
      if k < |gap| {
        assert out[k] == gap[k];
      } else if k > |gap| {
        assert out[k] == tail[k - |gap| - 1];
        assert OnGrid(interval, width, q + 1 + (k - |gap| - 1), rows[1..], out[k]);
        assert forall j :: 1 <= j < |rows| ==> rows[j] == rows[1..][j - 1];
      }
    }
  }

  /** The whole of a series on the grid: one row for each window from `lo` to `hi`, at the window's start
      (the first one not before the shard), holding the window's reduced row or nulls. */
  ghost predicate WholeGrid(
    interval: nat, width: nat, lo: int, hi: int, shardStart: int, rows: seq<AggRow>, out: seq<AggRow>
  )
    requires interval > 0
  {
    && |out| == hi - lo + 1
    && forall k :: 0 <= k < |out| ==>
         && out[k].time == GridTime(interval, lo, shardStart, k)
         && OnGrid(interval, width, lo + k, rows, out[k].(time := interval * (lo + k)))
  }

  function GridTime(interval: nat, lo: int, shardStart: int, k: nat): int {
    if k == 0 && interval * lo < shardStart then shardStart else interval * (lo + k)
  }

  /** The reduced rows of a series lie in the windows `lo` to `hi`, and the shard begins no later than window `lo`
      ends. */
  ghost predicate Fits(interval: nat, lo: int, hi: int, shardStart: int, rows: seq<AggRow>)
    requires interval > 0
  {
    && rows != [] && Rising(interval, lo - 1, rows) && LastWindow(interval, lo - 1, rows) <= hi
    && shardStart < interval * (lo + 1)
  }

  /** All rows at once, before the first row is clamped. */
  function Raw(interval: nat, width: nat, from: int, rows: seq<AggRow>, seriesEnd: int): seq<AggRow>
    requires interval > 0
  {
    var filled := Fill(interval, width, from, rows);
    filled + Gap(interval, width, LastTime(filled, from), seriesEnd)
  }

  lemma {:induction false} RawCovers(interval: nat, width: nat, a: int, hi: int, rows: seq<AggRow>)
    requires interval > 0 && Rising(interval, a, rows) && LastWindow(interval, a, rows) <= hi
    ensures Covers(interval, width, a, hi, rows, Raw(interval, width, interval * a, rows, interval * (hi + 1)))
  {
    var b := LastWindow(interval, a, rows);
    var filled := Fill(interval, width, interval * a, rows);
    FillCovers(interval, width, a, rows);
    FillEnds(interval, width, a, rows);
    GapCovers(interval, width, b, hi + 1);
    TailCovers(interval, width, a, b, hi, rows, filled, Gap(interval, width, interval * b, interval * (hi + 1)));
  }

  lemma {:induction false} TailCovers(
    interval: nat, width: nat, a: int, b: int, hi: int, rows: seq<AggRow>, filled: seq<AggRow>, tail: seq<AggRow>
  )
    requires interval > 0 && Rising(interval, a, rows) && b == LastWindow(interval, a, rows) <= hi
    requires Covers(interval, width, a, b, rows, filled)
    requires |tail| == hi - b && forall k :: 0 <= k < |tail| ==> tail[k] == NullRow(width, interval * (b + 1 + k))
    ensures Covers(interval, width, a, hi, rows, filled + tail)
  {
    forall k | 0 <= k < |tail|
      ensures OnGrid(interval, width, b + 1 + k, rows, tail[k])
    {
      assert forall j :: 0 <= j < |rows| ==> WindowNumber(interval, rows[j].time) <= b;
    }
    var raw := filled + tail;
    forall k | 0 <= k < |raw|
      ensures OnGrid(interval, width, a + 1 + k, rows, raw[k])
    {
      if k < |filled| {
        assert raw[k] == filled[k];
      } else {
        assert raw[k] == tail[k - |filled|];
        assert OnGrid(interval, width, b + 1 + (k - |filled|), rows, raw[k]);
      }
    }
  }

  /** Padding all rows at once gives the whole grid. */
  lemma {:induction false} PaddedIsGrid(interval: nat, width: nat, lo: int, hi: int, shardStart: int, rows: seq<AggRow>)
    requires interval > 0 && Fits(interval, lo, hi, shardStart, rows)
    ensures WholeGrid(interval, width, lo, hi, shardStart, rows,
                      Padded(interval, width, rows, interval * (lo - 1), interval * (hi + 1), shardStart, true))
  {
    var raw := Raw(interval, width, interval * (lo - 1), rows, interval * (hi + 1));
    RawCovers(interval, width, lo - 1, hi, rows);
    var out := Clamp(raw, shardStart);
    forall k | 0 <= k < |out|
      ensures out[k].time == GridTime(interval, lo, shardStart, k)
      ensures OnGrid(interval, width, lo + k, rows, out[k].(time := interval * (lo + k)))
    {
      assert OnGrid(interval, width, lo - 1 + 1 + k, rows, raw[k]);
      assert k > 0 ==> out[k] == raw[k];
    }
  }

  // ----- sending in chunks

  /** The chunks as sent: each one padded from where the last one ended. */
  function Sent(
    interval: nat, width: nat, chunks: seq<seq<AggRow>>, seriesStart: int, seriesEnd: int, shardStart: int
  ): seq<AggRow>
    requires interval > 0
    decreases |chunks|
  {
    if chunks == [] then []
    else
      var out := Padded(interval, width, chunks[0], seriesStart, seriesEnd, shardStart, |chunks| == 1);
      out + Sent(interval, width, chunks[1..], LastTime(out, seriesStart), seriesEnd, shardStart)
  }

  ghost predicate NonEmpty(chunks: seq<seq<AggRow>>) {
    forall k :: 0 <= k < |chunks| ==> chunks[k] != []
  }

  /** A first chunk of a single row at a clamped window start makes the next chunk measure its gap
      from the shard start, and so lose a window. */
  ghost predicate LosesWindow(interval: nat, lo: int, shardStart: int, chunks: seq<seq<AggRow>>)
    requires interval > 0 && NonEmpty(chunks)
  {
    && |chunks| > 1 && |chunks[0]| == 1
    && WindowNumber(interval, chunks[0][0].time) == lo
    && interval * lo < shardStart
    && WindowNumber(interval, chunks[1][0].time) > lo + 1
  }

  lemma {:induction false} FillConcat(interval: nat, width: nat, from: int, a: seq<AggRow>, b: seq<AggRow>)
    requires interval > 0
    ensures Fill(interval, width, from, a + b)
         == Fill(interval, width, from, a) + Fill(interval, width, LastTime(Fill(interval, width, from, a), from), b)
    decreases |a|
  {
    if a == [] {
      assert a + b == b;
    } else {
      var end := WindowStart(interval, a[0].time);
      var rest := Fill(interval, width, end, a[1..]);
      assert (a + b)[1..] == a[1..] + b;
      FillConcat(interval, width, end, a[1..], b);
      var head := Gap(interval, width, from, end) + [a[0].(time := end)];
      assert LastTime(head + rest, from) == LastTime(rest, end);
      Associate(head, rest, Fill(interval, width, LastTime(rest, end), b));
    }
  }

  /** The last filled row stands at the start of the last row's window. */
  lemma {:induction false} FillEnds(interval: nat, width: nat, a: int, rows: seq<AggRow>)
    requires interval > 0 && Rising(interval, a, rows)
    ensures LastTime(Fill(interval, width, interval * a, rows), interval * a)
         == interval * LastWindow(interval, a, rows)
    ensures rows != [] ==> Fill(interval, width, interval * a, rows)[0].time == interval * (a + 1)
  {
    FillCovers(interval, width, a, rows);
    var filled := Fill(interval, width, interval * a, rows);
    if rows != [] {
      assert OnGrid(interval, width, a + 1, rows, filled[0]);
      assert OnGrid(interval, width, LastWindow(interval, a, rows), rows, filled[|filled| - 1]);
    }
  }

  lemma {:induction false} RawConcat(
    interval: nat, width: nat, from: int, a: seq<AggRow>, b: seq<AggRow>, seriesEnd: int
  )
    requires interval > 0 && b != []
    ensures
      var filled := Fill(interval, width, from, a);
      Raw(interval, width, from, a + b, seriesEnd)
      == filled + Raw(interval, width, LastTime(filled, from), b, seriesEnd)
  {
    FillConcat(interval, width, from, a, b);
    var fa := Fill(interval, width, from, a);
    var fb := Fill(interval, width, LastTime(fa, from), b);
    var tail := Gap(interval, width, LastTime(fb, LastTime(fa, from)), seriesEnd);
    assert LastTime(fa + fb, from) == LastTime(fb, LastTime(fa, from));
    Associate(fa, fb, tail);
  }

  /** Later chunks are never clamped, so chunking them changes nothing. */
  lemma {:induction false} LaterChunks(
    interval: nat, width: nat, a: int, chunks: seq<seq<AggRow>>, seriesEnd: int, shardStart: int
  )
    requires interval > 0 && chunks != [] && NonEmpty(chunks) && Rising(interval, a, Flatten(chunks))
    requires shardStart <= interval * (a + 1)
    ensures Sent(interval, width, chunks, interval * a, seriesEnd, shardStart)
         == Raw(interval, width, interval * a, Flatten(chunks), seriesEnd)
    decreases |chunks|
  {
    var first, rest := chunks[0], chunks[1..];
    RisingSplit(interval, a, first, Flatten(rest));
    FillEnds(interval, width, a, first);
    if rest == [] {
      assert Flatten(chunks) == first;
    } else {
      var q := LastWindow(interval, a, first);
      ScaleUp(interval, a, q);
      FlattenNonEmpty(rest);
      LaterChunks(interval, width, q, rest, seriesEnd, shardStart);
      RawConcat(interval, width, interval * a, first, Flatten(rest), seriesEnd);
      var filled := Fill(interval, width, interval * a, first);
      assert filled + [] == filled;
      assert Padded(interval, width, first, interval * a, seriesEnd, shardStart, false) == filled;
    }
  }

  lemma {:induction false} FlattenNonEmpty(chunks: seq<seq<AggRow>>)
    requires chunks != [] && NonEmpty(chunks)
    ensures Flatten(chunks) != [] && Flatten(chunks)[0] == chunks[0][0]
  {
  }

  lemma {:induction false} ScaleUp(interval: nat, a: int, q: int)
    requires interval > 0 && a < q
    ensures interval * (a + 1) <= interval * q < interval * (q + 1)
  {
    MulMonotone(interval, a, q);
    assert interval * (a + 1) == interval * a + interval;
    assert interval * (q + 1) == interval * q + interval;
  }

  lemma {:induction false} RisingSplit(interval: nat, a: int, x: seq<AggRow>, y: seq<AggRow>)
    requires interval > 0 && Rising(interval, a, x + y)
    ensures Rising(interval, a, x) && Rising(interval, LastWindow(interval, a, x), y)
    ensures x != [] ==> a < LastWindow(interval, a, x)
  {
    var z := x + y;
    assert forall j :: 0 <= j < |x| ==> x[j] == z[j];
    assert forall j :: 0 <= j < |y| ==> y[j] == z[|x| + j];
  }

  /** Measured from anywhere inside window `lo`, the next window follows without a gap. */
  lemma {:induction false} NoGapInside(interval: nat, width: nat, lo: int, from: int)
    requires interval > 0 && interval * lo <= from < interval * (lo + 1)
    ensures Gap(interval, width, from, interval * (lo + 1)) == []
  {
    assert interval * (lo + 1) == interval * lo + interval;
    var d := interval * (lo + 1) - from;
    assert 0 < d <= interval;
    assert d / interval <= 1 by {
      if d < interval {
        assert d == interval * 0 + d;
      }
    }
  }

  /** Sending in chunks is padding all at once, unless a window is lost. */
  lemma {:induction false} ChunksDoNotMatter(
    interval: nat, width: nat, lo: int, hi: int, shardStart: int, chunks: seq<seq<AggRow>>
  )
    requires interval > 0 && chunks != [] && NonEmpty(chunks) && Fits(interval, lo, hi, shardStart, Flatten(chunks))
    requires !LosesWindow(interval, lo, shardStart, chunks)
    ensures Sent(interval, width, chunks, interval * (lo - 1), interval * (hi + 1), shardStart)
         == Padded(interval, width, Flatten(chunks), interval * (lo - 1), interval * (hi + 1), shardStart, true)
  {
    var first, rest := chunks[0], chunks[1..];
    var start, end := interval * (lo - 1), interval * (hi + 1);
    if rest == [] {
      assert Flatten(chunks) == first;
      var from := LastTime(Padded(interval, width, first, start, end, shardStart, true), start);
      assert Sent(interval, width, rest, from, end, shardStart) == [];
    } else {
      RisingSplit(interval, lo - 1, first, Flatten(rest));
      FlattenNonEmpty(rest);
      TwoParts(interval, width, lo, hi, shardStart, first, rest);
    }
  }

  lemma {:induction false} TwoParts(interval: nat, width: nat, lo: int, hi: int, shardStart: int,
                                    first: seq<AggRow>, rest: seq<seq<AggRow>>)
    requires interval > 0 && first != [] && rest != [] && NonEmpty(rest) && shardStart < interval * (lo + 1)
    requires Rising(interval, lo - 1, first) && Rising(interval, LastWindow(interval, lo - 1, first), Flatten(rest))
    requires |first| == 1 && WindowNumber(interval, first[0].time) == lo && interval * lo < shardStart
             ==> WindowNumber(interval, rest[0][0].time) <= lo + 1
    ensures
      var out := Padded(interval, width, first, interval * (lo - 1), interval * (hi + 1), shardStart, false);
      out + Sent(interval, width, rest, LastTime(out, interval * (lo - 1)), interval * (hi + 1), shardStart)
      == Padded(interval, width, first + Flatten(rest), interval * (lo - 1), interval * (hi + 1), shardStart, true)
  {
    var start, end := interval * (lo - 1), interval * (hi + 1);
    var q := LastWindow(interval, lo - 1, first);
    FillCovers(interval, width, lo - 1, first);
    FillEnds(interval, width, lo - 1, first);
    var filled := Fill(interval, width, start, first);
    assert filled + [] == filled;
    RestIsRaw(interval, width, lo, q, shardStart, filled, rest, end);
    FlattenNonEmpty(rest);
    RawConcat(interval, width, start, first, Flatten(rest), end);
    ClampConcat(filled, Raw(interval, width, interval * q, Flatten(rest), end), shardStart);
  }

  /** What follows the first chunk, wherever the clamped first chunk makes it start. */
  lemma {:induction false} RestIsRaw(interval: nat, width: nat, lo: int, q: int, shardStart: int, filled: seq<AggRow>,
                                     rest: seq<seq<AggRow>>, end: int)
    requires interval > 0 && filled != [] && |filled| == q - lo + 1 && filled[|filled| - 1].time == interval * q
    requires rest != [] && NonEmpty(rest) && Rising(interval, q, Flatten(rest))
    requires interval * lo <= filled[0].time && shardStart < interval * (lo + 1)
    requires q == lo && interval * lo < shardStart ==> WindowNumber(interval, rest[0][0].time) <= lo + 1
    ensures Sent(interval, width, rest, Clamp(filled, shardStart)[|filled| - 1].time, end, shardStart)
         == Raw(interval, width, interval * q, Flatten(rest), end)
  {
    FlattenNonEmpty(rest);
    var from := Clamp(filled, shardStart)[|filled| - 1].time;
    assert shardStart <= interval * (q + 1) by {
      if lo < q {
        ScaleUp(interval, lo, q);
      }
    }
    LaterChunks(interval, width, q, rest, end, shardStart);
    if from != interval * q {
      assert q == lo && from == shardStart;
      var t := rest[0][0].time;
      WindowStartIsMultiple(interval, t);
      assert WindowNumber(interval, t) == lo + 1;
      NoGapInside(interval, width, lo, shardStart);
      ScaleUp(interval, lo - 1, lo);
      NoGapInside(interval, width, lo, interval * lo);
      SameStart(interval, width, shardStart, interval * lo, rest, end, shardStart);
    }
  }

  /** Where a chunk is measured from matters only through the first gap. */
  lemma {:induction false} SameStart(
    interval: nat, width: nat, from: int, from': int, chunks: seq<seq<AggRow>>, end: int, shardStart: int
  )
    requires interval > 0 && chunks != [] && chunks[0] != []
    requires
      var w := WindowStart(interval, chunks[0][0].time);
      Gap(interval, width, from, w) == Gap(interval, width, from', w)
    ensures Sent(interval, width, chunks, from, end, shardStart)
         == Sent(interval, width, chunks, from', end, shardStart)
  {
    var rows := chunks[0];
    assert Fill(interval, width, from, rows) == Fill(interval, width, from', rows);
    var filled := Fill(interval, width, from, rows);
    assert filled != [];
    assert LastTime(filled, from) == LastTime(filled, from');
    var out := Padded(interval, width, rows, from, end, shardStart, |chunks| == 1);
    assert out == Padded(interval, width, rows, from', end, shardStart, |chunks| == 1);
    assert LastTime(out, from) == LastTime(out, from');
  }

  /** In the losing case the second row sent is not that of the second window. */
  lemma {:induction false} LossShows(
    interval: nat, width: nat, lo: int, hi: int, shardStart: int, chunks: seq<seq<AggRow>>
  )
    requires interval > 0 && chunks != [] && NonEmpty(chunks) && Fits(interval, lo, hi, shardStart, Flatten(chunks))
    requires LosesWindow(interval, lo, shardStart, chunks)
    ensures
      var out := Sent(interval, width, chunks, interval * (lo - 1), interval * (hi + 1), shardStart);
      |out| > 1 && out[1].time != interval * (lo + 1)
  {
    var first, rest := chunks[0], chunks[1..];
    var start, end := interval * (lo - 1), interval * (hi + 1);
    RisingSplit(interval, lo - 1, first, Flatten(rest));
    FillCovers(interval, width, lo - 1, first);
    FillEnds(interval, width, lo - 1, first);
    var filled := Fill(interval, width, start, first);
    assert |filled| == 1 && filled[0].time == interval * lo;
    assert filled + [] == filled;
    var out := Padded(interval, width, first, start, end, shardStart, false);
    assert LastTime(out, start) == shardStart;
    var next := Padded(interval, width, rest[0], shardStart, end, shardStart, |rest| == 1);
    SecondChunkStarts(interval, width, lo, shardStart, rest[0], end, |rest| == 1);
    var out2 := Sent(interval, width, rest, shardStart, end, shardStart);
    assert next <= out2;
    assert (out + out2)[1] == out2[0] == next[0];
  }

  lemma {:induction false} SecondChunkStarts(
    interval: nat, width: nat, lo: int, shardStart: int, rows: seq<AggRow>, end: int, last: bool
  )
    requires interval > 0 && rows != [] && interval * lo < shardStart < interval * (lo + 1)
    requires WindowNumber(interval, rows[0].time) > lo + 1
    ensures
      var next := Padded(interval, width, rows, shardStart, end, shardStart, last);
      next != [] && next[0].time != interval * (lo + 1)
  {
    var q := WindowNumber(interval, rows[0].time);
    WindowStartIsMultiple(interval, rows[0].time);
    var w := interval * q;
    ScaleUp(interval, lo + 1, q);
    assert interval * (lo + 2) == interval * (lo + 1) + interval;
    var filled := Fill(interval, width, shardStart, rows);
    var gap := Gap(interval, width, shardStart, w);
    assert filled[0].time == if gap == [] then w else shardStart + interval;
  }

  /** ... and one row is missing. */
  lemma {:induction false} LossLength(
    interval: nat, width: nat, lo: int, hi: int, shardStart: int, chunks: seq<seq<AggRow>>
  )
    requires interval > 0 && chunks != [] && NonEmpty(chunks) && Fits(interval, lo, hi, shardStart, Flatten(chunks))
    requires LosesWindow(interval, lo, shardStart, chunks)
    ensures |Sent(interval, width, chunks, interval * (lo - 1), interval * (hi + 1), shardStart)| == hi - lo
  {
    var first, rest := chunks[0], chunks[1..];
    var start, end := interval * (lo - 1), interval * (hi + 1);
    RisingSplit(interval, lo - 1, first, Flatten(rest));
    FillCovers(interval, width, lo - 1, first);
    FillEnds(interval, width, lo - 1, first);
    var filled := Fill(interval, width, start, first);
    assert |filled| == 1 && filled[0].time == interval * lo;
    assert filled + [] == filled;
    assert LastTime(Padded(interval, width, first, start, end, shardStart, false), start) == shardStart;
    FlattenNonEmpty(rest);
    RestLength(interval, width, lo, hi, shardStart, rest);
  }

  /** After a clamped row the gap to the next one is measured one window short. */
  lemma {:induction false} RestLength(
    interval: nat, width: nat, lo: int, hi: int, shardStart: int, rest: seq<seq<AggRow>>
  )
    requires interval > 0 && rest != [] && NonEmpty(rest) && Rising(interval, lo, Flatten(rest))
    requires LastWindow(interval, lo, Flatten(rest)) <= hi && interval * lo < shardStart < interval * (lo + 1)
    requires WindowNumber(interval, rest[0][0].time) > lo + 1
    ensures |Sent(interval, width, rest, shardStart, interval * (hi + 1), shardStart)| == hi - lo - 1
  {
    var end, q := interval * (hi + 1), WindowNumber(interval, rest[0][0].time);
    LaterChunks(interval, width, lo, rest, end, shardStart);
    RawCovers(interval, width, lo, hi, Flatten(rest));
    ShorterGap(interval, width, lo, q, shardStart);
    WindowStartIsMultiple(interval, rest[0][0].time);
    ScaleUp(interval, lo, q);
    SentShorter(interval, width, shardStart, interval * lo, rest, end, shardStart);
  }

  lemma {:induction false} ShorterGap(interval: nat, width: nat, lo: int, q: int, from: int)
    requires interval > 0 && interval * lo < from < interval * (lo + 1) && q > lo + 1
    ensures |Gap(interval, width, from, interval * q)| == |Gap(interval, width, interval * lo, interval * q)| - 1
  {
    GapCovers(interval, width, lo, q);
    var r := interval * (lo + 1) - from;
    assert interval * (lo + 1) == interval * lo + interval;
    ScaledDifference(interval, lo + 1, q);
    assert interval * q - from == interval * (q - lo - 1) + r;
    DivideWith(interval, q - lo - 1, r);
  }

  /** A padded chunk: the first gap and a rest that does not depend on it. */
  lemma {:induction false} PaddedParts(
    interval: nat, width: nat, rows: seq<AggRow>, from: int, end: int, shardStart: int, last: bool
  )
    requires interval > 0 && rows != [] && shardStart <= WindowStart(interval, rows[0].time)
    ensures
      var w := WindowStart(interval, rows[0].time);
      var tail := [rows[0].(time := w)] + Fill(interval, width, w, rows[1..]);
      var more := if last then Gap(interval, width, LastTime(tail, w), end) else [];
      var out := Padded(interval, width, rows, from, end, shardStart, last);
      && |out| == |Gap(interval, width, from, w)| + |tail + more|
      && LastTime(out, from) == LastTime(tail + more, w)
  {
    var w := WindowStart(interval, rows[0].time);
    var gap := Gap(interval, width, from, w);
    var tail := [rows[0].(time := w)] + Fill(interval, width, w, rows[1..]);
    FillParts(interval, width, rows, from);
    PartsPadded(interval, width, rows, from, end, shardStart, last, gap, tail);
  }

  lemma {:induction false} FillParts(interval: nat, width: nat, rows: seq<AggRow>, from: int)
    requires interval > 0 && rows != []
    ensures
      var w := WindowStart(interval, rows[0].time);
      Fill(interval, width, from, rows)
      == Gap(interval, width, from, w) + ([rows[0].(time := w)] + Fill(interval, width, w, rows[1..]))
  {
    var w := WindowStart(interval, rows[0].time);
    Associate(Gap(interval, width, from, w), [rows[0].(time := w)], Fill(interval, width, w, rows[1..]));
  }

  lemma {:induction false} PartsPadded(
    interval: nat, width: nat, rows: seq<AggRow>, from: int, end: int, shardStart: int, last: bool,
    gap: seq<AggRow>, tail: seq<AggRow>
  )
    requires interval > 0 && Fill(interval, width, from, rows) == gap + tail
    requires tail != [] && shardStart <= tail[0].time
    ensures
      var w := tail[0].time;
      var more := if last then Gap(interval, width, LastTime(tail, w), end) else [];
      var out := Padded(interval, width, rows, from, end, shardStart, last);
      && |out| == |gap| + |tail + more|
      && LastTime(out, from) == LastTime(tail + more, w)
  {
    var w := tail[0].time;
    var more := if last then Gap(interval, width, LastTime(tail, w), end) else [];
    assert LastTime(gap + tail, from) == LastTime(tail, w);
    Associate(gap, tail, more);
    ClampLast(gap, tail + more, shardStart, w);
  }

  lemma {:induction false} ClampLast(gap: seq<AggRow>, rest: seq<AggRow>, shardStart: int, w: int)
    requires rest != [] && rest[0].time == w >= shardStart
    ensures LastTime(Clamp(gap + rest, shardStart), w) == LastTime(rest, w)
  {
  }

  /** Where a chunk is measured from matters only for the rows of its first gap. */
  lemma {:induction false} SentShorter(
    interval: nat, width: nat, from: int, from': int, chunks: seq<seq<AggRow>>, end: int, shardStart: int
  )
    requires interval > 0 && chunks != [] && chunks[0] != []
    requires shardStart <= WindowStart(interval, chunks[0][0].time)
    ensures
      var w := WindowStart(interval, chunks[0][0].time);
      |Sent(interval, width, chunks, from, end, shardStart)| - |Gap(interval, width, from, w)|
      == |Sent(interval, width, chunks, from', end, shardStart)| - |Gap(interval, width, from', w)|
  {
    PaddedParts(interval, width, chunks[0], from, end, shardStart, |chunks| == 1);
    PaddedParts(interval, width, chunks[0], from', end, shardStart, |chunks| == 1);
  }

  /** The exact condition: what is sent is the whole grid if and only if no window is lost. */
  lemma {:induction false} GridExact(
    interval: nat, width: nat, lo: int, hi: int, shardStart: int, chunks: seq<seq<AggRow>>
  )
    requires interval > 0 && chunks != [] && NonEmpty(chunks) && Fits(interval, lo, hi, shardStart, Flatten(chunks))
    ensures WholeGrid(interval, width, lo, hi, shardStart, Flatten(chunks),
                      Sent(interval, width, chunks, interval * (lo - 1), interval * (hi + 1), shardStart))
            <==> !LosesWindow(interval, lo, shardStart, chunks)
  {
    if LosesWindow(interval, lo, shardStart, chunks) {
      LossShows(interval, width, lo, hi, shardStart, chunks);
    } else {
      ChunksDoNotMatter(interval, width, lo, hi, shardStart, chunks);
      PaddedIsGrid(interval, width, lo, hi, shardStart, Flatten(chunks));
    }
  }

  lemma {:induction false} ClampConcat(a: seq<AggRow>, b: seq<AggRow>, shardStart: int)
    requires a != []
    ensures Clamp(a + b, shardStart) == Clamp(a, shardStart) + b
  {
  }

  /** What has been sent while more chunks are to come. */
  function SentOpen(
    interval: nat, width: nat, chunks: seq<seq<AggRow>>, seriesStart: int, seriesEnd: int, shardStart: int
  ): seq<AggRow>
    requires interval > 0
    decreases |chunks|
  {
    if chunks == [] then []
    else
      var out := Padded(interval, width, chunks[0], seriesStart, seriesEnd, shardStart, false);
      out + SentOpen(interval, width, chunks[1..], LastTime(out, seriesStart), seriesEnd, shardStart)
  }

  /** What one more chunk adds, and what it would add as the last one. */
  ghost predicate Continued(interval: nat, width: nat, chunks: seq<seq<AggRow>>, chunk: seq<AggRow>, sent: seq<AggRow>,
                            start: int, end: int, shardStart: int)
    requires interval > 0
  {
    && SentOpen(interval, width, chunks, start, end, shardStart) == sent
    && SentOpen(interval, width, chunks + [chunk], start, end, shardStart)
       == sent + Padded(interval, width, chunk, LastTime(sent, start), end, shardStart, false)
    && Sent(interval, width, chunks + [chunk], start, end, shardStart)
       == sent + Padded(interval, width, chunk, LastTime(sent, start), end, shardStart, true)
  }

  /** One more chunk is padded from the time of the last row sent. */
  lemma {:induction false} SentNext(interval: nat, width: nat, chunks: seq<seq<AggRow>>, chunk: seq<AggRow>,
                                    start: int, end: int, shardStart: int)
    requires interval > 0
    ensures Continued(interval, width, chunks, chunk, SentOpen(interval, width, chunks, start, end, shardStart),
                      start, end, shardStart)
    decreases |chunks|
  {
    if chunks == [] {
      ContinuedOnce(interval, width, chunk, start, end, shardStart);
    } else {
      var out := Padded(interval, width, chunks[0], start, end, shardStart, false);
      var from := LastTime(out, start);
      SentNext(interval, width, chunks[1..], chunk, from, end, shardStart);
      var later := SentOpen(interval, width, chunks[1..], from, end, shardStart);
      assert chunks == [chunks[0]] + chunks[1..];
      ContinuedMore(interval, width, chunks[0], chunks[1..], chunk, out, later, start, end, shardStart);
    }
  }

  lemma {:induction false} ContinuedMore(interval: nat, width: nat, first: seq<AggRow>, rest: seq<seq<AggRow>>,
                                         chunk: seq<AggRow>, out: seq<AggRow>, later: seq<AggRow>,
                                         start: int, end: int, shardStart: int)
    requires interval > 0 && out == Padded(interval, width, first, start, end, shardStart, false)
    requires Continued(interval, width, rest, chunk, later, LastTime(out, start), end, shardStart)
    ensures Continued(interval, width, [first] + rest, chunk, out + later, start, end, shardStart)
  {
    var from := LastTime(out, start);
    assert ([first] + rest) + [chunk] == [first] + (rest + [chunk]);
    FirstChunk(interval, width, first, rest + [chunk], start, end, shardStart);
    assert SentOpen(interval, width, [first] + rest, start, end, shardStart) == out + later by {
      assert ([first] + rest)[1..] == rest;
    }
    LastOfBoth(out, later, start);
    Associate(out, later, Padded(interval, width, chunk, LastTime(later, from), end, shardStart, false));
    Associate(out, later, Padded(interval, width, chunk, LastTime(later, from), end, shardStart, true));
  }

  lemma {:induction false} ContinuedOnce(
    interval: nat, width: nat, chunk: seq<AggRow>, start: int, end: int, shardStart: int
  )
    requires interval > 0
    ensures Continued(interval, width, [], chunk, [], start, end, shardStart)
  {
    assert [] + [chunk] == [chunk] && [chunk][1..] == [];
  }

  lemma {:induction false} FirstChunk(interval: nat, width: nat, chunk: seq<AggRow>, rest: seq<seq<AggRow>>,
                                      start: int, end: int, shardStart: int)
    requires interval > 0 && rest != []
    ensures
      var out := Padded(interval, width, chunk, start, end, shardStart, false);
      && SentOpen(interval, width, [chunk] + rest, start, end, shardStart)
         == out + SentOpen(interval, width, rest, LastTime(out, start), end, shardStart)
      && Sent(interval, width, [chunk] + rest, start, end, shardStart)
         == out + Sent(interval, width, rest, LastTime(out, start), end, shardStart)
  {
    assert ([chunk] + rest)[1..] == rest;
  }

  lemma {:induction false} LastOfBoth(a: seq<AggRow>, b: seq<AggRow>, start: int)
    ensures LastTime(a + b, start) == LastTime(b, LastTime(a, start))
  {
  }

  /** Windows of 10, a shard that begins at 5, rows at 7 and 25 in chunks of one row: window 1 is lost. */
  lemma {:induction false} OneRowChunkLoses()
    ensures
      var chunks: seq<seq<AggRow>> := [[AggRow(7, [])], [AggRow(25, [])]];
      && NonEmpty(chunks) && Fits(10, 0, 2, 5, Flatten(chunks))
      && !WholeGrid(10, 0, 0, 2, 5, Flatten(chunks), Sent(10, 0, chunks, 10 * (0 - 1), 10 * (2 + 1), 5))
  {
    var chunks: seq<seq<AggRow>> := [[AggRow(7, [])], [AggRow(25, [])]];
    var rows := [AggRow(7, []), AggRow(25, [])];
    assert Flatten(chunks) == rows by {
      FlattenSnoc([chunks[0]], chunks[1]);
      FlattenOne(chunks[0]);
      assert chunks == [chunks[0]] + [chunks[1]];
    }
    assert WindowNumber(10, 7) == 0 && WindowNumber(10, 25) == 2;
    assert Fits(10, 0, 2, 5, rows);
    GridExact(10, 0, 0, 2, 5, chunks);
  }

  // ----- a series whose last chunk is sent as if more were to come

  lemma {:induction false} FillLast(interval: nat, width: nat, from: int, rows: seq<AggRow>)
    requires interval > 0 && rows != []
    ensures LastTime(Fill(interval, width, from, rows), from) == WindowStart(interval, rows[|rows| - 1].time)
    decreases |rows|
  {
    var end := WindowStart(interval, rows[0].time);
    if |rows| > 1 {
      FillLast(interval, width, end, rows[1..]);
    } else {
      assert Fill(interval, width, end, rows[1..]) == [];
    }
  }

  lemma {:induction false} FlattenLast<T>(chunks: seq<seq<T>>)
    requires chunks != [] && chunks[|chunks| - 1] != []
    ensures
      var all, last := Flatten(chunks), chunks[|chunks| - 1];
      all != [] && all[|all| - 1] == last[|last| - 1]
  {
    var n := |chunks| - 1;
    assert chunks == chunks[..n] + [chunks[n]];
    FlattenAppend(chunks[..n], [chunks[n]]);
    FlattenOne(chunks[n]);
  }

  /** The padding after the last row is all that is missing. */
  lemma {:induction false} OpenLacksTail(
    interval: nat, width: nat, chunks: seq<seq<AggRow>>, start: int, end: int, shardStart: int
  )
    requires interval > 0 && chunks != [] && NonEmpty(chunks)
    ensures Flatten(chunks) != []
    ensures
      var all := Flatten(chunks);
      Sent(interval, width, chunks, start, end, shardStart)
      == SentOpen(interval, width, chunks, start, end, shardStart)
         + Gap(interval, width, WindowStart(interval, all[|all| - 1].time), end)
  {
    var n := |chunks| - 1;
    var init, chunk := chunks[..n], chunks[n];
    assert chunks == init + [chunk];
    FlattenLast(chunks);
    SentNext(interval, width, init, chunk, start, end, shardStart);
    var sent := SentOpen(interval, width, init, start, end, shardStart);
    TailApart(interval, width, chunk, LastTime(sent, start), end, shardStart);
    Associate(
      sent, Padded(interval, width, chunk, LastTime(sent, start), end, shardStart, false),
      Gap(interval, width, WindowStart(interval, chunk[|chunk| - 1].time), end));
  }

  lemma {:induction false} TailApart(interval: nat, width: nat, rows: seq<AggRow>, from: int, end: int, shardStart: int)
    requires interval > 0 && rows != []
    ensures Padded(interval, width, rows, from, end, shardStart, true)
         == Padded(interval, width, rows, from, end, shardStart, false)
            + Gap(interval, width, WindowStart(interval, rows[|rows| - 1].time), end)
  {
    var filled := Fill(interval, width, from, rows);
    FillLast(interval, width, from, rows);
    assert filled + [] == filled;
    ClampConcat(filled, Gap(interval, width, LastTime(filled, from), end), shardStart);
  }
}
