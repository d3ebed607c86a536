/** What a window aggregate means, and the reduce and merge functions of the engine. */
module Aggregates {
  import opened Records

  datatype Op = Count | Sum | Min | Max | First | Last

  /** One aggregate call of a query: what it computes, on which column, with which auxiliary columns. */
  datatype Call = Call(op: Op, col: nat, aux: seq<nat>)

  /** Selectors return one of the rows of the window; count and sum do not. */
  predicate Selector(op: Op) {
    op.Min? || op.Max? || op.First? || op.Last?
  }

  predicate HasValue(rows: seq<Row>, col: nat) {
    exists k :: 0 <= k < |rows| && Cell(rows[k], col).Some?
  }

  predicate Dense(rows: seq<Row>, col: nat) {
    forall k :: 0 <= k < |rows| ==> Cell(rows[k], col).Some?
  }

  function CountOf(rows: seq<Row>, col: nat): nat {
    if rows == [] then 0
    else CountOf(rows[..|rows| - 1], col) + if Cell(rows[|rows| - 1], col).Some? then 1 else 0
  }

  function SumOf(rows: seq<Row>, col: nat): int {
    if rows == [] then 0
    else
      var last := Cell(rows[|rows| - 1], col);
      SumOf(rows[..|rows| - 1], col) + if last.Some? then last.value else 0
  }

  /** Row `k` is the one the selector must return: for equal extremes the earliest row wins. */
  ghost predicate IsSelected(op: Op, rows: seq<Row>, col: nat, k: nat) {
    && k < |rows|
    && Cell(rows[k], col).Some?
    && forall j :: 0 <= j < |rows| && j != k && Cell(rows[j], col).Some? ==>
      var v, w := Cell(rows[k], col).value, Cell(rows[j], col).value;
      match op
      case Min => v < w || (v == w && k < j)
      case Max => v > w || (v == w && k < j)
      case First => k < j
      case Last => j < k
      case _ => false
  }

  /** The outcome of one call on one window, with the time and the auxiliary row it is reported with. */
  datatype Point = Point(value: int, time: int, aux: seq<Option<int>>)

  /** `p` is the result of `call` on all of `rows` at once. */
  ghost predicate Summarises(call: Call, rows: seq<Row>, p: Point) {
    && HasValue(rows, call.col)
    && match call.op
       case Count => p.value == CountOf(rows, call.col)
       case Sum => p.value == SumOf(rows, call.col)
       case _ => exists k: nat :: IsSelected(call.op, rows, call.col, k) && IsRow(call, rows[k], p)
  }

  /** `p` is the row itself, with its auxiliary columns in the order of the call. */
  predicate IsRow(call: Call, row: Row, p: Point) {
    && call.col < |row.cells| && row.cells[call.col] == Some(p.value)
    && row.time == p.time
    && (call.aux != [] ==>
          && |p.aux| == |call.aux|
          && forall i :: 0 <= i < |call.aux| ==>
               p.aux[i] == if call.aux[i] < |row.cells| then row.cells[call.aux[i]] else None)
  }

  /** `v` is the value of `call` on the window, null if the window has none. */
  ghost predicate ValueRight(call: Call, window: seq<Row>, v: Option<int>) {
    && (v.None? <==> !HasValue(window, call.col))
    && (v.Some? ==> exists time, aux :: Summarises(call, window, Point(v.value, time, aux)))
  }

  // ----- partial results and how they are merged

  datatype ColBuf = ColBuf(index: nat, time: int, value: int, isNil: bool)

  /** What a carried partial result becomes when the next part of the window has been reduced. */
  function Merge(op: Op, prev: ColBuf, curr: ColBuf): ColBuf {
    match op
    case Count => prev.(value := prev.value + curr.value)
    case Sum => prev.(value := prev.value + curr.value)
    case Min =>
      if curr.value < prev.value then prev.(index := curr.index, time := curr.time, value := curr.value) else prev
    case Max =>
      if curr.value > prev.value then prev.(index := curr.index, time := curr.time, value := curr.value) else prev
    case First => prev
    case Last => prev.(index := curr.index, time := curr.time, value := curr.value)
  }

  /** The point of the merged partial result: whichever of the two the merge kept. */
  function MergePoint(op: Op, p: Point, q: Point): Point {
    match op
    case Count => p.(value := p.value + q.value)
    case Sum => p.(value := p.value + q.value)
    case Min => if q.value < p.value then q else p
    case Max => if q.value > p.value then q else p
    case First => p
    case Last => q
  }

  lemma {:induction false} TotalsConcat(a: seq<Row>, b: seq<Row>, col: nat)
    ensures CountOf(a + b, col) == CountOf(a, col) + CountOf(b, col)
    ensures SumOf(a + b, col) == SumOf(a, col) + SumOf(b, col)
  {
    if b == [] {
      assert a + b == a;
    } else {
      var n := |b| - 1;
      assert (a + b)[..|a| + n] == a + b[..n];
      TotalsConcat(a, b[..n], col);
    }
  }

  /** One row counts once and adds its value, or neither. */
  lemma {:induction false} TotalsOfOne(row: Row, col: nat)
    ensures Cell(row, col).None? ==> CountOf([row], col) == 0 && SumOf([row], col) == 0
    ensures forall v :: col < |row.cells| && row.cells[col] == Some(v) ==>
      CountOf([row], col) == 1 && SumOf([row], col) == v
  {
    assert [row][..0] == [];
  }

  lemma {:induction false} TotalsOfNulls(rows: seq<Row>, col: nat)
    ensures !HasValue(rows, col) ==> CountOf(rows, col) == 0 && SumOf(rows, col) == 0
    ensures HasValue(rows, col) <==> CountOf(rows, col) > 0
  {
    if rows != [] {
      var n := |rows| - 1;
      TotalsOfNulls(rows[..n], col);
      assert HasValue(rows[..n], col) ==> HasValue(rows, col) by {
        if HasValue(rows[..n], col) {
          var k :| 0 <= k < n && Cell(rows[..n][k], col).Some?;
          assert Cell(rows[k], col).Some?;
        }
      }
      assert HasValue(rows, col) && Cell(rows[n], col).None? ==> HasValue(rows[..n], col) by {
        if HasValue(rows, col) && Cell(rows[n], col).None? {
          var k :| 0 <= k < |rows| && Cell(rows[k], col).Some?;
          assert Cell(rows[..n][k], col).Some?;
        }
      }
    }
  }

  lemma {:induction false} HasValueConcat(a: seq<Row>, b: seq<Row>, col: nat)
    ensures HasValue(a + b, col) <==> HasValue(a, col) || HasValue(b, col)
  {
    if HasValue(a, col) {
      var k :| 0 <= k < |a| && Cell(a[k], col).Some?;
      assert Cell((a + b)[k], col).Some?;
    }
    if HasValue(b, col) {
      var k :| 0 <= k < |b| && Cell(b[k], col).Some?;
      assert Cell((a + b)[|a| + k], col).Some?;
    }
    if HasValue(a + b, col) {
      var k :| 0 <= k < |a + b| && Cell((a + b)[k], col).Some?;
      assert if k < |a| then Cell(a[k], col).Some? else Cell(b[k - |a|], col).Some?;
    }
  }

  /** Leading rows without a value do not change the result. */
  lemma {:induction false} NullsBefore(call: Call, a: seq<Row>, b: seq<Row>, p: Point)
    requires !HasValue(a, call.col) && Summarises(call, b, p)
    ensures Summarises(call, a + b, p)
  {
    HasValueConcat(a, b, call.col);
    if Selector(call.op) {
      var k: nat :| IsSelected(call.op, b, call.col, k) && IsRow(call, b[k], p);
      SelectedRight(call.op, a, b, call.col, k);
      assert (a + b)[|a| + k] == b[k];
    } else {
      TotalsConcat(a, b, call.col);
      TotalsOfNulls(a, call.col);
    }
  }

  /** Trailing rows without a value do not change the result. */
  lemma {:induction false} NullsAfter(call: Call, a: seq<Row>, b: seq<Row>, p: Point)
    requires Summarises(call, a, p) && !HasValue(b, call.col)
    ensures Summarises(call, a + b, p)
  {
    HasValueConcat(a, b, call.col);
    if Selector(call.op) {
      var k: nat :| IsSelected(call.op, a, call.col, k) && IsRow(call, a[k], p);
      SelectedLeft(call.op, a, b, call.col, k);
      assert (a + b)[k] == a[k];
    } else {
      TotalsConcat(a, b, call.col);
      TotalsOfNulls(b, call.col);
    }
  }

  /** Merging the results of two parts gives the result of the whole. */
  lemma {:induction false} MergeSummarises(call: Call, a: seq<Row>, b: seq<Row>, p: Point, q: Point)
    requires Summarises(call, a, p) && Summarises(call, b, q)
    ensures Summarises(call, a + b, MergePoint(call.op, p, q))
  {
    HasValueConcat(a, b, call.col);
    if Selector(call.op) {
      var i: nat :| IsSelected(call.op, a, call.col, i) && IsRow(call, a[i], p);
      var j: nat :| IsSelected(call.op, b, call.col, j) && IsRow(call, b[j], q);
      assert (a + b)[i] == a[i] && (a + b)[|a| + j] == b[j];
      if KeepsRight(call.op, p.value, q.value) {
        SelectedBetterRight(call.op, a, b, call.col, i, j);
      } else {
        SelectedBetterLeft(call.op, a, b, call.col, i, j);
      }
    } else {
      TotalsConcat(a, b, call.col);
    }
  }

  predicate KeepsRight(op: Op, v: int, w: int) {
    op.Last? || (op.Min? && w < v) || (op.Max? && w > v)
  }

  lemma {:induction false} SelectedRight(op: Op, a: seq<Row>, b: seq<Row>, col: nat, k: nat)
    requires !HasValue(a, col) && IsSelected(op, b, col, k)
    ensures IsSelected(op, a + b, col, |a| + k)
  {
    assert forall j :: 0 <= j < |a| ==> (a + b)[j] == a[j] && Cell(a[j], col).None?;
    assert forall j :: |a| <= j < |a + b| ==> (a + b)[j] == b[j - |a|];
  }

  lemma {:induction false} SelectedLeft(op: Op, a: seq<Row>, b: seq<Row>, col: nat, k: nat)
    requires !HasValue(b, col) && IsSelected(op, a, col, k)
    ensures IsSelected(op, a + b, col, k)
  {
    assert forall j :: |a| <= j < |a + b| ==> (a + b)[j] == b[j - |a|] && Cell(b[j - |a|], col).None?;
  }

  lemma {:induction false} SelectedBetterRight(op: Op, a: seq<Row>, b: seq<Row>, col: nat, i: nat, j: nat)
    requires IsSelected(op, a, col, i) && IsSelected(op, b, col, j)
    requires KeepsRight(op, Cell(a[i], col).value, Cell(b[j], col).value)
    ensures IsSelected(op, a + b, col, |a| + j)
  {
    forall m | 0 <= m < |a + b| && m != |a| + j && Cell((a + b)[m], col).Some?
      ensures if m < |a| then Cell(a[m], col) == Cell((a + b)[m], col)
              else Cell(b[m - |a|], col) == Cell((a + b)[m], col)
    {
    }
  }

  lemma {:induction false} SelectedBetterLeft(op: Op, a: seq<Row>, b: seq<Row>, col: nat, i: nat, j: nat)
    requires IsSelected(op, a, col, i) && IsSelected(op, b, col, j)
    requires Selector(op) && !KeepsRight(op, Cell(a[i], col).value, Cell(b[j], col).value)
    ensures IsSelected(op, a + b, col, i)
  {
    forall m | 0 <= m < |a + b| && m != i && Cell((a + b)[m], col).Some?
      ensures if m < |a| then Cell(a[m], col) == Cell((a + b)[m], col)
              else Cell(b[m - |a|], col) == Cell((a + b)[m], col)
    {
    }
  }

  /** A selector has only one right answer. */
  lemma {:induction false} SelectedIsUnique(op: Op, rows: seq<Row>, col: nat, i: nat, j: nat)
    requires IsSelected(op, rows, col, i) && IsSelected(op, rows, col, j)
    ensures i == j
  {
  }
}
