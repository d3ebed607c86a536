/** Rows without a value are kicked out of a record before it is reduced, but the record after it is peeked at as
    it came. A record here has one field, its first column. */
module Kicking {
  import opened Records
  import opened Windows
  import opened Aggregates
  import opened Grouping

  const FIELD: nat := 0

  /** The rows that have a value. */
  function Kept(record: Record): Record {
    if record == [] then []
    else
      var n := |record| - 1;
      Kept(record[..n]) + if Cell(record[n], FIELD).Some? then [record[n]] else []
  }

  function KeptRows(records: seq<Record>): seq<Row> {
    if records == [] then [] else Kept(records[0]) + KeptRows(records[1..])
  }

  lemma {:induction false} KeptConcat(a: Record, b: Record)
    ensures Kept(a + b) == Kept(a) + Kept(b)
  {
    if b == [] {
      assert a + b == a;
    } else {
      var n := |b| - 1;
      assert (a + b)[..|a + b| - 1] == a + b[..n];
      KeptConcat(a, b[..n]);
    }
  }

  /** Nothing but rows with values is kept, and of these all. */
  lemma {:induction false} KeptMeaning(record: Record)
    ensures Dense(Kept(record), FIELD) && |Kept(record)| <= |record|
    ensures Kept(record) == record <==> Dense(record, FIELD)
    ensures forall row :: row in Kept(record) <==> row in record && Cell(row, FIELD).Some?
  {
    if record != [] {
      var n := |record| - 1;
      KeptMeaning(record[..n]);
      assert record == record[..n] + [record[n]];
    }
  }

  /** Rows `row` to `end` have values. */
  predicate AllHave(record: Record, row: nat, end: nat)
    requires end <= |record|
  {
    forall k :: row <= k < end ==> Cell(record[k], FIELD).Some?
  }

  lemma {:induction false} KeptStretch(record: Record, row: nat, end: nat)
    requires row <= end <= |record| && AllHave(record, row, end)
    ensures Kept(record[..end]) == Kept(record[..row]) + record[row..end]
  {
    if row < end {
      KeptStretch(record, row, end - 1);
      assert record[..end][..end - 1] == record[..end - 1];
    } else {
      assert record[row..end] == [];
    }
  }

  lemma {:induction false} KeptSkip(record: Record, row: nat)
    requires row < |record| && Cell(record[row], FIELD).None?
    ensures Kept(record[..row + 1]) == Kept(record[..row])
  {
    assert record[..row + 1][..row] == record[..row];
  }

  method Stretch(record: Record, row: nat) returns (end: nat)
    requires row <= |record|
    ensures row <= end <= |record| && AllHave(record, row, end)
    ensures end < |record| ==> Cell(record[end], FIELD).None?
  {
    end := row;
    while end < |record| && Cell(record[end], FIELD).Some?
      invariant row <= end <= |record| && AllHave(record, row, end)
    {
      end := end + 1;
    }
  }

  /** KickNilRow: stretches of rows with values are copied, and a record of such rows only is handed back. */
  method KickNilRow(record: Record) returns (kept: Record)
    ensures kept == Kept(record)
  {
    kept := [];
    var row := 0;
    while row < |record|
      invariant 0 <= row <= |record| && kept == Kept(record[..row])
    {
      var end := Stretch(record, row);
      if end == row {
        KeptSkip(record, row);
        row := row + 1;
      } else if end - row == |record| {
        KeptMeaning(record);
        return record;
      } else {
        KeptStretch(record, row, end);
        kept := kept + record[row..end];
        row := end;
      }
    }
    assert record[..|record|] == record;
  }

  /** The peek: the first row of the next record, with a value or not, lies in the window of the last kept row. */
  predicate PeeksOn(win: Windowing, kept: Record, rest: seq<Record>) {
    rest != [] && rest[0] != [] && Continues(win, kept, rest[0][0])
  }

  /** Whether the window really goes on. */
  predicate ReallyGoesOn(win: Windowing, kept: Record, rest: seq<Record>) {
    KeptRows(rest) != [] && Continues(win, kept, KeptRows(rest)[0])
  }

  /** The windows that are reported, from a state with `carried` open and `records` to come. A window that is
      still open at the end is not. */
  function Reported(win: Windowing, carried: seq<Row>, records: seq<Record>): seq<seq<Row>>
    decreases |records|
  {
    if records == [] then []
    else
      var kept := Kept(records[0]);
      if kept == [] then Reported(win, carried, records[1..])
      else
        var windows, same := JoinFirst(carried, Runs(win, kept)), PeeksOn(win, kept, records[1..]);
        Closed(windows, same) + Reported(win, StillOpen(windows, same), records[1..])
  }

  /** The windows finished so far and those to come. */
  ghost predicate Divides(
    win: Windowing, total: seq<seq<Row>>, closed: seq<seq<Row>>, carried: seq<Row>, records: seq<Record>
  ) {
    total == closed + Reported(win, carried, records)
  }

  lemma {:induction false} ReportedGoOn(
    win: Windowing, total: seq<seq<Row>>, closed: seq<seq<Row>>, carried: seq<Row>, records: seq<Record>
  )
    requires records != [] && Divides(win, total, closed, carried, records)
    ensures
      var kept, rest := Kept(records[0]), records[1..];
      if kept == [] then Divides(win, total, closed, carried, rest)
      else
        var windows, same := JoinFirst(carried, Runs(win, kept)), PeeksOn(win, kept, rest);
        Divides(win, total, closed + Closed(windows, same), StillOpen(windows, same), rest)
  {
    var kept, rest := Kept(records[0]), records[1..];
    if kept != [] {
      var windows, same := JoinFirst(carried, Runs(win, kept)), PeeksOn(win, kept, rest);
      Associate(closed, Closed(windows, same), Reported(win, StillOpen(windows, same), rest));
    }
  }

  /** Every peek that is made is right. */
  predicate PeeksRight(win: Windowing, records: seq<Record>) {
    records != [] ==>
      var kept := Kept(records[0]);
      && PeeksRight(win, records[1..])
      && (kept != [] ==> PeeksOn(win, kept, records[1..]) == ReallyGoesOn(win, kept, records[1..]))
  }

  ghost predicate Longer(windows: seq<seq<Row>>, carried: seq<Row>) {
    windows == [] || |windows[0]| > |carried|
  }

  lemma {:induction false} LongerJoin(carried: seq<Row>, parts: seq<seq<Row>>, same: bool, later: seq<seq<Row>>)
    requires parts != [] && parts[0] != [] && Longer(later, StillOpen(JoinFirst(carried, parts), same))
    ensures Longer(Closed(JoinFirst(carried, parts), same) + later, carried)
  {
    var windows := JoinFirst(carried, parts);
    assert |windows[0]| > |carried|;
    if Closed(windows, same) != [] {
      assert (Closed(windows, same) + later)[0] == windows[0];
    } else {
      assert Closed(windows, same) + later == later;
    }
  }

  /** Whatever follows an open window makes it longer. */
  lemma {:induction false} ReportedLonger(win: Windowing, carried: seq<Row>, records: seq<Record>)
    ensures Longer(Reported(win, carried, records), carried)
    decreases |records|
  {
    if records != [] {
      var kept := Kept(records[0]);
      if kept == [] {
        ReportedLonger(win, carried, records[1..]);
      } else {
        var windows, same := JoinFirst(carried, Runs(win, kept)), PeeksOn(win, kept, records[1..]);
        ReportedLonger(win, StillOpen(windows, same), records[1..]);
        LongerJoin(carried, Runs(win, kept), same, Reported(win, StillOpen(windows, same), records[1..]));
      }
    }
  }

  /** A window held open too long shows in what is reported ... */
  lemma {:induction false} HeldTooLong(win: Windowing, windows: seq<seq<Row>>, rest: seq<Record>, later: seq<seq<Row>>)
    requires windows != []
    ensures Closed(windows, true) + Reported(win, StillOpen(windows, true), rest) != windows + later
  {
    var n, last := |windows| - 1, windows[|windows| - 1];
    var reported := Reported(win, last, rest);
    ReportedLonger(win, last, rest);
    assert (windows + later)[n] == last;
    if reported != [] {
      assert (windows[..n] + reported)[n] == reported[0];
    }
  }

  /** ... and so does one closed too early. */
  lemma {:induction false} ClosedTooEarly(windows: seq<seq<Row>>, reported: seq<seq<Row>>, later: seq<seq<Row>>)
    requires windows != [] && later != [] && |later[0]| > |windows[|windows| - 1]|
    ensures windows + reported != windows[..|windows| - 1] + later
  {
    var n := |windows| - 1;
    assert (windows + reported)[n] == windows[n];
    assert (windows[..n] + later)[n] == later[0];
  }

  lemma {:induction false} WholeSplits(win: Windowing, carried: seq<Row>, kept: Record, later: seq<Row>)
    requires kept != []
    ensures
      var windows, really := JoinFirst(carried, Runs(win, kept)), later != [] && Continues(win, kept, later[0]);
      Whole(win, carried, kept + later) == Closed(windows, really) + Whole(win, StillOpen(windows, really), later)
  {
    if later == [] {
      assert kept + later == kept;
    } else {
      RunsConcat(win, kept, later);
      JoinGlue(carried, Runs(win, kept), Runs(win, later), Continues(win, kept, later[0]));
    }
  }

  /** The windows reported are those of the rows with values if and only if every peek is right. */
  lemma {:induction false} ReportedWhole(win: Windowing, carried: seq<Row>, records: seq<Record>)
    ensures Reported(win, carried, records) == Whole(win, carried, KeptRows(records)) <==> PeeksRight(win, records)
    decreases |records|
  {
    if records != [] {
      var kept, rest := Kept(records[0]), records[1..];
      if kept == [] {
        ReportedWhole(win, carried, rest);
        assert KeptRows(records) == KeptRows(rest);
      } else {
        var windows, same := JoinFirst(carried, Runs(win, kept)), PeeksOn(win, kept, rest);
        WholeSplits(win, carried, kept, KeptRows(rest));
        if same == ReallyGoesOn(win, kept, rest) {
          ReportedWhole(win, StillOpen(windows, same), rest);
          SameAfter(
            Closed(windows, same), Reported(win, StillOpen(windows, same), rest),
            Whole(win, StillOpen(windows, same), KeptRows(rest)));
        } else if same {
          HeldTooLong(win, windows, rest, Whole(win, [], KeptRows(rest)));
        } else {
          ClosedTooEarly(
            windows, Reported(win, [], rest), Whole(win, windows[|windows| - 1], KeptRows(rest)));
        }
      }
    }
  }

  lemma {:induction false} ReportedExact(win: Windowing, records: seq<Record>)
    ensures Reported(win, [], records) == Runs(win, KeptRows(records)) <==> PeeksRight(win, records)
  {
    var rows := KeptRows(records);
    ReportedWhole(win, [], records);
    if rows != [] {
      assert [] + Runs(win, rows)[0] == Runs(win, rows)[0];
      assert JoinFirst([], Runs(win, rows)) == Runs(win, rows);
    }
  }

  /** Records that begin with a value are peeked at rightly. */
  lemma {:induction false} HeadsWithValues(win: Windowing, records: seq<Record>)
    requires forall k :: 0 <= k < |records| ==> records[k] != [] && Cell(records[k][0], FIELD).Some?
    ensures PeeksRight(win, records)
  {
    if records != [] {
      HeadsWithValues(win, records[1..]);
      if |records| > 1 {
        var next := records[1];
        assert records[1..][0] == next && next == [next[0]] + next[1..];
        KeptConcat([next[0]], next[1..]);
        assert Kept([next[0]]) == [next[0]] by {
          assert [next[0]][..0] == [];
        }
        assert KeptRows(records[1..])[0] == next[0];
      }
    }
  }

  // ----- rows with values only

  ghost predicate AllDense(windows: seq<seq<Row>>) {
    forall k :: 0 <= k < |windows| ==> windows[k] != [] && Dense(windows[k], FIELD)
  }

  lemma {:induction false} DenseMiddle(a: seq<seq<Row>>, b: seq<seq<Row>>, c: seq<seq<Row>>)
    requires AllDense(a + b + c)
    ensures AllDense(b)
  {
    var all := a + b + c;
    forall k | 0 <= k < |b|
      ensures b[k] != [] && Dense(b[k], FIELD)
    {
      assert all[|a| + k] == b[k];
    }
  }

  lemma {:induction false} RunsDense(win: Windowing, rows: seq<Row>)
    requires Dense(rows, FIELD)
    ensures AllDense(Runs(win, rows))
  {
    RunsFlatten(win, rows);
    forall k | 0 <= k < |Runs(win, rows)|
      ensures Dense(Runs(win, rows)[k], FIELD)
    {
      DensePart(Runs(win, rows), FIELD, k);
    }
  }

  lemma {:induction false} JoinDense(carried: seq<Row>, parts: seq<seq<Row>>, same: bool)
    requires Dense(carried, FIELD) && parts != [] && AllDense(parts)
    ensures
      var windows := JoinFirst(carried, parts);
      AllDense(Closed(windows, same)) && Dense(StillOpen(windows, same), FIELD)
  {
  }

  lemma {:induction false} BothDense(a: seq<seq<Row>>, b: seq<seq<Row>>)
    requires AllDense(a) && AllDense(b)
    ensures AllDense(a + b)
  {
  }

  /** Only rows with values are reported. */
  lemma {:induction false} ReportedDense(win: Windowing, carried: seq<Row>, records: seq<Record>)
    requires Dense(carried, FIELD)
    ensures AllDense(Reported(win, carried, records))
    decreases |records|
  {
    if records != [] {
      var kept := Kept(records[0]);
      if kept == [] {
        ReportedDense(win, carried, records[1..]);
      } else {
        KeptMeaning(records[0]);
        RunsDense(win, kept);
        var windows, same := JoinFirst(carried, Runs(win, kept)), PeeksOn(win, kept, records[1..]);
        JoinDense(carried, Runs(win, kept), same);
        ReportedDense(win, StillOpen(windows, same), records[1..]);
        BothDense(Closed(windows, same), Reported(win, StillOpen(windows, same), records[1..]));
      }
    }
  }

  lemma {:induction false} DensePart(parts: seq<seq<Row>>, col: nat, k: nat)
    requires k < |parts| && Dense(Flatten(parts), col)
    ensures Dense(parts[k], col)
  {
    var whole := Flatten(parts);
    if k == 0 {
      assert forall i :: 0 <= i < |parts[0]| ==> parts[0][i] == whole[i];
    } else {
      var rest := Flatten(parts[1..]);
      assert forall i :: 0 <= i < |rest| ==> rest[i] == whole[|parts[0]| + i];
      DensePart(parts[1..], col, k - 1);
    }
  }

  // ----- records that are judged wrongly

  function WithValue(time: int): Row {
    Row(time, [Some(1)])
  }

  function WithoutValue(time: int): Row {
    Row(time, [None])
  }

  lemma {:induction false} KeptOfTwo(a: Row, b: Row)
    ensures Kept([a]) == if Cell(a, FIELD).Some? then [a] else []
    ensures Kept([a, b]) == Kept([a]) + Kept([b])
  {
    assert [a][..0] == [] && [b][..0] == [] && [a, b] == [a] + [b];
    KeptConcat([a], [b]);
  }

  /** A record that keeps one row. */
  lemma {:induction false} OneKept(win: Windowing, carried: seq<Row>, record: Record, row: Row, rest: seq<Record>)
    requires Kept(record) == [row]
    ensures Reported(win, carried, [record] + rest)
         == if PeeksOn(win, [row], rest) then Reported(win, carried + [row], rest)
            else [carried + [row]] + Reported(win, [], rest)
    ensures KeptRows([record] + rest) == [row] + KeptRows(rest)
  {
    var records := [record] + rest;
    assert records[0] == record && records[1..] == rest;
    assert [row][..0] == [];
    assert Runs(win, [row]) == [[row]];
    var windows := JoinFirst(carried, [[row]]);
    assert windows == [carried + [row]];
    assert Closed(windows, true) + Reported(win, carried + [row], rest) == Reported(win, carried + [row], rest);
  }

  /** A record that keeps none. */
  lemma {:induction false} NoneKept(win: Windowing, carried: seq<Row>, record: Record, rest: seq<Record>)
    requires Kept(record) == []
    ensures Reported(win, carried, [record] + rest) == Reported(win, carried, rest)
    ensures KeptRows([record] + rest) == KeptRows(rest)
  {
    var records := [record] + rest;
    assert records[0] == record && records[1..] == rest;
  }

  lemma {:induction false} LastOfTwoKept(win: Windowing, carried: seq<Row>, b: Row, c: Row)
    requires Cell(b, FIELD).None? && Cell(c, FIELD).Some?
    ensures Reported(win, carried, [[b, c]]) == [carried + [c]] && KeptRows([[b, c]]) == [c]
  {
    KeptOfTwo(b, c);
    KeptOfTwo(c, c);
    OneKept(win, carried, [b, c], c, []);
    assert [[b, c]] + [] == [[b, c]];
  }

  /** A null that begins the next record, in the window before it, merges that window with the next one. */
  lemma {:induction false} NullHeadMerges(win: Windowing, a: Row, b: Row, c: Row)
    requires Cell(a, FIELD).Some? && Cell(b, FIELD).None? && Cell(c, FIELD).Some?
    requires win(a.time) == win(b.time) != win(c.time)
    ensures !PeeksRight(win, [[a], [b, c]]) && Reported(win, [], [[a], [b, c]]) == [[a, c]]
  {
    var rest: seq<Record> := [[b, c]];
    KeptOfTwo(a, a);
    LastOfTwoKept(win, [a], b, c);
    OneKept(win, [], [a], a, rest);
    assert [[a]] + rest == [[a], [b, c]] && [] + [a] == [a] && [a] + [c] == [a, c];
    assert PeeksOn(win, [a], rest) && !ReallyGoesOn(win, [a], rest);
    assert [[a], [b, c]][1..] == rest;
  }

  /** Windows of 10, a row at 1, and a record with a null at 2 and a value at 11: the two windows become one. */
  lemma {:induction false} NullHeadMergesWindows()
    ensures
      var records := [[WithValue(1)], [WithoutValue(2), WithValue(11)]];
      !PeeksRight(Aligned(10), records) && Reported(Aligned(10), [], records) == [[WithValue(1), WithValue(11)]]
  {
    NullHeadMerges(Aligned(10), WithValue(1), WithoutValue(2), WithValue(11));
  }

  /** A last record of a null alone, in the window before it, holds that window open and it is never reported. */
  lemma {:induction false} NullTailLoses(win: Windowing, a: Row, b: Row)
    requires Cell(a, FIELD).Some? && Cell(b, FIELD).None? && win(a.time) == win(b.time)
    ensures !PeeksRight(win, [[a], [b]]) && Reported(win, [], [[a], [b]]) == []
  {
    var rest: seq<Record> := [[b]];
    KeptOfTwo(a, a);
    KeptOfTwo(b, b);
    NoneKept(win, [a], [b], []);
    assert [[b]] + [] == rest;
    OneKept(win, [], [a], a, rest);
    assert [[a]] + rest == [[a], [b]] && [] + [a] == [a];
    assert PeeksOn(win, [a], rest);
    assert [[a], [b]][1..] == rest;
  }

  /** A row at 1 and a record with nothing but a null at 2. */
  lemma {:induction false} NullTailLosesWindow()
    ensures
      var records := [[WithValue(1)], [WithoutValue(2)]];
      !PeeksRight(Aligned(10), records) && Reported(Aligned(10), [], records) == []
  {
    NullTailLoses(Aligned(10), WithValue(1), WithoutValue(2));
  }

  /** An empty record inside a window cuts it in two. */
  lemma {:induction false} EmptyRecordSplits(win: Windowing, a: Row, b: Row)
    requires Cell(a, FIELD).Some? && Cell(b, FIELD).Some? && win(a.time) == win(b.time)
    ensures !PeeksRight(win, [[a], [], [b]]) && Reported(win, [], [[a], [], [b]]) == [[a], [b]]
  {
    var rest: seq<Record> := [[], [b]];
    KeptOfTwo(a, a);
    KeptOfTwo(b, b);
    OneKept(win, [], [b], b, []);
    assert [[b]] + [] == [[b]] && [] + [b] == [b];
    NoneKept(win, [], [], [[b]]);
    assert [[]] + [[b]] == rest;
    OneKept(win, [], [a], a, rest);
    assert [[a]] + rest == [[a], [], [b]] && [] + [a] == [a];
    assert ReallyGoesOn(win, [a], rest);
    assert [[a], [], [b]][1..] == rest;
  }

  /** Windows of 10 and rows at 1 and 2 with an empty record between them: one window is reported twice. */
  lemma {:induction false} EmptyRecordSplitsWindow()
    ensures
      var records := [[WithValue(1)], [], [WithValue(2)]];
      && !PeeksRight(Aligned(10), records)
      && Reported(Aligned(10), [], records) == [[WithValue(1)], [WithValue(2)]]
  {
    EmptyRecordSplits(Aligned(10), WithValue(1), WithValue(2));
  }
}
