/** How a stream of records is cut into windows when each record only sees the one after it. */
module Grouping {
  import opened Records
  import opened Windows

  /** The windows of a record when the first one continues the carried rows. */
  function JoinFirst(carried: seq<Row>, parts: seq<seq<Row>>): seq<seq<Row>>
    requires parts != []
  {
    [carried + parts[0]] + parts[1..]
  }

  /** The windows a record finishes ... */
  function Closed(windows: seq<seq<Row>>, sameWindow: bool): seq<seq<Row>> {
    if sameWindow && windows != [] then windows[..|windows| - 1] else windows
  }

  /** ... and the rows it leaves to be continued. */
  function StillOpen(windows: seq<seq<Row>>, sameWindow: bool): seq<Row> {
    if sameWindow && windows != [] then windows[|windows| - 1] else []
  }

  /** The cursor's test on the record it peeked at: does the last window of `current` go on?
      An empty record is taken to continue it. */
  predicate GoesOn(win: Windowing, current: Record, rest: seq<Record>)
    requires current != []
  {
    rest != [] && (rest[0] == [] || Continues(win, current, rest[0][0]))
  }

  /** The test as the cursor performs it, with the bounds of the next row's window. */
  method Peek(interval: nat, current: Record, rest: seq<Record>) returns (sameWindow: bool)
    requires current != []
    ensures sameWindow == GoesOn(Aligned(interval), current, rest)
  {
    if rest == [] {
      return false;
    }
    if rest[0] == [] || interval == 0 {
      return true;
    }
    var lastTime := current[|current| - 1].time;
    var startTime := WindowStart(interval, rest[0][0].time);
    var endTime := startTime + interval;
    InWindow(interval, rest[0][0].time, lastTime);
    return startTime <= lastTime < endTime;
  }

  /** The windows the cursor will finish, from a state with `carried` open and `records` to come. */
  function Groups(win: Windowing, carried: seq<Row>, records: seq<Record>): seq<seq<Row>>
    decreases |records|
  {
    if records == [] then []
    else if records[0] == [] then Groups(win, carried, records[1..])
    else
      var windows := JoinFirst(carried, Runs(win, records[0]));
      var same := GoesOn(win, records[0], records[1..]);
      Closed(windows, same) + Groups(win, StillOpen(windows, same), records[1..])
  }

  lemma {:induction false} GroupsStep(win: Windowing, carried: seq<Row>, record: Record, rest: seq<Record>)
    requires record != []
    ensures
      var windows, same := JoinFirst(carried, Runs(win, record)), GoesOn(win, record, rest);
      Groups(win, carried, [record] + rest) == Closed(windows, same) + Groups(win, StillOpen(windows, same), rest)
  {
    assert ([record] + rest)[1..] == rest;
  }

  /** The windows finished so far and those to come. */
  ghost predicate Splits(
    win: Windowing, total: seq<seq<Row>>, closed: seq<seq<Row>>, carried: seq<Row>, records: seq<Record>
  ) {
    total == closed + Groups(win, carried, records)
  }

  lemma {:induction false} SplitsStart(win: Windowing, records: seq<Record>)
    ensures Splits(win, Groups(win, [], records), [], [], records[0..])
  {
    assert records[0..] == records && [] + Groups(win, [], records) == Groups(win, [], records);
  }

  /** An empty record changes nothing ... */
  lemma {:induction false} SplitsSkip(
    win: Windowing, total: seq<seq<Row>>, closed: seq<seq<Row>>, carried: seq<Row>, rest: seq<Record>
  )
    requires Splits(win, total, closed, carried, [[]] + rest)
    ensures Splits(win, total, closed, carried, rest)
  {
    assert ([[]] + rest)[1..] == rest;
  }

  /** ... and after the last one all windows are finished. */
  lemma {:induction false} SplitsEnd(
    win: Windowing, total: seq<seq<Row>>, closed: seq<seq<Row>>, carried: seq<Row>, rest: seq<Record>
  )
    requires Splits(win, total, closed, carried, rest) && rest == []
    ensures closed == total
  {
    assert closed + [] == closed;
  }

  lemma {:induction false} GroupsGoOn(
    win: Windowing, total: seq<seq<Row>>, closed: seq<seq<Row>>, carried: seq<Row>, record: Record, rest: seq<Record>
  )
    requires record != [] && Splits(win, total, closed, carried, [record] + rest)
    ensures
      var windows, same := JoinFirst(carried, Runs(win, record)), GoesOn(win, record, rest);
      Splits(win, total, closed + Closed(windows, same), StillOpen(windows, same), rest)
  {
    GroupsStep(win, carried, record, rest);
    var windows, same := JoinFirst(carried, Runs(win, record)), GoesOn(win, record, rest);
    Associate(closed, Closed(windows, same), Groups(win, StillOpen(windows, same), rest));
  }

  /** The computed window index cuts the record into its runs. */
  lemma {:induction false} IndexIsRight(interval: nat, record: Record)
    requires 0 < |record| <= MAX_INDEX
    ensures
      var index := Wrapped(Starts(Aligned(interval), record));
      IsIndex(record, index) && Slices(record, index) == Runs(Aligned(interval), record)
  {
    WrapIsHarmless(Aligned(interval), record);
    StartsCutRuns(Aligned(interval), record);
  }

  // ----- when the grouping is the true one

  /** The first row still to come. */
  function FirstRow(records: seq<Record>): Option<Row> {
    if records == [] then None
    else if records[0] != [] then Some(records[0][0])
    else FirstRow(records[1..])
  }

  /** The peek answers wrongly: the next record is empty, and the first row after it
      lies in another window or does not exist. */
  predicate Misjudged(win: Windowing, current: Record, rest: seq<Record>)
    requires current != []
  {
    && rest != [] && rest[0] == []
    && (FirstRow(rest).None? || !Continues(win, current, FirstRow(rest).value))
  }

  function Misjudgements(win: Windowing, records: seq<Record>): nat {
    if records == [] then 0
    else
      Misjudgements(win, records[1..])
      + if records[0] != [] && Misjudged(win, records[0], records[1..]) then 1 else 0
  }

  lemma {:induction false} FirstRowOfFlatten(records: seq<Record>)
    ensures FirstRow(records).None? <==> Flatten(records) == []
    ensures FirstRow(records).Some? ==> Flatten(records)[0] == FirstRow(records).value
  {
    if records != [] && records[0] == [] {
      FirstRowOfFlatten(records[1..]);
    }
  }

  /** What is to come, computed on all remaining rows at once: the carried rows belong to
      the window of the first row to come. */
  function Whole(win: Windowing, carried: seq<Row>, rows: seq<Row>): seq<seq<Row>> {
    if rows == [] then [] else JoinFirst(carried, Runs(win, rows))
  }

  /** The peek says the window goes on when it does, and also when it is misjudged. */
  lemma {:induction false} PeekVerdict(win: Windowing, current: Record, rest: seq<Record>)
    requires current != []
    ensures
      var later := Flatten(rest);
      && GoesOn(win, current, rest)
         == ((later != [] && Continues(win, current, later[0])) || Misjudged(win, current, rest))
      && !(later != [] && Continues(win, current, later[0]) && Misjudged(win, current, rest))
  {
    FirstRowOfFlatten(rest);
  }

  /** Row counts: every misjudged record costs exactly one output row. */
  lemma {:induction false} GroupsCount(win: Windowing, carried: seq<Row>, records: seq<Record>)
    ensures |Groups(win, carried, records)| + Misjudgements(win, records) == |Runs(win, Flatten(records))|
    decreases |records|
  {
    if records != [] {
      var first, rest := records[0], records[1..];
      if first != [] {
        var windows := JoinFirst(carried, Runs(win, first));
        var same := GoesOn(win, first, rest);
        GroupsCount(win, StillOpen(windows, same), rest);
        assert |Runs(win, Flatten(records))| == |Runs(win, first)| + |Runs(win, Flatten(rest))|
               + (if Misjudged(win, first, rest) then 1 else 0) - if same then 1 else 0 by {
          RunsCount(win, first, Flatten(rest));
          PeekVerdict(win, first, rest);
        }
        assert |Closed(windows, same)| == |Runs(win, first)| - if same then 1 else 0;
      } else {
        GroupsCount(win, carried, rest);
        assert Flatten(records) == Flatten(rest);
      }
    }
  }

  lemma {:induction false} RunsCount(win: Windowing, a: seq<Row>, b: seq<Row>)
    requires a != []
    ensures |Runs(win, a + b)|
         == |Runs(win, a)| + |Runs(win, b)| - if b != [] && Continues(win, a, b[0]) then 1 else 0
  {
    if b == [] {
      assert a + b == a;
    } else {
      RunsConcat(win, a, b);
    }
  }

  /** The cursor groups rows into their true windows exactly when no peek was misjudged. */
  lemma {:induction false} GroupsAreRuns(win: Windowing, records: seq<Record>)
    ensures Groups(win, [], records) == Runs(win, Flatten(records)) <==> Misjudgements(win, records) == 0
  {
    GroupsCount(win, [], records);
    if Misjudgements(win, records) == 0 {
      GroupsWhole(win, [], records);
      var rows := Flatten(records);
      if rows != [] {
        assert [] + Runs(win, rows)[0] == Runs(win, rows)[0];
        assert JoinFirst([], Runs(win, rows)) == Runs(win, rows);
      }
    }
  }

  lemma {:induction false} GroupsWhole(win: Windowing, carried: seq<Row>, records: seq<Record>)
    requires Misjudgements(win, records) == 0
    ensures Groups(win, carried, records) == Whole(win, carried, Flatten(records))
    decreases |records|
  {
    if records != [] {
      var first, rest := records[0], records[1..];
      var later := Flatten(rest);
      if first == [] {
        GroupsWhole(win, carried, rest);
        assert Flatten(records) == later;
      } else {
        var windows := JoinFirst(carried, Runs(win, first));
        var same := GoesOn(win, first, rest);
        GroupsWhole(win, StillOpen(windows, same), rest);
        PeekVerdict(win, first, rest);
        if later == [] {
          assert first + later == first;
        } else {
          RunsConcat(win, first, later);
          JoinGlue(carried, Runs(win, first), Runs(win, later), same);
        }
      }
    }
  }

  lemma {:induction false} JoinGlue(carried: seq<Row>, a: seq<seq<Row>>, b: seq<seq<Row>>, join: bool)
    requires a != [] && b != []
    ensures Glue(a, b, join) != []
    ensures
      var windows := JoinFirst(carried, a);
      JoinFirst(carried, Glue(a, b, join)) == Closed(windows, join) + JoinFirst(StillOpen(windows, join), b)
  {
    var windows := JoinFirst(carried, a);
    var l, r := JoinFirst(carried, Glue(a, b, join)), Closed(windows, join) + JoinFirst(StillOpen(windows, join), b);
    if join && |a| == 1 {
      assert carried + (a[0] + b[0]) == (carried + a[0]) + b[0];
    }
    assert |l| == |r|;
    assert forall k :: 0 <= k < |l| ==> l[k] == r[k];
  }

  /** Windows of 10 and rows at 1 and 11 with an empty record between them: the two windows become one. */
  lemma {:induction false} EmptyRecordMergesWindows()
    ensures
      var records := [[Row(1, [])], [], [Row(11, [])]];
      && Misjudgements(Aligned(10), records) == 1
      && Groups(Aligned(10), [], records) != Runs(Aligned(10), Flatten(records))
  {
    var win, records := Aligned(10), [[Row(1, [])], [], [Row(11, [])]];
    var last: seq<Record> := [[Row(11, [])]];
    assert records[1..] == [[], [Row(11, [])]] && records[1..][1..] == last && last[1..] == [];
    assert FirstRow(last) == Some(Row(11, [])) && FirstRow(records[1..]) == Some(Row(11, []));
    assert win(1) == 0 && win(11) == 10;
    assert Misjudgements(win, last) == 0 && Misjudgements(win, records[1..]) == 0;
    GroupsAreRuns(win, records);
  }
}
