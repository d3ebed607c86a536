/** Writing a record over shard groups: planning the groups of its time range and cutting it at their ends. */
module ShardSplit {
  import opened Records
  import opened Windows

  /** A shard group holds the times from `start` up to `end`. */
  datatype Group = Group(start: int, end: int)

  predicate Contains(g: Group, t: int) {
    g.start <= t < g.end
  }

  /** One write: the rows that went to a group. */
  datatype Write = Write(group: Group, rows: Record)

  /** How a write ends. `Warned` returns an error to the caller; `Panicked` is a read past the last row, or a
      plan of fewer than no groups. */
  datatype Outcome = Written | Warned | Panicked

  // ----- planning

  /** Times are cut down to whole durations, counted from an origin. */
  function Truncate(origin: int, duration: nat, t: int): int
    requires duration > 0
  {
    t - (t - origin) % duration
  }

  /** Division that rounds to zero. */
  function Quotient(a: int, b: nat): int
    requires b > 0
  {
    if a >= 0 then a / b else -(-a / b)
  }

  function PlannedNum(origin: int, duration: nat, first: int, last: int): int
    requires duration > 0
  {
    Quotient(last - Truncate(origin, duration, first), duration) + 1
  }

  lemma {:induction false} TruncateNext(origin: int, duration: nat, t: int)
    requires duration > 0
    ensures Truncate(origin, duration, t) <= t < Truncate(origin, duration, t) + duration
    ensures Truncate(origin, duration, t + duration) == Truncate(origin, duration, t) + duration
    ensures (Truncate(origin, duration, t) - origin) % duration == 0
  {
    var d, q, r := t - origin, (t - origin) / duration, (t - origin) % duration;
    var q', r' := (d + duration) / duration, (d + duration) % duration;
    assert d == duration * q + r && d + duration == duration * q' + r';
    assert duration * (q + 1) == duration * q + duration;
    MulMonotone(duration, q + 1, q');
    MulMonotone(duration, q', q + 1);
    WholeMultiple(duration, q);
  }

  lemma {:induction false} WholeMultiple(duration: nat, q: int)
    requires duration > 0
    ensures (duration * q) % duration == 0
  {
    var k, r := duration * q / duration, duration * q % duration;
    assert duration * q == duration * k + r;
    MulMonotone(duration, q, k);
    MulMonotone(duration, k, q);
  }

  /** Groups that follow each other without a gap. */
  ghost predicate Chain(groups: seq<Group>) {
    && (forall i :: 0 <= i < |groups| ==> groups[i].start < groups[i].end)
    && (forall i, j :: 0 <= i < j < |groups| ==> groups[i].end <= groups[j].start)
    && (forall i, j :: 0 <= i < j < |groups| && j == i + 1 ==> groups[i].end == groups[j].start)
  }

  /** Groups of one duration. */
  ghost predicate Even(groups: seq<Group>, duration: nat) {
    forall i :: 0 <= i < |groups| ==> groups[i].end == groups[i].start + duration
  }

  /** One duration later begins the next group. */
  ghost predicate Regular(start: Windowing, duration: nat) {
    forall t, u :: u == t + duration ==> start(u) == start(t) + duration
  }

  lemma {:induction false} ChainNext(gs: seq<Group>, g: Group, duration: nat)
    requires duration > 0 && Chain(gs) && Even(gs, duration) && g.end == g.start + duration
    requires gs != [] ==> gs[|gs| - 1].end == g.start
    ensures Chain(gs + [g]) && Even(gs + [g], duration)
  {
    var all, n := gs + [g], |gs|;
    forall i, j | 0 <= i < j < |all|
      ensures all[i].end <= all[j].start && (j == i + 1 ==> all[i].end == all[j].start)
    {
      if j < n {
        assert all[i] == gs[i] && all[j] == gs[j];
      } else if i < n - 1 {
        assert gs[i].end <= gs[n - 1].start;
      }
    }
  }

  /** One group after the other, each found or created for a time one duration later. */
  method CreateGroups(start: Windowing, duration: nat, first: int, num: nat) returns (gs: seq<Group>)
    requires duration > 0 && Regular(start, duration)
    ensures |gs| == num && Chain(gs) && Even(gs, duration)
    ensures gs != [] ==> gs[0].start == start(first) && gs[|gs| - 1].end == start(first) + num * duration
  {
    gs := [];
    var t := first;
    for i := 0 to num
      invariant |gs| == i && Chain(gs) && Even(gs, duration) && start(t) == start(first) + i * duration
      invariant gs != [] ==> gs[|gs| - 1].end == start(t)
      invariant gs != [] ==> gs[0].start == start(first)
    {
      assert (i + 1) * duration == i * duration + duration;
      ChainNext(gs, Group(start(t), start(t) + duration), duration);
      gs := gs + [Group(start(t), start(t) + duration)];
      t := t + duration;
    }
  }

  /** The groups of a time range; nothing when the number of groups comes out negative. */
  method CreateShardGroupsByTimeRange(origin: int, duration: nat, first: int, last: int)
    returns (groups: Option<seq<Group>>)
    requires duration > 0
    ensures groups.None? <==> PlannedNum(origin, duration, first, last) < 0
    ensures groups.Some? ==>
        var gs, base := groups.value, Truncate(origin, duration, first);
        && |gs| == PlannedNum(origin, duration, first, last) && Chain(gs) && Even(gs, duration)
        && (gs != [] ==> gs[0].start == base && gs[|gs| - 1].end == base + |gs| * duration)
  {
    var num := PlannedNum(origin, duration, first, last);
    if num < 0 {
      return None;
    }
    var start := Truncated(origin, duration);
    TruncatedIsRegular(origin, duration);
    var gs := CreateGroups(start, duration, first, num);
    groups := Some(gs);
  }

  function Truncated(origin: int, duration: nat): Windowing
    requires duration > 0
  {
    t => Truncate(origin, duration, t)
  }

  lemma {:induction false} TruncatedIsRegular(origin: int, duration: nat)
    requires duration > 0
    ensures Regular(Truncated(origin, duration), duration)
  {
    var start := Truncated(origin, duration);
    forall t, u | u == t + duration
      ensures start(u) == start(t) + duration
    {
      TruncateNext(origin, duration, t);
    }
  }

  /** When the last time is not before the first, the groups reach from the first time to the last. */
  lemma {:induction false} PlanCovers(origin: int, duration: nat, first: int, last: int)
    requires duration > 0 && first <= last
    ensures
      var base, n := Truncate(origin, duration, first), PlannedNum(origin, duration, first, last);
      && n > 0 && base + (n - 1) * duration <= last < base + n * duration
      && Truncate(origin, duration, last) == base + (n - 1) * duration
  {
    var base := Truncate(origin, duration, first);
    TruncateNext(origin, duration, first);
    var d := last - base;
    assert d == duration * (d / duration) + d % duration;
    var n := d / duration + 1;
    assert (n - 1) * duration == duration * (d / duration) && n * duration == (n - 1) * duration + duration;
    SameMultiple(origin, duration, first, last, d / duration);
  }

  /** When the last time lies before the first group, the number of groups is 1 less the whole durations between. */
  lemma {:induction false} PlanOfBackward(origin: int, duration: nat, first: int, last: int)
    requires duration > 0 && last < Truncate(origin, duration, first)
    ensures
      var base, n := Truncate(origin, duration, first), PlannedNum(origin, duration, first, last);
      n <= 1 && (1 - n) * duration <= base - last < (2 - n) * duration
  {
    var d := Truncate(origin, duration, first) - last;
    var k := d / duration;
    assert d == duration * k + d % duration;
    assert k * duration == duration * k && (k + 1) * duration == duration * k + duration;
  }

  lemma {:induction false} SameMultiple(origin: int, duration: nat, first: int, last: int, k: int)
    requires duration > 0
    requires
      var base := Truncate(origin, duration, first);
      base + duration * k <= last < base + duration * k + duration
    ensures Truncate(origin, duration, last) == Truncate(origin, duration, first) + duration * k
  {
    var d, e := first - origin, last - origin;
    var p, q := d / duration, e / duration;
    assert d == duration * p + d % duration && e == duration * q + e % duration;
    assert duration * (p + k) == duration * p + duration * k;
    MulMonotone(duration, p + k, q);
    MulMonotone(duration, q, p + k);
  }

  // ----- cutting

  /** The first row from `i` on that is not before x. */
  function Below(rows: Record, x: int, i: nat): (k: nat)
    requires i <= |rows|
    ensures i <= k <= |rows|
    ensures forall j :: i <= j < k ==> rows[j].time < x
    ensures k < |rows| ==> rows[k].time >= x
    decreases |rows| - i
  {
    if i == |rows| || rows[i].time >= x then i else Below(rows, x, i + 1)
  }

  /** In an ascending record a bound that splits it is the first row not before x. */
  lemma {:induction false} BelowIs(rows: Record, x: int, i: nat, k: nat)
    requires Ascending(rows) && i <= k <= |rows|
    requires (k > i ==> rows[k - 1].time < x) && (k < |rows| ==> rows[k].time >= x)
    ensures Below(rows, x, i) == k
  {
  }

  predicate NotInShardDuration(rows: Record, g: Group, start: nat) {
    start >= |rows| || rows[start].time >= g.end || rows[|rows| - 1].time < g.start
  }

  /** How many rows from `start` on belong to a group, by binary search for its end. */
  method SearchLowerBoundOfRec(rows: Record, g: Group, start: nat) returns (interval: int)
    requires Ascending(rows)
    ensures interval == -1 <==> NotInShardDuration(rows, g, start)
    ensures interval != -1 ==> interval > 0 && start + interval == Below(rows, g.end, start)
  {
    if |rows| - start <= 0 || rows[start].time >= g.end || rows[|rows| - 1].time < g.start {
      return -1;
    }
    var i, j := 0, |rows| - start;
    while i < j
      invariant 0 <= i <= j <= |rows| - start
      invariant i > 0 ==> rows[start + i - 1].time < g.end
      invariant start + j < |rows| ==> rows[start + j].time >= g.end
    {
      var h := (i + j) / 2;
      if rows[start + h].time >= g.end {
        j := h;
      } else {
        i := h + 1;
      }
    }
    BelowIs(rows, g.end, start, start + i);
    interval := i;
  }

  function WrittenRows(writes: seq<Write>): Record {
    if writes == [] then [] else WrittenRows(writes[..|writes| - 1]) + writes[|writes| - 1].rows
  }

  ghost predicate InGroup(w: Write) {
    forall k :: 0 <= k < |w.rows| ==> Contains(w.group, w.rows[k].time)
  }

  /** Every row is written once, in order, and to the group that contains its time. */
  ghost predicate Right(rows: Record, writes: seq<Write>) {
    WrittenRows(writes) == rows && forall k :: 0 <= k < |writes| ==> InGroup(writes[k])
  }

  /** The groups reach from before the first row to after the last one. */
  ghost predicate Covers(groups: seq<Group>, rows: Record)
    requires rows != []
  {
    groups != [] && groups[0].start <= rows[0].time && rows[|rows| - 1].time < groups[|groups| - 1].end
  }

  /** All rows lie before the first group. */
  ghost predicate Late(groups: seq<Group>, rows: Record) {
    rows != [] && groups != [] && rows[|rows| - 1].time < groups[0].start
  }

  /** A write to a group of the plan; only the first group can receive rows from before its start. */
  ghost predicate Planned(groups: seq<Group>, rows: Record, w: Write) {
    && w.rows != [] && w.group in groups && rows != []
    && (forall k :: 0 <= k < |w.rows| ==> rows[0].time <= w.rows[k].time < w.group.end)
    && (w.group == groups[0] || InGroup(w))
  }

  /** Where the cut after i groups is. */
  ghost function CutAt(groups: seq<Group>, rows: Record, i: nat): nat
    requires i <= |groups|
  {
    if i == 0 || Late(groups, rows) then 0 else Below(rows, groups[i - 1].end, 0)
  }

  ghost predicate Split(groups: seq<Group>, rows: Record, i: nat, start: nat, writes: seq<Write>) {
    && i <= |groups| && start == CutAt(groups, rows, i) <= |rows|
    && WrittenRows(writes) == rows[..start]
    && forall k :: 0 <= k < |writes| ==> Planned(groups, rows, writes[k])
  }

  /** A group is skipped exactly when the cut does not move. */
  lemma {:induction false} CutMoves(groups: seq<Group>, rows: Record, i: nat)
    requires Chain(groups) && Ascending(rows) && rows != [] && i < |groups|
    ensures
      var start, next := CutAt(groups, rows, i), CutAt(groups, rows, i + 1);
      && (NotInShardDuration(rows, groups[i], start) ==> next == start)
      && (!NotInShardDuration(rows, groups[i], start) ==> next == Below(rows, groups[i].end, start) > start)
      && (!Late(groups, rows) && i > 0 && start < |rows| ==> groups[i].start <= rows[start].time)
  {
    var start := CutAt(groups, rows, i);
    if !Late(groups, rows) {
      if i > 0 {
        assert groups[i - 1].end == groups[i].start;
      }
      if start < |rows| {
        assert rows[start].time <= rows[|rows| - 1].time;
        BelowFurther(rows, groups[i].end, start);
      }
    }
  }

  lemma {:induction false} BelowFurther(rows: Record, x: int, start: nat)
    requires Ascending(rows) && start < |rows| && (start > 0 ==> rows[start - 1].time < x)
    ensures Below(rows, x, 0) == Below(rows, x, start)
  {
    BelowIs(rows, x, 0, Below(rows, x, start));
  }

  /** The rows of one group. */
  method WriteGroup(groups: seq<Group>, rows: Record, i: nat, start: nat, writes: seq<Write>)
    returns (start': nat, writes': seq<Write>, skipped: bool)
    requires Chain(groups) && Ascending(rows) && rows != [] && i < |groups| && Split(groups, rows, i, start, writes)
    ensures Split(groups, rows, i + 1, start', writes')
    ensures skipped <==> NotInShardDuration(rows, groups[i], start)
  {
    CutMoves(groups, rows, i);
    var interval := SearchLowerBoundOfRec(rows, groups[i], start);
    if interval == -1 {
      return start, writes, true;
    }
    var end: nat := start + interval;
    var w := Write(groups[i], rows[start..end]);
    WriteNext(writes, w);
    assert rows[..end] == rows[..start] + rows[start..end];
    PlannedWrite(groups, rows, i, start, end);
    return end, writes + [w], false;
  }

  lemma {:induction false} WriteNext(writes: seq<Write>, w: Write)
    ensures WrittenRows(writes + [w]) == WrittenRows(writes) + w.rows
  {
    assert (writes + [w])[..|writes|] == writes;
  }

  lemma {:induction false} PlannedWrite(groups: seq<Group>, rows: Record, i: nat, start: nat, end: nat)
    requires Chain(groups) && Ascending(rows) && i < |groups| && start < end <= |rows|
    requires end == Below(rows, groups[i].end, start) && (i > 0 ==> groups[i].start <= rows[start].time)
    ensures Planned(groups, rows, Write(groups[i], rows[start..end]))
  {
  }

  lemma {:induction false} FirstWritten(writes: seq<Write>)
    requires writes != [] && writes[0].rows != []
    ensures WrittenRows(writes) != [] && WrittenRows(writes)[0] == writes[0].rows[0]
  {
    if |writes| == 1 {
      assert WrittenRows(writes[..0]) == [];
    } else {
      FirstWritten(writes[..|writes| - 1]);
    }
  }

  /** All rows went where they belong exactly when the groups cover them. */
  lemma {:induction false} SplitIsRight(groups: seq<Group>, rows: Record, i: nat, start: nat, writes: seq<Write>)
    requires Chain(groups) && Ascending(rows) && rows != [] && Split(groups, rows, i, start, writes)
    requires i == |groups| || start == |rows|
    ensures Right(rows, writes) <==> Covers(groups, rows)
  {
    assert start == |rows| ==> rows[..start] == rows;
    if Covers(groups, rows) {
      assert rows[0].time <= rows[|rows| - 1].time;
      assert start == |rows|;
    }
    if Right(rows, writes) {
      assert |rows[..start]| == |rows|;
      if writes != [] {
        FirstWritten(writes);
        assert InGroup(writes[0]);
      }
    }
  }

  /** A group that no row falls into. */
  ghost predicate Unused(rows: Record, g: Group) {
    forall k :: 0 <= k < |rows| ==> !Contains(g, rows[k].time)
  }

  /** A group that gets no rows: no row lies in it, nor before it if it is the first; or all rows lie before all
      groups. */
  ghost predicate Bare(groups: seq<Group>, rows: Record, i: nat)
    requires i < |groups|
  {
    || Late(groups, rows)
    || forall k :: 0 <= k < |rows| ==> rows[k].time >= groups[i].end || (i > 0 && rows[k].time < groups[i].start)
  }

  ghost predicate SomeBare(groups: seq<Group>, rows: Record, n: nat)
    requires n <= |groups|
  {
    exists k :: 0 <= k < n && Bare(groups, rows, k)
  }

  /** The last row lies before the last group, but not before all of them. */
  predicate Overshoots(groups: seq<Group>, rows: Record)
    requires rows != []
  {
    groups != [] && groups[0].start <= rows[|rows| - 1].time < groups[|groups| - 1].start
  }

  lemma {:induction false} SkippedIsBare(groups: seq<Group>, rows: Record, i: nat)
    requires Chain(groups) && Ascending(rows) && rows != [] && i < |groups| && CutAt(groups, rows, i) < |rows|
    ensures NotInShardDuration(rows, groups[i], CutAt(groups, rows, i)) <==> Bare(groups, rows, i)
  {
    var start := CutAt(groups, rows, i);
    if Late(groups, rows) {
      assert i > 0 ==> groups[0].start < groups[0].end <= groups[i].start;
    } else {
      CutMoves(groups, rows, i);
      if i > 0 {
        assert groups[i - 1].end == groups[i].start;
      }
      assert start > 0 ==> rows[start - 1].time < groups[i].start;
      assert i > 0 ==> groups[i].start <= rows[start].time;
      if rows[start].time >= groups[i].end {
        assert forall k :: start <= k < |rows| ==> rows[start].time <= rows[k].time;
        assert forall k :: 0 <= k < start ==> rows[k].time <= rows[start - 1].time;
      } else {
        assert !Bare(groups, rows, i);
        NotBefore(groups, rows, i, start);
      }
    }
  }

  lemma {:induction false} NotBefore(groups: seq<Group>, rows: Record, i: nat, start: nat)
    requires Chain(groups) && Ascending(rows) && i < |groups| && start < |rows| && !Late(groups, rows)
    requires i > 0 ==> groups[i].start <= rows[start].time
    ensures rows[|rows| - 1].time >= groups[i].start
  {
    assert rows[start].time <= rows[|rows| - 1].time;
  }

  /** The rows are used up before the last group exactly when the plan overshoots. */
  lemma {:induction false} UsedUpEarly(groups: seq<Group>, rows: Record, i: nat)
    requires Chain(groups) && Ascending(rows) && rows != [] && i < |groups|
    ensures CutAt(groups, rows, i) == |rows| ==> Overshoots(groups, rows)
    ensures i + 1 == |groups| && Overshoots(groups, rows) ==> CutAt(groups, rows, i) == |rows|
  {
    var last := rows[|rows| - 1].time;
    if i > 0 && !Late(groups, rows) {
      assert groups[i - 1].end == groups[i].start;
      assert i + 1 < |groups| ==> groups[i].end <= groups[|groups| - 1].start;
    }
  }

  /** Cutting a record at the ends of its groups. */
  method SplitAndWriteByShard(groups: seq<Group>, rows: Record) returns (writes: seq<Write>, outcome: Outcome)
    requires Chain(groups) && Ascending(rows) && rows != []
    ensures Right(rows, writes) <==> Covers(groups, rows)
    ensures outcome == Ending(groups, rows)
  {
    writes, outcome := [], Written;
    var start: nat, i: nat := 0, 0;
    while i < |groups|
      invariant 0 <= i <= |groups| && Split(groups, rows, i, start, writes)
      invariant outcome == if SomeBare(groups, rows, i) then Warned else Written
      invariant i == |groups| ==> !Overshoots(groups, rows)
    {
      UsedUpEarly(groups, rows, i);
      if start < |rows| {
        SkippedIsBare(groups, rows, i);
      }
      var skipped;
      ghost var before := start;
      start, writes, skipped := WriteGroup(groups, rows, i, start, writes);
      if skipped {
        assert start == before;
        if start >= |rows| {
          SplitIsRight(groups, rows, i + 1, start, writes);
          return writes, Panicked;
        }
        outcome := Warned;
      }
      BareNext(groups, rows, i);
      i := i + 1;
    }
    SplitIsRight(groups, rows, i, start, writes);
  }

  lemma {:induction false} BareNext(groups: seq<Group>, rows: Record, i: nat)
    requires i < |groups|
    ensures SomeBare(groups, rows, i + 1) <==> SomeBare(groups, rows, i) || Bare(groups, rows, i)
  {
  }

  ghost function Ending(groups: seq<Group>, rows: Record): Outcome
    requires rows != []
  {
    if Overshoots(groups, rows) then Panicked else if SomeBare(groups, rows, |groups|) then Warned else Written
  }

  // ----- the two ways to write a record

  /** What the groups of a plan are to the rows they were planned for: the last group does not begin after the last
      row, and the first has a row. */
  lemma {:induction false} OwnPlanEnds(groups: seq<Group>, rows: Record, k: nat)
    requires Chain(groups) && rows != [] && Ascending(rows)
    requires groups != [] ==>
      && groups[|groups| - 1].start <= rows[|rows| - 1].time && k < |rows| && Contains(groups[0], rows[k].time)
    ensures Ending(groups, rows)
         == if exists i :: 0 <= i < |groups| && Unused(rows, groups[i]) then Warned else Written
  {
    if groups != [] {
      assert rows[k].time <= rows[|rows| - 1].time;
      forall i | 0 <= i < |groups|
        ensures Bare(groups, rows, i) <==> Unused(rows, groups[i])
      {
        if i == 0 {
          assert !Unused(rows, groups[0]) && !Bare(groups, rows, 0);
        }
      }
    }
  }

  /** A log record is sorted before its groups are planned: all its rows are written where they belong. The
      caller gets an error all the same when a planned group has no row. */
  method WriteLogRecord(origin: int, duration: nat, rows: Record)
    returns (groups: seq<Group>, writes: seq<Write>, outcome: Outcome)
    requires duration > 0 && Ascending(rows) && rows != []
    ensures Right(rows, writes)
    ensures Chain(groups) && Even(groups, duration) && groups != []
    ensures Contains(groups[0], rows[0].time) && Contains(groups[|groups| - 1], rows[|rows| - 1].time)
    ensures outcome == if exists k :: 0 <= k < |groups| && Unused(rows, groups[k]) then Warned else Written
  {
    var plan := CreateShardGroupsByTimeRange(origin, duration, rows[0].time, rows[|rows| - 1].time);
    PlanHolds(origin, duration, plan, rows[0].time, rows[|rows| - 1].time);
    groups := plan.value;
    OwnPlanEnds(groups, rows, 0);
    writes, outcome := SplitAndWriteByShard(groups, rows);
  }

  /** The plan of a time range: it begins with the group of the first time, and ends with that of the last one
      unless that is earlier. */
  lemma {:induction false} PlanHolds(origin: int, duration: nat, plan: Option<seq<Group>>, first: int, last: int)
    requires duration > 0
    requires plan.None? <==> PlannedNum(origin, duration, first, last) < 0
    requires plan.Some? ==>
        var gs, base := plan.value, Truncate(origin, duration, first);
        && |gs| == PlannedNum(origin, duration, first, last) && Even(gs, duration)
        && (gs != [] ==> gs[0].start == base && gs[|gs| - 1].end == base + |gs| * duration)
    ensures plan.Some? && plan.value != [] ==> Contains(plan.value[0], first)
    ensures first <= last ==> plan.Some? && plan.value != [] && Contains(plan.value[|plan.value| - 1], last)
    ensures last < first && plan.Some? ==> |plan.value| <= 1
  {
    TruncateNext(origin, duration, first);
    if first <= last {
      PlanCovers(origin, duration, first, last);
      var n := |plan.value|;
      assert n * duration == (n - 1) * duration + duration;
    } else {
      NumOfBackward(origin, duration, first, last);
    }
  }

  lemma {:induction false} NumOfBackward(origin: int, duration: nat, first: int, last: int)
    requires duration > 0 && last < first
    ensures PlannedNum(origin, duration, first, last) <= 1
  {
    TruncateNext(origin, duration, first);
    var d := last - Truncate(origin, duration, first);
    assert d < duration;
    if d >= 0 {
      assert d / duration == 0;
    } else {
      assert -d / duration >= 0;
    }
  }

  /** An Arrow record is sorted only after its groups are planned from the first and the last row it came
      with. Its rows are written where they belong if and only if those groups happen to cover them. It panics if
      and only if fewer than no groups are planned; otherwise the caller gets an error if and only if a planned group
      has no row, whether rows were lost or not. */
  method WriteRecord(origin: int, duration: nat, given: Record, rows: Record)
    returns (groups: Option<seq<Group>>, writes: seq<Write>, outcome: Outcome)
    requires duration > 0 && given != [] && Ascending(rows) && multiset(rows) == multiset(given)
    ensures
      var first, last := given[0].time, given[|given| - 1].time;
      var base, n := Truncate(origin, duration, first), PlannedNum(origin, duration, first, last);
      && (groups.None? <==> n < 0)
      && rows != []
      && (Right(rows, writes) <==> n > 0 && base <= rows[0].time && rows[|rows| - 1].time < base + n * duration)
      && (outcome == Panicked <==> n < 0)
      && (groups.Some? ==>
            outcome
            == if exists k :: 0 <= k < |groups.value| && Unused(rows, groups.value[k]) then Warned else Written)
  {
    assert |rows| == |multiset(rows)| == |given|;
    var first, last := given[0].time, given[|given| - 1].time;
    groups := CreateShardGroupsByTimeRange(origin, duration, first, last);
    writes, outcome := [], Panicked;
    if groups.Some? {
      PlanHolds(origin, duration, groups, first, last);
      ghost var k := GivenPlan(given, rows, groups.value);
      OwnPlanEnds(groups.value, rows, k);
      writes, outcome := SplitAndWriteByShard(groups.value, rows);
    }
  }

  /** The rows of a record are still there when it is sorted. */
  lemma {:induction false} GivenPlan(given: Record, rows: Record, groups: seq<Group>) returns (k: nat)
    requires given != [] && multiset(rows) == multiset(given) && Ascending(rows)
    requires groups != [] ==> Contains(groups[0], given[0].time)
    requires given[0].time <= given[|given| - 1].time ==>
      groups != [] && Contains(groups[|groups| - 1], given[|given| - 1].time)
    requires given[0].time > given[|given| - 1].time ==> |groups| <= 1
    ensures rows != [] && k < |rows| && rows[k] == given[0]
    ensures groups != [] ==> groups[|groups| - 1].start <= rows[|rows| - 1].time
  {
    k := Sorted(given, rows, 0);
    var j := Sorted(given, rows, |given| - 1);
    assert rows[k].time <= rows[|rows| - 1].time && rows[j].time <= rows[|rows| - 1].time;
  }

  lemma {:induction false} Sorted(given: Record, rows: Record, i: nat) returns (k: nat)
    requires i < |given| && multiset(rows) == multiset(given)
    ensures k < |rows| && rows[k] == given[i]
  {
    assert given[i] in multiset(given);
    assert given[i] in rows;
    k :| k < |rows| && rows[k] == given[i];
  }

  /** A row before the first group is written to it all the same. */
  lemma {:induction false} EarlyRowFails(groups: seq<Group>, rows: Record, writes: seq<Write>)
    requires Chain(groups) && Ascending(rows) && rows != [] && groups != [] && rows[0].time < groups[0].start
    requires Split(groups, rows, |groups|, |rows|, writes)
    ensures WrittenRows(writes) == rows && !Right(rows, writes)
  {
    SplitIsRight(groups, rows, |groups|, |rows|, writes);
    assert rows[..|rows|] == rows;
  }

  lemma {:induction false} Rotated(a: Row, b: Row, c: Row)
    ensures multiset([a, b, c]) == multiset([c, a, b])
  {
    assert [a, b, c] == [a, b] + [c] && [c, a, b] == [c] + [a, b];
  }

  /** Three rows that arrive as 25, 3, 14 with groups of 10: only the group of 25 is planned, and it gets them all. */
  lemma {:induction false} UnsortedPlanFails(writes: seq<Write>)
    requires
      var rows, base := [Row(3, []), Row(14, []), Row(25, [])], Truncate(0, 10, 25);
      Split([Group(base, base + 10)], rows, 1, 3, writes)
    ensures
      var given, rows := [Row(25, []), Row(3, []), Row(14, [])], [Row(3, []), Row(14, []), Row(25, [])];
      && Ascending(rows) && multiset(rows) == multiset(given) && PlannedNum(0, 10, 25, 14) == 1
      && WrittenRows(writes) == rows && !Right(rows, writes)
  {
    Rotated(Row(3, []), Row(14, []), Row(25, []));
    EarlyRowFails([Group(20, 30)], [Row(3, []), Row(14, []), Row(25, [])], writes);
  }

  /** Rows at 5 and 25 with groups of 10: both are written where they belong, and the caller gets an error, because the
      group planned between them has no row. */
  lemma {:induction false} EmptyGroupWarns(writes: seq<Write>)
    requires
      var rows, groups := [Row(5, []), Row(25, [])], [Group(0, 10), Group(10, 20), Group(20, 30)];
      Split(groups, rows, 3, 2, writes)
    ensures
      var rows, groups := [Row(5, []), Row(25, [])], [Group(0, 10), Group(10, 20), Group(20, 30)];
      && Ascending(rows) && Truncate(0, 10, 5) == 0 && PlannedNum(0, 10, 5, 25) == |groups|
      && Right(rows, writes) && Ending(groups, rows) == Warned
  {
    var rows, groups := [Row(5, []), Row(25, [])], [Group(0, 10), Group(10, 20), Group(20, 30)];
    ChainOfThree(groups[0], groups[1], groups[2]);
    assert Covers(groups, rows);
    SplitIsRight(groups, rows, 3, 2, writes);
    BareWarns(groups, rows, 1);
  }

  lemma {:induction false} ChainOfThree(a: Group, b: Group, c: Group)
    requires a.start < a.end == b.start < b.end == c.start < c.end
    ensures Chain([a, b, c])
  {
  }

  lemma {:induction false} BareWarns(groups: seq<Group>, rows: Record, i: nat)
    requires i < |groups| && rows != [] && !Overshoots(groups, rows) && Bare(groups, rows, i)
    ensures Ending(groups, rows) == Warned
  {
  }
}
