/** Where the rows of a downsampled field are cut into chunks, and which rows are not sent for that reason, as
    functions of the records that come in. */
module Chunking {
  import opened Records
  import opened Windows
  import opened Grouping
  import opened Kicking
  import opened Grid

  /** The lengths of the chunks that are sent because they are full, and what is left at the end. */
  datatype Plan = Plan(cuts: seq<nat>, left: nat)

  /** The windows the first record finishes ... */
  function ClosedBy(win: Windowing, carried: seq<Row>, records: seq<Record>): seq<seq<Row>>
    requires records != []
  {
    var kept := Kept(records[0]);
    if kept == [] then [] else Closed(JoinFirst(carried, Runs(win, kept)), PeeksOn(win, kept, records[1..]))
  }

  /** ... and the rows it leaves to be continued. */
  function OpenAfter(win: Windowing, carried: seq<Row>, records: seq<Record>): seq<Row>
    requires records != []
  {
    var kept := Kept(records[0]);
    if kept == [] then carried else StillOpen(JoinFirst(carried, Runs(win, kept)), PeeksOn(win, kept, records[1..]))
  }

  /** How many windows each record finishes. */
  function Adds(win: Windowing, carried: seq<Row>, records: seq<Record>): (adds: seq<nat>)
    ensures |adds| == |records|
    decreases |records|
  {
    if records == [] then []
    else [|ClosedBy(win, carried, records)|] + Adds(win, OpenAfter(win, carried, records), records[1..])
  }

  lemma {:induction false} AddsNext(win: Windowing, carried: seq<Row>, records: seq<Record>)
    requires records != []
    ensures
      var adds := Adds(win, carried, records);
      && adds[0] == |ClosedBy(win, carried, records)|
      && adds[1..] == Adds(win, OpenAfter(win, carried, records), records[1..])
  {
  }

  /** Before a record is reduced, n rows under construction are sent if they fill a chunk ... */
  function Cut(size: nat, n: nat): seq<nat> {
    if n >= size then [n] else []
  }

  /** ... and kept if they do not. */
  function Uncut(size: nat, n: nat): nat {
    if n >= size then 0 else n
  }

  /** What is sent and what is under construction after k records. */
  function PlanOf(size: nat, adds: seq<nat>, k: nat): Plan
    requires k <= |adds|
  {
    if k == 0 then Plan([], 0)
    else
      var before := PlanOf(size, adds, k - 1);
      Plan(before.cuts + Cut(size, before.left), adds[k - 1] + Uncut(size, before.left))
  }

  function FieldPlan(win: Windowing, size: nat, records: seq<Record>): Plan {
    PlanOf(size, Adds(win, [], records), |records|)
  }

  /** The lengths of all chunks of a field. */
  function ChunkLengths(plan: Plan): seq<nat> {
    plan.cuts + if plan.left > 0 then [plan.left] else []
  }

  /** What is still to be added. */
  ghost predicate ToAdd(win: Windowing, carried: seq<Row>, records: seq<Record>, adds: seq<nat>) {
    adds == Adds(win, carried, records)
  }

  lemma {:induction false} AddsTurn(win: Windowing, carried: seq<Row>, records: seq<Record>, adds: seq<nat>)
    requires records != [] && ToAdd(win, carried, records, adds)
    ensures adds != [] && adds[0] == |ClosedBy(win, carried, records)|
    ensures ToAdd(win, OpenAfter(win, carried, records), records[1..], adds[1..])
  {
    AddsNext(win, carried, records);
  }

  ghost predicate IsPlan(win: Windowing, size: nat, records: seq<Record>, plan: Plan) {
    plan == FieldPlan(win, size, records)
  }

  function Sum(lengths: seq<nat>): nat {
    if lengths == [] then 0 else Sum(lengths[..|lengths| - 1]) + lengths[|lengths| - 1]
  }

  lemma {:induction false} SumConcat(a: seq<nat>, b: seq<nat>)
    ensures Sum(a + b) == Sum(a) + Sum(b)
  {
    if b == [] {
      assert a + b == a;
    } else {
      assert (a + b)[..|a + b| - 1] == a + b[..|b| - 1];
      SumConcat(a, b[..|b| - 1]);
    }
  }

  lemma {:induction false} SumOne(n: nat)
    ensures Sum([n]) == n
  {
    assert [n][..0] == [];
  }

  ghost predicate AtLeast(size: nat, lengths: seq<nat>) {
    forall i :: 0 <= i < |lengths| ==> lengths[i] >= size
  }

  lemma {:induction false} FullCuts(size: nat, adds: seq<nat>, k: nat)
    requires k <= |adds|
    ensures AtLeast(size, PlanOf(size, adds, k).cuts)
  {
    if k > 0 {
      FullCuts(size, adds, k - 1);
      var before := PlanOf(size, adds, k - 1);
      assert AtLeast(size, before.cuts + Cut(size, before.left));
    }
  }

  /** A record is sent before the next one is reduced once it is full: what is under construction is less than the chunk
      size and what the last record added, and so is every chunk with what some record added. */
  lemma {:induction false} CutsPrompt(size: nat, adds: seq<nat>, k: nat)
    requires size > 0 && 0 < k <= |adds|
    ensures PlanOf(size, adds, k).left < size + adds[k - 1]
    ensures forall i :: 0 <= i < |PlanOf(size, adds, k).cuts| ==> Prompt(size, adds[..k], PlanOf(size, adds, k).cuts[i])
  {
    if k > 1 {
      CutsPrompt(size, adds, k - 1);
      var before := PlanOf(size, adds, k - 1);
      assert Prompt(size, adds[..k], before.left) by {
        assert adds[..k][k - 2] == adds[k - 2];
      }
      forall i | 0 <= i < |before.cuts|
        ensures Prompt(size, adds[..k], before.cuts[i])
      {
        assert Prompt(size, adds[..k - 1], before.cuts[i]);
        var j :| 0 <= j < |adds[..k - 1]| && before.cuts[i] < size + adds[..k - 1][j];
        assert adds[..k][j] == adds[..k - 1][j];
      }
    } else {
      assert PlanOf(size, adds, 0) == Plan([], 0);
    }
  }

  ghost predicate Prompt(size: nat, adds: seq<nat>, n: nat) {
    exists j :: 0 <= j < |adds| && n < size + adds[j]
  }

  lemma {:induction false} PlanTiles(size: nat, adds: seq<nat>, k: nat)
    requires k <= |adds|
    ensures var plan := PlanOf(size, adds, k); Sum(plan.cuts) + plan.left == Sum(adds[..k])
  {
    if k > 0 {
      var before := PlanOf(size, adds, k - 1);
      PlanTiles(size, adds, k - 1);
      SumConcat(before.cuts, Cut(size, before.left));
      SumOne(before.left);
      assert adds[..k][..k - 1] == adds[..k - 1];
    }
  }

  /** What the records add are the windows that are reported. */
  lemma {:induction false} AddsTile(win: Windowing, carried: seq<Row>, records: seq<Record>)
    ensures Sum(Adds(win, carried, records)) == |Reported(win, carried, records)|
    decreases |records|
  {
    if records != [] {
      AddsNext(win, carried, records);
      AddsTile(win, OpenAfter(win, carried, records), records[1..]);
      var adds := Adds(win, carried, records);
      SumConcat([adds[0]], adds[1..]);
      SumOne(adds[0]);
      assert [adds[0]] + adds[1..] == adds;
    }
  }

  /** The chunks of a field have one row for each window that is reported ... */
  lemma {:induction false} ChunksTile(win: Windowing, size: nat, records: seq<Record>)
    ensures Sum(ChunkLengths(FieldPlan(win, size, records))) == |Reported(win, [], records)|
  {
    var adds, plan := Adds(win, [], records), FieldPlan(win, size, records);
    PlanTiles(size, adds, |adds|);
    assert adds[..|adds|] == adds;
    AddsTile(win, [], records);
    AllSum(plan);
  }

  lemma {:induction false} AllSum(plan: Plan)
    ensures Sum(ChunkLengths(plan)) == Sum(plan.cuts) + plan.left
  {
    SumConcat(plan.cuts, if plan.left > 0 then [plan.left] else []);
    SumOne(plan.left);
  }

  /** ... and all but the last have at least the chunk size. */
  lemma {:induction false} ChunksFull(win: Windowing, size: nat, records: seq<Record>)
    ensures
      var lengths := ChunkLengths(FieldPlan(win, size, records));
      lengths != [] ==> AtLeast(size, lengths[..|lengths| - 1])
  {
    FullCuts(size, Adds(win, [], records), |records|);
    var plan := FieldPlan(win, size, records);
    if plan.left > 0 {
      assert (plan.cuts + [plan.left])[..|plan.cuts|] == plan.cuts;
    }
  }

  /** The last record has a value. */
  predicate EndsKept(records: seq<Record>) {
    records != [] && Kept(records[|records| - 1]) != []
  }

  lemma {:induction false} EndsKeptAdds(win: Windowing, carried: seq<Row>, records: seq<Record>)
    requires EndsKept(records)
    ensures Adds(win, carried, records)[|records| - 1] > 0
    decreases |records|
  {
    AddsNext(win, carried, records);
    if |records| > 1 {
      EndsKeptAdds(win, OpenAfter(win, carried, records), records[1..]);
    }
  }

  // ----- the rows that are not sent

  ghost function TrueWindows(interval: nat, records: seq<Record>): (windows: seq<seq<Row>>)
    ensures forall k :: 0 <= k < |windows| ==> windows[k] != []
  {
    Runs(Aligned(interval), KeptRows(records))
  }

  /** The number of true window k. */
  ghost function NumberOf(interval: nat, records: seq<Record>, k: nat): int
    requires interval > 0 && k < |TrueWindows(interval, records)|
  {
    WindowNumber(interval, TrueWindows(interval, records)[k][0].time)
  }

  /** The first chunk is a single row in a window that begins before the shard, and the next value is not in the
      window after it. */
  ghost predicate ClampLoses(interval: nat, size: nat, records: seq<Record>, lo: int, shardStart: int)
    requires interval > 0
  {
    var lengths := ChunkLengths(FieldPlan(Aligned(interval), size, records));
    && |lengths| > 1 && lengths[0] == 1 && |TrueWindows(interval, records)| > 1
    && NumberOf(interval, records, 0) == lo && interval * lo < shardStart
    && NumberOf(interval, records, 1) > lo + 1
  }

  /** How many rows of a field with values are not sent: one that is lost to a clamped chunk of one row, and the
      padding after the last value when nothing is left at the end. */
  ghost function MissingRows(interval: nat, size: nat, records: seq<Record>, min: int, max: int, shardStart: int): int
    requires interval > 0 && KeptRows(records) != []
  {
    var lo, hi := WindowNumber(interval, min), WindowNumber(interval, max);
    (if ClampLoses(interval, size, records, lo, shardStart) then 1 else 0)
    + if FieldPlan(Aligned(interval), size, records).left > 0 then 0
      else hi - NumberOf(interval, records, |TrueWindows(interval, records)| - 1)
  }

  /** None is missing when the last record has a value, and the chunk size is at least 2 or the shard begins with a
      window. */
  lemma {:induction false} NothingMissing(
    interval: nat, size: nat, records: seq<Record>, min: int, max: int, shardStart: int
  )
    requires interval > 0 && EndsKept(records) && KeptRows(records) != []
    requires size > 1 || shardStart <= interval * WindowNumber(interval, min)
    ensures MissingRows(interval, size, records, min, max, shardStart) == 0
  {
    var win := Aligned(interval);
    EndsKeptAdds(win, [], records);
    ChunksFull(win, size, records);
    var lengths := ChunkLengths(FieldPlan(win, size, records));
    assert |lengths| > 1 ==> lengths[..|lengths| - 1][0] >= size;
  }

  // ----- two records in which a row is missing

  lemma {:induction false} SingleRun(win: Windowing, row: Row)
    ensures Runs(win, [row]) == [[row]]
  {
    assert [row][..0] == [];
  }

  lemma {:induction false} PlanOfTwo(a: nat, b: nat)
    ensures PlanOf(1, [a, b], 2) == Plan(if a > 0 then [a] else [], b)
  {
    assert PlanOf(1, [a, b], 0) == Plan([], 0);
    assert PlanOf(1, [a, b], 1) == Plan([] + [], a);
  }

  /** One record of one row at the end. */
  lemma {:induction false} LastRecord(win: Windowing, b: Row)
    ensures Adds(win, [], [[b]]) == [if Cell(b, FIELD).Some? then 1 else 0]
    ensures KeptRows([[b]]) == Kept([b]) && PeeksRight(win, [[b]])
  {
    KeptOfTwo(b, b);
    SingleRun(win, b);
    assert [[b]][1..] == [] && Kept([b]) + [] == Kept([b]);
  }

  /** A value, and one row in another window. */
  lemma {:induction false} TwoRecords(win: Windowing, a: Row, b: Row)
    requires Cell(a, FIELD).Some? && win(a.time) != win(b.time)
    ensures Adds(win, [], [[a], [b]]) == [1, if Cell(b, FIELD).Some? then 1 else 0]
    ensures KeptRows([[a], [b]]) == [a] + Kept([b]) && PeeksRight(win, [[a], [b]])
  {
    var records, rest := [[a], [b]], [[b]];
    assert records[1..] == rest;
    KeptOfTwo(a, a);
    KeptOfTwo(b, b);
    LastRecord(win, b);
    SingleRun(win, a);
    assert !PeeksOn(win, [a], rest) && !ReallyGoesOn(win, [a], rest);
    assert ClosedBy(win, [], records) == JoinFirst([], [[a]]) && OpenAfter(win, [], records) == [];
  }

  /** Windows of 10, chunks of 1, a value at 1 and a record with nothing but a null at 11: the row of the value is
      sent as if more were to come, and the row of the window of the null never. */
  lemma {:induction false} NullTailMissing()
    ensures
      var records := [[WithValue(1)], [WithoutValue(11)]];
      && PeeksRight(Aligned(10), records) && KeptRows(records) == [WithValue(1)]
      && MissingRows(10, 1, records, 1, 11, 0) == 1
  {
    var a, b := WithValue(1), WithoutValue(11);
    TwoRecords(Aligned(10), a, b);
    KeptOfTwo(b, b);
    assert KeptRows([[a], [b]]) == [a];
    PlanOfTwo(1, 0);
    SingleRun(Aligned(10), a);
    assert WindowNumber(10, 1) == 0 && WindowNumber(10, 11) == 1;
  }

  /** Windows of 10, chunks of 1, a shard that begins at 5, and values at 7 and 25 in a record each: the row of
      window 1 is never sent. */
  lemma {:induction false} ClampMissing()
    ensures
      var records := [[WithValue(7)], [WithValue(25)]];
      && PeeksRight(Aligned(10), records) && KeptRows(records) == [WithValue(7), WithValue(25)]
      && MissingRows(10, 1, records, 7, 25, 5) == 1
  {
    var a, b := WithValue(7), WithValue(25);
    TwoRecords(Aligned(10), a, b);
    KeptOfTwo(b, b);
    assert KeptRows([[a], [b]]) == [a, b];
    PlanOfTwo(1, 1);
    TwoRuns(Aligned(10), a, b);
    assert WindowNumber(10, 7) == 0 && WindowNumber(10, 25) == 2;
  }

  lemma {:induction false} TwoRuns(win: Windowing, a: Row, b: Row)
    requires win(a.time) != win(b.time)
    ensures Runs(win, [a, b]) == [[a], [b]]
  {
    assert [a, b][..1] == [a];
    SingleRun(win, a);
  }
}
