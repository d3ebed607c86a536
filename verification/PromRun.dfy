/** The sampler over a whole run of records: which steps each record does, and with what. */
module PromRun {
  import opened Records
  import opened PromSteps
  import opened PromSampler

  /** A record with rows: its first and last step, the last step its index has a pair for, and whether the
      record that follows it has no rows. */
  datatype Batch = Batch(rows: seq<Sample>, first: int, last: int, found: int, emptyNext: bool)

  /** A record of several steps has no pair for its last step when all rows are too old for it. */
  function FoundStep(q: Query, first: int, last: int, t: int): int {
    if first == last || t >= last - q.lookback then last else last - q.steps.step
  }

  function BatchOf(q: Query, rows: seq<Sample>, emptyNext: bool): Batch
    requires q.steps.step > 0 && rows != []
  {
    var t := rows[|rows| - 1].time;
    var first, last := GetCurrStep(q.steps, rows[0].time), GetCurrStep(q.steps, t);
    Batch(rows, first, last, FoundStep(q, first, last, t), emptyNext)
  }

  function Batches(q: Query, records: seq<seq<Sample>>): seq<Batch>
    requires q.steps.step > 0
  {
    if records == [] then []
    else if records[0] == [] then Batches(q, records[1..])
    else [BatchOf(q, records[0], |records| > 1 && records[1] == [])] + Batches(q, records[1..])
  }

  function RowsOf(bs: seq<Batch>): seq<Sample> {
    if bs == [] then [] else bs[0].rows + RowsOf(bs[1..])
  }

  function Max(a: int, b: int): int {
    if a < b then b else a
  }

  function FirstRow(b: Batch): Sample {
    if b.rows == [] then Sample(0, Stale) else b.rows[0]
  }

  function LastRow(b: Batch): Sample {
    LastSample(b.rows)
  }

  ghost predicate QueryFits(q: Query, grid: int -> bool) {
    && 0 < q.steps.step && 0 <= q.lookback && Spaced(q.steps.step, grid)
    && grid(q.lastStep) && q.lastStep <= q.steps.end
  }

  /** The step of a time, said without rounding: at or after it unless it is the last, and less than one step
      after it unless it is the first. */
  ghost predicate IsCurr(g: Steps, t: int, s: int) {
    g.start <= s <= g.end && (t <= s || s == g.end) && (s - g.step < t || s == g.start)
  }

  ghost predicate BatchFits(q: Query, grid: int -> bool, b: Batch) {
    && b.rows != [] && InOrder(b.rows) && grid(b.first) && grid(b.last)
    && IsCurr(q.steps, FirstRow(b).time, b.first) && IsCurr(q.steps, LastRow(b).time, b.last)
    && b.found == FoundStep(q, b.first, b.last, LastRow(b).time)
  }

  ghost predicate BatchesFit(q: Query, grid: int -> bool, bs: seq<Batch>, n: nat)
    requires n <= |bs|
  {
    n > 0 ==>
      && BatchesFit(q, grid, bs, n - 1) && BatchFits(q, grid, bs[n - 1])
      && (n > 1 ==> LastRow(bs[n - 2]).time <= FirstRow(bs[n - 1]).time)
  }

  lemma {:induction false} FitsAt(q: Query, grid: int -> bool, bs: seq<Batch>, n: nat, j: nat)
    requires n <= |bs| && BatchesFit(q, grid, bs, n) && j < n
    ensures BatchFits(q, grid, bs[j])
    ensures j > 0 ==> LastRow(bs[j - 1]).time <= FirstRow(bs[j]).time
  {
    if j < n - 1 {
      FitsAt(q, grid, bs, n - 1, j);
    }
  }

  /** Two stretches of rows that show the same at the steps from `from` to `upto`. */
  ghost predicate Alike(q: Query, a: seq<Sample>, b: seq<Sample>, from: int, upto: int)
    requires q.steps.step > 0
  {
    Emits(q, a, from, upto) == Emits(q, b, from, upto)
  }

  /** The rows of a batch decide the steps from its first row to the next batch. */
  ghost predicate Decided(q: Query, bs: seq<Batch>, all: seq<Sample>)
    requires q.steps.step > 0
  {
    forall j, from, upto ::
      0 <= j < |bs| && FirstRow(bs[j]).time <= from && (j + 1 < |bs| ==> FirstRow(bs[j + 1]).time > upto) ==>
        Alike(q, all, bs[j].rows, from, upto)
  }

  /** Ascending over the whole run; `all` shows what the rows show together. */
  ghost predicate RunFits(q: Query, grid: int -> bool, bs: seq<Batch>, all: seq<Sample>) {
    QueryFits(q, grid) && BatchesFit(q, grid, bs, |bs|) && Decided(q, bs, all)
  }

  // ----- the steps of a batch

  ghost predicate Shares(bs: seq<Batch>, j: nat)
    requires j < |bs|
  {
    j + 1 < |bs| && bs[j + 1].first == bs[j].last
  }

  /** The verdict of the peek: an empty record looks like one that shares the step. */
  ghost predicate SameWindow(bs: seq<Batch>, j: nat)
    requires j < |bs|
  {
    bs[j].emptyNext || Shares(bs, j)
  }

  ghost predicate LastRecord(bs: seq<Batch>, j: nat)
    requires j < |bs|
  {
    j + 1 == |bs| && !bs[j].emptyNext
  }

  /** A batch of one step whose last row is taken for it. */
  ghost predicate Alone(bs: seq<Batch>, j: nat)
    requires j < |bs|
  {
    bs[j].first == bs[j].last && !SameWindow(bs, j)
  }

  /** The row taken for the only step of a batch lies after the step or is too old for it. */
  ghost predicate Wrong(q: Query, bs: seq<Batch>, j: nat)
    requires j < |bs|
  {
    && Alone(bs, j) && LastRow(bs[j]).reading.Num?
    && !(bs[j].first - q.lookback <= LastRow(bs[j]).time <= bs[j].first)
  }

  /** A stale mark after the last step is taken for it. */
  ghost predicate Hidden(bs: seq<Batch>, j: nat)
    requires j < |bs|
  {
    Alone(bs, j) && LastRow(bs[j]).reading.Stale? && LastRow(bs[j]).time > bs[j].first
  }

  /** The first step that batch j owes. */
  ghost function Due(q: Query, bs: seq<Batch>, j: nat): int
    requires j < |bs|
  {
    if j == 0 || Shares(bs, j - 1) then bs[j].first else bs[j - 1].found + q.steps.step
  }

  ghost function End(q: Query, bs: seq<Batch>): int
    requires bs != []
  {
    Max(bs[|bs| - 1].found, q.lastStep)
  }

  /** The last step that batch j owes. */
  ghost function Owed(q: Query, bs: seq<Batch>, j: nat): int
    requires j < |bs|
  {
    if j + 1 == |bs| then End(q, bs) else Due(q, bs, j + 1) - q.steps.step
  }

  /** The last step that batch j pays. */
  ghost function Paid(q: Query, bs: seq<Batch>, j: nat): int
    requires j < |bs|
  {
    if SameWindow(bs, j) && bs[j].first == bs[j].found then Due(q, bs, j) - q.steps.step
    else if SameWindow(bs, j) then bs[j].found - q.steps.step
    else if Hidden(bs, j) then bs[j].first - q.steps.step
    else Owed(q, bs, j)
  }

  ghost function PrevOf(bs: seq<Batch>, j: nat): Option<Prev>
    requires j <= |bs|
  {
    if j == 0 || LastRecord(bs, j - 1) then None else Some(Prev(bs[j - 1].found, LastRow(bs[j - 1])))
  }

  /** Ascending times have ascending steps. */
  lemma {:induction false} CurrAscends(g: Steps, grid: int -> bool, t: int, u: int, a: int, b: int)
    requires Spaced(g.step, grid) && grid(a) && grid(b) && IsCurr(g, t, a) && IsCurr(g, u, b) && t <= u
    ensures a <= b && (a < b ==> a + g.step <= b && t <= a < u && b - g.step < u)
  {
  }

  /** Where the rows and steps of a batch lie. */
  ghost predicate Placed(q: Query, grid: int -> bool, b: Batch) {
    && grid(b.first) && grid(b.found) && grid(b.last)
    && q.steps.start <= b.first <= b.found <= b.last <= q.steps.end && b.last - q.steps.step <= b.found
    && FirstRow(b).time <= LastRow(b).time
    && (b.first == b.last ==> b.found == b.first)
    && (b.first < b.last ==> FirstRow(b).time <= b.first && b.last - q.steps.step < LastRow(b).time)
    && (LastRow(b).time <= b.last || (b.last == q.steps.end && b.found == b.last))
    && (b.found < b.last ==> LastRow(b).time < b.last - q.lookback && b.found == b.last - q.steps.step)
    && (b.first < b.last && b.found == b.last ==> LastRow(b).time >= b.last - q.lookback)
  }

  lemma {:induction false} BatchSteps(q: Query, grid: int -> bool, bs: seq<Batch>, all: seq<Sample>, j: nat)
    requires RunFits(q, grid, bs, all) && j < |bs|
    ensures Placed(q, grid, bs[j])
    ensures j > 0 ==> LastRow(bs[j - 1]).time <= FirstRow(bs[j]).time
  {
    FitsAt(q, grid, bs, |bs|, j);
    var b := bs[j];
    assert FirstRow(b).time <= LastRow(b).time;
    CurrAscends(q.steps, grid, FirstRow(b).time, LastRow(b).time, b.first, b.last);
    assert grid(b.last - q.steps.step);
  }

  /** Where a batch begins after the one before: in its last step, or so that the steps up to it are before
      its rows. */
  lemma {:induction false} NextBatch(q: Query, grid: int -> bool, bs: seq<Batch>, all: seq<Sample>, j: nat)
    requires RunFits(q, grid, bs, all) && 0 < j < |bs|
    ensures
      var last, first := bs[j - 1].last, bs[j].first;
      && last <= first
      && (last < first ==>
            && last + q.steps.step <= first && first - q.steps.step < FirstRow(bs[j]).time
            && LastRow(bs[j - 1]).time <= last)
  {
    FitsAt(q, grid, bs, |bs|, j - 1);
    FitsAt(q, grid, bs, |bs|, j);
    CurrAscends(q.steps, grid, LastRow(bs[j - 1]).time, FirstRow(bs[j]).time, bs[j - 1].last, bs[j].first);
  }

  /** What a batch owes begins after what the one before has paid, and ends where the next begins. */
  lemma {:induction false} DueAligned(q: Query, grid: int -> bool, bs: seq<Batch>, all: seq<Sample>, j: nat)
    requires RunFits(q, grid, bs, all) && j < |bs|
    ensures grid(Due(q, bs, j)) && Due(q, bs, j) <= bs[j].first
    ensures Due(q, bs, j) < bs[j].first ==>
              && j > 0 && LastRow(bs[j - 1]).time <= Due(q, bs, j)
              && Due(q, bs, j) <= bs[j].first - q.steps.step < FirstRow(bs[j]).time
  {
    BatchSteps(q, grid, bs, all, j);
    if j > 0 {
      BatchSteps(q, grid, bs, all, j - 1);
      NextBatch(q, grid, bs, all, j);
      assert grid(bs[j - 1].found + q.steps.step);
    }
  }

  lemma {:induction false} OwedAligned(q: Query, grid: int -> bool, bs: seq<Batch>, all: seq<Sample>, j: nat)
    requires RunFits(q, grid, bs, all) && j < |bs|
    ensures Placed(q, grid, bs[j]) && grid(Owed(q, bs, j))
    ensures bs[j].found - q.steps.step <= Owed(q, bs, j) && bs[j].last - q.steps.step <= Owed(q, bs, j)
    ensures !Shares(bs, j) ==> bs[j].found <= Owed(q, bs, j)
  {
    BatchSteps(q, grid, bs, all, j);
    if j + 1 < |bs| {
      DueAligned(q, grid, bs, all, j + 1);
    }
  }

  lemma {:induction false} Bounds(q: Query, grid: int -> bool, bs: seq<Batch>, all: seq<Sample>, j: nat)
    requires RunFits(q, grid, bs, all) && j < |bs|
    ensures grid(Owed(q, bs, j)) && grid(Paid(q, bs, j))
    ensures Due(q, bs, j) - q.steps.step <= Paid(q, bs, j) <= Owed(q, bs, j)
    ensures bs[j].found - q.steps.step <= Owed(q, bs, j)
  {
    var due, owed := Due(q, bs, j), Owed(q, bs, j);
    OwedAligned(q, grid, bs, all, j);
    assert grid(due) && due <= bs[j].first by {
      DueAligned(q, grid, bs, all, j);
    }
    assert grid(due - q.steps.step) && grid(bs[j].found - q.steps.step) && grid(bs[j].first - q.steps.step);
  }

  // ----- the rows around a batch

  lemma {:induction false} RowsSplit(bs: seq<Batch>, j: nat)
    requires j < |bs|
    ensures RowsOf(bs) == RowsOf(bs[..j]) + bs[j].rows + RowsOf(bs[j + 1..])
  {
    if j == 0 {
      assert RowsOf(bs[..0]) + bs[0].rows == bs[0].rows;
    } else {
      RowsSplit(bs[1..], j - 1);
      assert bs[..j][1..] == bs[1..][..j - 1] && bs[1..][j..] == bs[j + 1..];
      var before, rows, after := RowsOf(bs[1..][..j - 1]), bs[j].rows, RowsOf(bs[j + 1..]);
      assert bs[0].rows + (before + rows + after) == (bs[0].rows + before) + rows + after;
    }
  }

  lemma {:induction false} LaterRows(q: Query, grid: int -> bool, bs: seq<Batch>, j: nat, s: int)
    requires BatchesFit(q, grid, bs, |bs|) && j <= |bs| && (j < |bs| ==> FirstRow(bs[j]).time > s)
    ensures After(RowsOf(bs[j..]), s)
    decreases |bs| - j
  {
    if j < |bs| {
      assert bs[j..][1..] == bs[j + 1..];
      FitsAt(q, grid, bs, |bs|, j);
      assert After(bs[j].rows, s);
      if j + 1 < |bs| {
        FitsAt(q, grid, bs, |bs|, j + 1);
      }
      LaterRows(q, grid, bs, j + 1, s);
    }
  }

  /** All rows of the run, one batch after the other. */
  lemma {:induction false} AllRowsDecide(q: Query, grid: int -> bool, bs: seq<Batch>)
    requires q.steps.step > 0 && BatchesFit(q, grid, bs, |bs|)
    ensures Decided(q, bs, RowsOf(bs))
  {
    forall j, from, upto |
      0 <= j < |bs| && FirstRow(bs[j]).time <= from && (j + 1 < |bs| ==> FirstRow(bs[j + 1]).time > upto)
      ensures Alike(q, RowsOf(bs), bs[j].rows, from, upto)
    {
      OwnRows(q, grid, bs, j, from, upto);
    }
  }

  lemma {:induction false} OwnRows(q: Query, grid: int -> bool, bs: seq<Batch>, j: nat, from: int, upto: int)
    requires q.steps.step > 0 && BatchesFit(q, grid, bs, |bs|) && j < |bs| && FirstRow(bs[j]).time <= from
    requires j + 1 < |bs| ==> FirstRow(bs[j + 1]).time > upto
    ensures Alike(q, RowsOf(bs), bs[j].rows, from, upto)
  {
    FitsAt(q, grid, bs, |bs|, j);
    RowsSplit(bs, j);
    LaterRows(q, grid, bs, j + 1, upto);
    EmitsMiddle(q, RowsOf(bs[..j]), bs[j].rows, RowsOf(bs[j + 1..]), from, upto);
  }

  /** Steps after a batch and before the next are decided by its last row. */
  lemma {:induction false} RowBetween(
    q: Query, grid: int -> bool, bs: seq<Batch>, all: seq<Sample>, j: nat, from: int, upto: int
  )
    requires RunFits(q, grid, bs, all) && j < |bs| && LastRow(bs[j]).time <= from
    requires j + 1 < |bs| ==> FirstRow(bs[j + 1]).time > upto
    ensures Alike(q, all, [LastRow(bs[j])], from, upto)
  {
    BatchSteps(q, grid, bs, all, j);
    FitsAt(q, grid, bs, |bs|, j);
    assert Alike(q, all, bs[j].rows, from, upto);
    AfterLast(q, bs[j].rows, from, upto);
  }

  // ----- one batch pays its piece

  /** The padding before a batch shows what all rows show from `due` on. */
  ghost predicate Padded(q: Query, all: seq<Sample>, prev: Option<Prev>, due: int, first: int)
    requires q.steps.step > 0
  {
    Padding(q, prev, first) == Emits(q, all, due, first - q.steps.step)
  }

  lemma {:induction false} PaddingIs(q: Query, all: seq<Sample>, prev: Option<Prev>, due: int, first: int)
    requires q.steps.step > 0
    requires if prev.None? || prev.value.index + q.steps.step > first - q.steps.step then due > first - q.steps.step
             else
               && due == prev.value.index + q.steps.step && prev.value.sample.time <= due
               && Alike(q, all, [prev.value.sample], due, first - q.steps.step)
    ensures Padded(q, all, prev, due, first)
  {
    if prev.Some? && due <= first - q.steps.step {
      RepeatsShow(q, prev.value.sample, due, first - q.steps.step);
    }
  }

  /** The steps before a batch are padded with the last row of the batch before. */
  lemma {:induction false} PaddingPays(q: Query, grid: int -> bool, bs: seq<Batch>, all: seq<Sample>, j: nat)
    requires RunFits(q, grid, bs, all) && j < |bs|
    ensures Padded(q, all, PrevOf(bs, j), Due(q, bs, j), bs[j].first)
  {
    if j > 0 {
      BatchSteps(q, grid, bs, all, j - 1);
      DueAligned(q, grid, bs, all, j);
      if Due(q, bs, j) < bs[j].first {
        RowBetween(q, grid, bs, all, j - 1, Due(q, bs, j), bs[j].first - q.steps.step);
      }
    }
    PaddingIs(q, all, PrevOf(bs, j), Due(q, bs, j), bs[j].first);
  }

  /** The last of its own steps that a batch does. */
  ghost function OwnUpto(q: Query, bs: seq<Batch>, j: nat): int
    requires j < |bs|
  {
    if SameWindow(bs, j) then bs[j].found - q.steps.step else bs[j].found
  }

  /** The rows of the next batch come after those steps. */
  lemma {:induction false} NextRowsLater(q: Query, grid: int -> bool, bs: seq<Batch>, all: seq<Sample>, j: nat)
    requires RunFits(q, grid, bs, all) && j + 1 < |bs|
    ensures !Shares(bs, j) ==> FirstRow(bs[j + 1]).time > bs[j].last
    ensures bs[j].first < bs[j].last ==> FirstRow(bs[j + 1]).time > OwnUpto(q, bs, j)
    ensures bs[j].first < bs[j].last && bs[j].found < bs[j].last ==> FirstRow(bs[j + 1]).time > bs[j].found
  {
    BatchSteps(q, grid, bs, all, j);
    BatchSteps(q, grid, bs, all, j + 1);
    NextBatch(q, grid, bs, all, j + 1);
  }

  /** What a batch shows by itself is what the whole run shows there. */
  ghost predicate OwnRight(q: Query, all: seq<Sample>, own: seq<Emission>, first: int, upto: int)
    requires q.steps.step > 0
  {
    own == Emits(q, all, first, upto)
  }

  ghost function OwnOf(q: Query, bs: seq<Batch>, j: nat): seq<Emission>
    requires q.steps.step > 0 && j < |bs|
  {
    Own(q, bs[j].rows, bs[j].first, bs[j].last, bs[j].found, SameWindow(bs, j))
  }

  lemma {:induction false} OneStepRight(q: Query, all: seq<Sample>, rows: seq<Sample>, s: int)
    requires q.steps.step > 0 && rows != [] && LastSample(rows).time <= s && Alike(q, all, rows, s, s)
    requires LastSample(rows).reading.Num? ==> s - q.lookback <= LastSample(rows).time
    ensures OwnRight(q, all, Unaged(q, LastSample(rows), s), s, s)
  {
    assert Emits(q, rows, s, s) == At(q, rows, s) + Emits(q, rows, s + q.steps.step, s);
    assert Emits(q, rows, s, s) == At(q, rows, s);
  }

  lemma {:induction false} OwnStepsPay(q: Query, grid: int -> bool, bs: seq<Batch>, all: seq<Sample>, j: nat)
    requires RunFits(q, grid, bs, all) && j < |bs| && !Wrong(q, bs, j) && !Hidden(bs, j)
    requires !(SameWindow(bs, j) && bs[j].first == bs[j].found)
    ensures OwnRight(q, all, OwnOf(q, bs, j), bs[j].first, OwnUpto(q, bs, j))
  {
    BatchSteps(q, grid, bs, all, j);
    if j + 1 < |bs| {
      NextRowsLater(q, grid, bs, all, j);
    }
    assert Alike(q, all, bs[j].rows, bs[j].first, OwnUpto(q, bs, j));
    if bs[j].first == bs[j].last {
      FitsAt(q, grid, bs, |bs|, j);
      OneStepRight(q, all, bs[j].rows, bs[j].first);
    }
  }

  ghost function Given(q: Query, bs: seq<Batch>, j: nat): seq<Emission>
    requires q.steps.step > 0 && j < |bs|
  {
    Sampled(
      q, bs[j].rows, bs[j].first, bs[j].last, bs[j].found, SameWindow(bs, j), LastRecord(bs, j), PrevOf(bs, j))
  }

  lemma {:induction false} EmitsToEnd(q: Query, grid: int -> bool, rows: seq<Sample>, from: int, last: int, end: int)
    requires q.steps.step > 0 && Spaced(q.steps.step, grid) && grid(from) && grid(last)
    requires from - q.steps.step <= last && end == Max(last, q.lastStep)
    ensures Emits(q, rows, from, end) == Emits(q, rows, from, last) + Emits(q, rows, last + q.steps.step, q.lastStep)
  {
    EmitsSplit(q, grid, rows, from, last, end);
  }

  ghost predicate TailRight(q: Query, all: seq<Sample>, x: Sample, from: int)
    requires q.steps.step > 0
  {
    Repeats(q, x, from, q.lastStep) == Emits(q, all, from, q.lastStep)
  }

  ghost predicate Pays(q: Query, all: seq<Sample>, given: seq<Emission>, due: int, paid: int)
    requires q.steps.step > 0
  {
    given == Emits(q, all, due, paid)
  }

  /** How the pieces of a batch lie to each other. */
  ghost predicate Arranged(
    q: Query, grid: int -> bool, due: int, first: int, found: int, own: int, paid: int, sameWindow: bool, lastRec: bool
  ) {
    && q.steps.step > 0 && Spaced(q.steps.step, grid) && grid(due) && grid(first) && grid(found)
    && due <= first && first - q.steps.step <= own && own == (if sameWindow then found - q.steps.step else found)
    && !(sameWindow && first == found)
    && if lastRec then !sameWindow && paid == Max(found, q.lastStep) else paid == own
  }

  /** Padding, own steps and the padding after the last record join to one stretch of steps. */
  lemma {:induction false} PiecesJoin(
    q: Query, grid: int -> bool, all: seq<Sample>, rows: seq<Sample>, prev: Option<Prev>,
    due: int, first: int, last: int, found: int, own: int, paid: int, sameWindow: bool, lastRec: bool
  )
    requires Arranged(q, grid, due, first, found, own, paid, sameWindow, lastRec)
    requires Padded(q, all, prev, due, first)
    requires OwnRight(q, all, Own(q, rows, first, last, found, sameWindow), first, own)
    requires lastRec ==> TailRight(q, all, LastSample(rows), found + q.steps.step)
    ensures Pays(q, all, Sampled(q, rows, first, last, found, sameWindow, lastRec, prev), due, paid)
  {
    assert grid(first - q.steps.step);
    EmitsSplit(q, grid, all, due, first - q.steps.step, own);
    if lastRec {
      EmitsToEnd(q, grid, all, due, found, paid);
    }
  }

  /** Where a batch that does its own steps gets to. */
  lemma {:induction false} PaidIs(q: Query, grid: int -> bool, bs: seq<Batch>, all: seq<Sample>, j: nat)
    requires RunFits(q, grid, bs, all) && j < |bs| && !(SameWindow(bs, j) && bs[j].first == bs[j].found)
    requires !Hidden(bs, j)
    ensures BatchArranged(q, grid, bs, j)
  {
    BatchSteps(q, grid, bs, all, j);
    DueAligned(q, grid, bs, all, j);
  }

  /** What the sampler gives for a batch are the steps from the first that is due to the last that it pays. */
  lemma {:induction false} BatchPays(q: Query, grid: int -> bool, bs: seq<Batch>, all: seq<Sample>, j: nat)
    requires RunFits(q, grid, bs, all) && j < |bs| && !Wrong(q, bs, j)
    ensures Pays(q, all, Given(q, bs, j), Due(q, bs, j), Paid(q, bs, j))
  {
    if SameWindow(bs, j) && bs[j].first == bs[j].found {
      NothingPaid(q, all, bs[j].rows, Due(q, bs, j), bs[j].first, bs[j].last, PrevOf(bs, j));
    } else if Hidden(bs, j) {
      HiddenPays(q, grid, bs, all, j);
    } else {
      StepsPaid(q, grid, bs, all, j);
    }
  }

  lemma {:induction false} StepsPaid(q: Query, grid: int -> bool, bs: seq<Batch>, all: seq<Sample>, j: nat)
    requires RunFits(q, grid, bs, all) && j < |bs| && !(SameWindow(bs, j) && bs[j].first == bs[j].found)
    requires !Wrong(q, bs, j) && !Hidden(bs, j)
    ensures Pays(q, all, Given(q, bs, j), Due(q, bs, j), Paid(q, bs, j))
  {
    PaidIs(q, grid, bs, all, j);
    PaddingPays(q, grid, bs, all, j);
    OwnStepsPay(q, grid, bs, all, j);
    LastPays(q, grid, bs, all, j);
    BatchJoins(q, grid, bs, all, j);
  }

  ghost predicate BatchArranged(q: Query, grid: int -> bool, bs: seq<Batch>, j: nat)
    requires j < |bs|
  {
    Arranged(
      q, grid, Due(q, bs, j), bs[j].first, bs[j].found, OwnUpto(q, bs, j), Paid(q, bs, j),
      SameWindow(bs, j), LastRecord(bs, j))
  }

  lemma {:induction false} BatchJoins(q: Query, grid: int -> bool, bs: seq<Batch>, all: seq<Sample>, j: nat)
    requires q.steps.step > 0 && j < |bs| && BatchArranged(q, grid, bs, j)
    requires Padded(q, all, PrevOf(bs, j), Due(q, bs, j), bs[j].first)
    requires OwnRight(q, all, OwnOf(q, bs, j), bs[j].first, OwnUpto(q, bs, j))
    requires j + 1 == |bs| ==> TailRight(q, all, LastSample(bs[j].rows), bs[j].found + q.steps.step)
    ensures Pays(q, all, Given(q, bs, j), Due(q, bs, j), Paid(q, bs, j))
  {
    PiecesJoin(
      q, grid, all, bs[j].rows, PrevOf(bs, j), Due(q, bs, j), bs[j].first, bs[j].last, bs[j].found, OwnUpto(q, bs, j),
      Paid(q, bs, j), SameWindow(bs, j), LastRecord(bs, j));
  }

  lemma {:induction false} NothingPaid(
    q: Query, all: seq<Sample>, rows: seq<Sample>, due: int, first: int, last: int, prev: Option<Prev>
  )
    requires q.steps.step > 0
    ensures Pays(q, all, Sampled(q, rows, first, last, first, true, false, prev), due, due - q.steps.step)
  {
  }

  lemma {:induction false} LastPays(q: Query, grid: int -> bool, bs: seq<Batch>, all: seq<Sample>, j: nat)
    requires RunFits(q, grid, bs, all) && j < |bs|
    ensures j + 1 == |bs| ==> TailRight(q, all, LastSample(bs[j].rows), bs[j].found + q.steps.step)
  {
    var x, from := LastRow(bs[j]), bs[j].found + q.steps.step;
    BatchSteps(q, grid, bs, all, j);
    if j + 1 == |bs| && from <= q.lastStep {
      RepeatsShow(q, x, from, q.lastStep);
      RowBetween(q, grid, bs, all, j, from, q.lastStep);
    }
  }

  /** The only step of a hidden batch is the last one of the query: nothing is padded after it. */
  lemma {:induction false} NoTail(q: Query, grid: int -> bool, bs: seq<Batch>, all: seq<Sample>, j: nat)
    requires RunFits(q, grid, bs, all) && j < |bs|
    requires Alone(bs, j) && !(bs[j].first - q.lookback <= LastRow(bs[j]).time <= bs[j].first)
    ensures Repeats(q, LastRow(bs[j]), bs[j].found + q.steps.step, q.lastStep) == []
  {
    BatchSteps(q, grid, bs, all, j);
  }

  lemma {:induction false} HiddenPays(q: Query, grid: int -> bool, bs: seq<Batch>, all: seq<Sample>, j: nat)
    requires RunFits(q, grid, bs, all) && j < |bs| && Hidden(bs, j)
    ensures Pays(q, all, Given(q, bs, j), Due(q, bs, j), bs[j].first - q.steps.step)
  {
    PaddingPays(q, grid, bs, all, j);
    NoTail(q, grid, bs, all, j);
  }
}
