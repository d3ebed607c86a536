/** Over a run: exactly when everything the sampler shows is right, and exactly when it shows everything. */
module PromComplete {
  import opened PromSteps
  import opened PromSampler
  import opened PromRun

  /** What the sampler has shown after k batches. */
  ghost function Output(q: Query, bs: seq<Batch>, k: nat): seq<Emission>
    requires q.steps.step > 0 && k <= |bs|
  {
    if k == 0 then [] else Output(q, bs, k - 1) + Given(q, bs, k - 1)
  }

  // ----- soundness

  /** Strictly rising times between two steps. */
  ghost predicate Rising(q: Query, out: seq<Emission>, from: int, upto: int) {
    && (forall i, j :: 0 <= i < j < |out| ==> out[i].time < out[j].time)
    && (forall i :: 0 <= i < |out| ==> from <= out[i].time - q.offset <= upto)
  }

  ghost predicate OnGrid(q: Query, grid: int -> bool, out: seq<Emission>) {
    forall i :: 0 <= i < |out| ==> grid(out[i].time - q.offset)
  }

  ghost predicate Steady(q: Query, grid: int -> bool, out: seq<Emission>, from: int, upto: int) {
    Rising(q, out, from, upto) && OnGrid(q, grid, out)
  }

  /** A step that carries the latest sample at or before it, recent and not stale. */
  ghost predicate Right(q: Query, rows: seq<Sample>, e: Emission) {
    At(q, rows, e.time - q.offset) == [e]
  }

  ghost predicate AllRight(q: Query, rows: seq<Sample>, out: seq<Emission>) {
    forall i :: 0 <= i < |out| ==> Right(q, rows, out[i])
  }

  lemma {:induction false} RisingJoin(
    q: Query, a: seq<Emission>, b: seq<Emission>, from: int, mid: int, next: int, upto: int
  )
    requires Rising(q, a, from, mid) && Rising(q, b, next, upto) && from <= next && mid < next && mid <= upto
    ensures Rising(q, a + b, from, upto)
  {
  }

  lemma {:induction false} GridJoin(q: Query, grid: int -> bool, a: seq<Emission>, b: seq<Emission>)
    requires OnGrid(q, grid, a) && OnGrid(q, grid, b)
    ensures OnGrid(q, grid, a + b)
  {
  }

  lemma {:induction false} SteadyJoin(
    q: Query, grid: int -> bool, a: seq<Emission>, b: seq<Emission>, from: int, mid: int, next: int, upto: int
  )
    requires Steady(q, grid, a, from, mid) && Steady(q, grid, b, next, upto)
    requires from <= next && mid < next && mid <= upto
    ensures Steady(q, grid, a + b, from, upto)
  {
    RisingJoin(q, a, b, from, mid, next, upto);
    GridJoin(q, grid, a, b);
  }

  lemma {:induction false} RightJoin(q: Query, rows: seq<Sample>, a: seq<Emission>, b: seq<Emission>)
    ensures AllRight(q, rows, a + b) <==> AllRight(q, rows, a) && AllRight(q, rows, b)
  {
    if AllRight(q, rows, a + b) {
      assert forall i :: 0 <= i < |a| ==> (a + b)[i] == a[i];
      assert forall i :: 0 <= i < |b| ==> (a + b)[|a| + i] == b[i];
    }
  }

  /** What the rows show at a stretch of steps. */
  lemma {:induction false} EmitsRising(q: Query, rows: seq<Sample>, from: int, upto: int)
    requires q.steps.step > 0
    ensures Rising(q, Emits(q, rows, from, upto), from, upto)
    decreases upto - from + q.steps.step
  {
    if from <= upto {
      var step := q.steps.step;
      EmitsRising(q, rows, from + step, upto);
      RisingJoin(q, At(q, rows, from), Emits(q, rows, from + step, upto), from, from, from + step, upto);
    }
  }

  lemma {:induction false} EmitsOnGrid(q: Query, grid: int -> bool, rows: seq<Sample>, from: int, upto: int)
    requires q.steps.step > 0 && Spaced(q.steps.step, grid) && grid(from)
    ensures OnGrid(q, grid, Emits(q, rows, from, upto))
    decreases upto - from + q.steps.step
  {
    if from <= upto {
      assert grid(from + q.steps.step);
      EmitsOnGrid(q, grid, rows, from + q.steps.step, upto);
      GridJoin(q, grid, At(q, rows, from), Emits(q, rows, from + q.steps.step, upto));
    }
  }

  lemma {:induction false} EmitsRight(q: Query, rows: seq<Sample>, from: int, upto: int)
    requires q.steps.step > 0
    ensures AllRight(q, rows, Emits(q, rows, from, upto))
    decreases upto - from + q.steps.step
  {
    if from <= upto {
      EmitsRight(q, rows, from + q.steps.step, upto);
      AtRight(q, rows, from);
      RightJoin(q, rows, At(q, rows, from), Emits(q, rows, from + q.steps.step, upto));
    }
  }

  lemma {:induction false} AtRight(q: Query, rows: seq<Sample>, s: int)
    ensures AllRight(q, rows, At(q, rows, s))
  {
  }

  lemma {:induction false} EmitsSound(q: Query, grid: int -> bool, rows: seq<Sample>, from: int, upto: int)
    requires q.steps.step > 0 && Spaced(q.steps.step, grid) && grid(from)
    ensures Steady(q, grid, Emits(q, rows, from, upto), from, upto) && AllRight(q, rows, Emits(q, rows, from, upto))
  {
    EmitsRising(q, rows, from, upto);
    EmitsOnGrid(q, grid, rows, from, upto);
    EmitsRight(q, rows, from, upto);
  }

  /** A wrong batch shows its padding and then its last row at its only step. */
  ghost predicate ShowsWrong(q: Query, all: seq<Sample>, given: seq<Emission>, due: int, first: int, x: Sample)
    requires q.steps.step > 0
  {
    given == Emits(q, all, due, first - q.steps.step) + [Emission(first + q.offset, x)]
  }

  lemma {:induction false} WrongGiven(q: Query, grid: int -> bool, bs: seq<Batch>, all: seq<Sample>, j: nat)
    requires RunFits(q, grid, bs, all) && j < |bs| && Wrong(q, bs, j)
    ensures ShowsWrong(q, all, Given(q, bs, j), Due(q, bs, j), bs[j].first, LastRow(bs[j]))
  {
    PaddingPays(q, grid, bs, all, j);
    NoTail(q, grid, bs, all, j);
  }

  /** A row after the step is not the latest before it, and a row too old is not shown. */
  lemma {:induction false} NotRight(q: Query, all: seq<Sample>, x: Sample, s: int)
    requires !(s - q.lookback <= x.time <= s)
    ensures !Right(q, all, Emission(s + q.offset, x))
  {
    LatestMeaning(all, s, x);
  }

  lemma {:induction false} WrongSteady(
    q: Query, grid: int -> bool, all: seq<Sample>, given: seq<Emission>, due: int, first: int, x: Sample
  )
    requires q.steps.step > 0 && Spaced(q.steps.step, grid) && grid(due) && grid(first) && due <= first
    requires ShowsWrong(q, all, given, due, first, x)
    ensures Steady(q, grid, given, due, first)
  {
    var e := [Emission(first + q.offset, x)];
    EmitsSound(q, grid, all, due, first - q.steps.step);
    assert Steady(q, grid, e, first, first);
    SteadyJoin(q, grid, Emits(q, all, due, first - q.steps.step), e, due, first - q.steps.step, first, first);
  }

  lemma {:induction false} WrongIsWrong(
    q: Query, all: seq<Sample>, given: seq<Emission>, due: int, first: int, x: Sample
  )
    requires q.steps.step > 0 && ShowsWrong(q, all, given, due, first, x) && !(first - q.lookback <= x.time <= first)
    ensures !AllRight(q, all, given)
  {
    NotRight(q, all, x, first);
    assert given[|given| - 1] == Emission(first + q.offset, x);
  }

  lemma {:induction false} SteadyWider(q: Query, grid: int -> bool, out: seq<Emission>, from: int, upto: int, far: int)
    requires Steady(q, grid, out, from, upto) && upto <= far
    ensures Steady(q, grid, out, from, far)
  {
  }

  lemma {:induction false} GivenSound(q: Query, grid: int -> bool, bs: seq<Batch>, all: seq<Sample>, j: nat)
    requires RunFits(q, grid, bs, all) && j < |bs|
    ensures Steady(q, grid, Given(q, bs, j), Due(q, bs, j), Owed(q, bs, j))
    ensures AllRight(q, all, Given(q, bs, j)) <==> !Wrong(q, bs, j)
  {
    var due, paid, owed := Due(q, bs, j), Paid(q, bs, j), Owed(q, bs, j);
    Bounds(q, grid, bs, all, j);
    DueAligned(q, grid, bs, all, j);
    if Wrong(q, bs, j) {
      BatchSteps(q, grid, bs, all, j);
      OwedAligned(q, grid, bs, all, j);
      WrongGiven(q, grid, bs, all, j);
      WrongSteady(q, grid, all, Given(q, bs, j), due, bs[j].first, LastRow(bs[j]));
      WrongIsWrong(q, all, Given(q, bs, j), due, bs[j].first, LastRow(bs[j]));
      SteadyWider(q, grid, Given(q, bs, j), due, bs[j].first, owed);
    } else {
      BatchPays(q, grid, bs, all, j);
      EmitsSound(q, grid, all, due, paid);
      SteadyWider(q, grid, Given(q, bs, j), due, paid, owed);
    }
  }

  ghost predicate NoneWrong(q: Query, bs: seq<Batch>, k: nat)
    requires k <= |bs|
  {
    k > 0 ==> NoneWrong(q, bs, k - 1) && !Wrong(q, bs, k - 1)
  }

  /** The times always rise from step to step; every step shown is right if and only if no batch is wrong. */
  lemma {:induction false} OutputSound(q: Query, grid: int -> bool, bs: seq<Batch>, all: seq<Sample>, k: nat)
    requires RunFits(q, grid, bs, all) && 0 < k <= |bs|
    ensures Due(q, bs, 0) - q.steps.step <= Owed(q, bs, k - 1)
    ensures Steady(q, grid, Output(q, bs, k), Due(q, bs, 0), Owed(q, bs, k - 1))
    ensures AllRight(q, all, Output(q, bs, k)) <==> NoneWrong(q, bs, k)
  {
    var j := k - 1;
    GivenSound(q, grid, bs, all, j);
    RightJoin(q, all, Output(q, bs, j), Given(q, bs, j));
    if j == 0 {
      assert [] + Given(q, bs, 0) == Given(q, bs, 0);
      Bounds(q, grid, bs, all, 0);
    } else {
      OutputSound(q, grid, bs, all, j);
      OutputNext(q, grid, bs, all, j);
    }
  }

  lemma {:induction false} OutputNext(q: Query, grid: int -> bool, bs: seq<Batch>, all: seq<Sample>, j: nat)
    requires RunFits(q, grid, bs, all) && 0 < j < |bs| && Due(q, bs, 0) - q.steps.step <= Owed(q, bs, j - 1)
    requires Steady(q, grid, Output(q, bs, j), Due(q, bs, 0), Owed(q, bs, j - 1))
    requires Steady(q, grid, Given(q, bs, j), Due(q, bs, j), Owed(q, bs, j))
    ensures Owed(q, bs, j - 1) <= Owed(q, bs, j)
    ensures Steady(q, grid, Output(q, bs, j + 1), Due(q, bs, 0), Owed(q, bs, j))
  {
    Bounds(q, grid, bs, all, j);
    SteadyJoin(
      q, grid, Output(q, bs, j), Given(q, bs, j), Due(q, bs, 0), Owed(q, bs, j - 1), Due(q, bs, j), Owed(q, bs, j));
  }

  // ----- completeness

  /** `given` is what the steps show but for `missing` of it. */
  ghost predicate Accounts(q: Query, all: seq<Sample>, given: seq<Emission>, missing: nat, from: int, upto: int)
    requires q.steps.step > 0
  {
    var shown := Emits(q, all, from, upto);
    |given| + missing == |shown| && (missing == 0 ==> given == shown)
  }

  ghost predicate ShowsNone(q: Query, all: seq<Sample>, from: int, upto: int)
    requires q.steps.step > 0
  {
    Emits(q, all, from, upto) == []
  }

  ghost predicate Between(q: Query, grid: int -> bool, due: int, paid: int, owed: int) {
    && q.steps.step > 0 && Spaced(q.steps.step, grid) && grid(due) && grid(paid)
    && due - q.steps.step <= paid <= owed
  }

  ghost predicate Unpaid(
    q: Query, all: seq<Sample>, given: seq<Emission>, missing: nat, due: int, paid: int, owed: int
  )
    requires q.steps.step > 0
  {
    Accounts(q, all, given, missing, due, owed) && (missing == 0 <==> ShowsNone(q, all, paid + q.steps.step, owed))
  }

  lemma {:induction false} PaidPart(
    q: Query, grid: int -> bool, all: seq<Sample>, given: seq<Emission>, due: int, paid: int, owed: int
  ) returns (missing: nat)
    requires Between(q, grid, due, paid, owed) && Pays(q, all, given, due, paid)
    ensures Unpaid(q, all, given, missing, due, paid, owed)
  {
    EmitsSplit(q, grid, all, due, paid, owed);
    missing := |Emits(q, all, paid + q.steps.step, owed)|;
  }

  lemma {:induction false} AccountsJoin(
    q: Query, grid: int -> bool, all: seq<Sample>,
    a: seq<Emission>, m: nat, b: seq<Emission>, n: nat, from: int, mid: int, next: int, upto: int
  )
    requires q.steps.step > 0 && Spaced(q.steps.step, grid) && grid(from) && grid(mid)
    requires from - q.steps.step <= mid <= upto && next == mid + q.steps.step
    requires Accounts(q, all, a, m, from, mid) && Accounts(q, all, b, n, next, upto)
    ensures Accounts(q, all, a + b, m + n, from, upto)
  {
    EmitsSplit(q, grid, all, from, mid, upto);
  }

  // ----- when a batch leaves something unpaid

  /** The ways to lose steps. A batch whose only pair is left to the next record skips the padding before it,
      which would have shown a recent sample. The last step with a pair is left to the next record, but no later
      batch begins in it: an empty record was taken to share it, or the index had no pair for the step that is
      shared. Or a stale mark after the last step hides what that step ought to show. */
  ghost predicate Loses(q: Query, bs: seq<Batch>, all: seq<Sample>, j: nat)
    requires j < |bs|
  {
    || (SameWindow(bs, j) && bs[j].first == bs[j].found && PaddingShows(q, bs, j))
    || (SameWindow(bs, j) && !(Shares(bs, j) && bs[j].found == bs[j].last) && At(q, all, bs[j].found) != [])
    || (Hidden(bs, j) && At(q, all, bs[j].first) != [])
  }

  ghost predicate PaddingShows(q: Query, bs: seq<Batch>, j: nat)
    requires j < |bs|
  {
    j > 0 && Due(q, bs, j) < bs[j].first && Shown(q, LastRow(bs[j - 1]), Due(q, bs, j)) != []
  }

  /** Over a stretch of steps the rows show what one earlier row shows. */
  ghost predicate Repeated(q: Query, all: seq<Sample>, x: Sample, from: int, upto: int)
    requires q.steps.step > 0
  {
    x.time <= from <= upto && Alike(q, all, [x], from, upto)
  }

  ghost predicate ShowsAs(q: Query, all: seq<Sample>, x: Sample, from: int, upto: int)
    requires q.steps.step > 0
  {
    ShowsNone(q, all, from, upto) <==> Shown(q, x, from) == []
  }

  lemma {:induction false} ShowsIff(q: Query, all: seq<Sample>, x: Sample, from: int, upto: int)
    requires q.steps.step > 0 && Repeated(q, all, x, from, upto)
    ensures ShowsAs(q, all, x, from, upto)
  {
    if Shown(q, x, from) == [] {
      ShowsNothing(q, x, from, upto);
    }
  }

  lemma {:induction false} PaddingLost(q: Query, grid: int -> bool, bs: seq<Batch>, all: seq<Sample>, j: nat)
    requires RunFits(q, grid, bs, all) && j < |bs|
    ensures ShowsNone(q, all, Due(q, bs, j), bs[j].first - q.steps.step) <==> !PaddingShows(q, bs, j)
  {
    if j > 0 && Due(q, bs, j) < bs[j].first {
      PaddingRepeats(q, grid, bs, all, j);
      ShowsIff(q, all, LastRow(bs[j - 1]), Due(q, bs, j), bs[j].first - q.steps.step);
    } else {
      DueAligned(q, grid, bs, all, j);
      NoSteps(q, all, bs[j].first - q.steps.step);
    }
  }

  lemma {:induction false} PaddingRepeats(q: Query, grid: int -> bool, bs: seq<Batch>, all: seq<Sample>, j: nat)
    requires RunFits(q, grid, bs, all) && 0 < j < |bs| && Due(q, bs, j) < bs[j].first
    ensures Repeated(q, all, LastRow(bs[j - 1]), Due(q, bs, j), bs[j].first - q.steps.step)
  {
    DueAligned(q, grid, bs, all, j);
    RowBetween(q, grid, bs, all, j - 1, Due(q, bs, j), bs[j].first - q.steps.step);
  }

  lemma {:induction false} OneStepShows(q: Query, all: seq<Sample>, s: int)
    requires q.steps.step > 0
    ensures ShowsNone(q, all, s, s) <==> At(q, all, s) == []
  {
    assert Emits(q, all, s + q.steps.step, s) == [];
  }

  lemma {:induction false} NoneOfBoth(q: Query, grid: int -> bool, all: seq<Sample>, from: int, mid: int, upto: int)
    requires q.steps.step > 0 && Spaced(q.steps.step, grid) && grid(from) && grid(mid)
    requires from <= mid && mid - q.steps.step <= upto
    ensures ShowsNone(q, all, from, upto)
            <==> ShowsNone(q, all, from, mid - q.steps.step) && ShowsNone(q, all, mid, upto)
  {
    assert grid(mid - q.steps.step);
    EmitsSplit(q, grid, all, from, mid - q.steps.step, upto);
  }

  lemma {:induction false} EndRepeats(q: Query, grid: int -> bool, bs: seq<Batch>, all: seq<Sample>, j: nat)
    requires RunFits(q, grid, bs, all) && j + 1 == |bs| && bs[j].found < q.lastStep
    ensures Repeated(q, all, LastRow(bs[j]), bs[j].found + q.steps.step, q.lastStep)
    ensures grid(bs[j].found) && grid(bs[j].found + q.steps.step)
  {
    BatchSteps(q, grid, bs, all, j);
    assert grid(bs[j].found + q.steps.step) && bs[j].found + q.steps.step <= q.lastStep;
    assert LastRow(bs[j]).time <= bs[j].found + q.steps.step;
    RowBetween(q, grid, bs, all, j, bs[j].found + q.steps.step, q.lastStep);
  }

  /** After the last batch: once its last step shows nothing, nothing more is shown. */
  lemma {:induction false} EndLost(q: Query, grid: int -> bool, bs: seq<Batch>, all: seq<Sample>, j: nat)
    requires RunFits(q, grid, bs, all) && j + 1 == |bs|
    ensures ShowsNone(q, all, bs[j].found, Owed(q, bs, j)) <==> At(q, all, bs[j].found) == []
  {
    OneStepShows(q, all, bs[j].found);
    if bs[j].found < q.lastStep {
      EndRepeats(q, grid, bs, all, j);
      if At(q, all, bs[j].found) == [] {
        NothingAfter(q, grid, bs, all, j);
      }
      EndJoins(q, grid, all, LastRow(bs[j]), bs[j].found, q.lastStep);
    }
  }

  lemma {:induction false} EndJoins(q: Query, grid: int -> bool, all: seq<Sample>, x: Sample, s: int, upto: int)
    requires q.steps.step > 0 && Spaced(q.steps.step, grid) && grid(s) && grid(s + q.steps.step)
    requires Repeated(q, all, x, s + q.steps.step, upto)
    requires At(q, all, s) == [] ==> Shown(q, x, s + q.steps.step) == []
    ensures ShowsNone(q, all, s, upto) <==> At(q, all, s) == []
  {
    OneStepShows(q, all, s);
    ShowsIff(q, all, x, s + q.steps.step, upto);
    NoneOfBoth(q, grid, all, s, s + q.steps.step, upto);
  }

  lemma {:induction false} NothingAfter(q: Query, grid: int -> bool, bs: seq<Batch>, all: seq<Sample>, j: nat)
    requires RunFits(q, grid, bs, all) && j + 1 == |bs| && bs[j].found < q.lastStep && At(q, all, bs[j].found) == []
    ensures Shown(q, LastRow(bs[j]), bs[j].found + q.steps.step) == []
  {
    var b, x := bs[j], LastRow(bs[j]);
    BatchSteps(q, grid, bs, all, j);
    if b.found == b.last {
      RowBetween(q, grid, bs, all, j, b.found, b.found);
      OneStepShows(q, all, b.found);
      ShowsIff(q, all, x, b.found, b.found);
    }
  }

  lemma {:induction false} TailLost(q: Query, grid: int -> bool, bs: seq<Batch>, all: seq<Sample>, j: nat)
    requires RunFits(q, grid, bs, all) && j < |bs|
    ensures ShowsNone(q, all, bs[j].found, Owed(q, bs, j))
            <==> (Shares(bs, j) && bs[j].found == bs[j].last) || At(q, all, bs[j].found) == []
  {
    BatchSteps(q, grid, bs, all, j);
    if j + 1 == |bs| {
      EndLost(q, grid, bs, all, j);
    } else if Shares(bs, j) && bs[j].found == bs[j].last {
      NoSteps(q, all, bs[j].last - q.steps.step);
    } else {
      OneStepShows(q, all, bs[j].found);
    }
  }

  lemma {:induction false} MissingInTwo(q: Query, grid: int -> bool, bs: seq<Batch>, all: seq<Sample>, j: nat)
    requires RunFits(q, grid, bs, all) && j < |bs| && bs[j].first == bs[j].found
    ensures ShowsNone(q, all, Due(q, bs, j), Owed(q, bs, j))
            <==> && ShowsNone(q, all, Due(q, bs, j), bs[j].first - q.steps.step)
                 && ShowsNone(q, all, bs[j].found, Owed(q, bs, j))
  {
    var due, first, owed := Due(q, bs, j), bs[j].first, Owed(q, bs, j);
    assert grid(due) && grid(first) && due <= first && first - q.steps.step <= owed by {
      BatchSteps(q, grid, bs, all, j);
      Bounds(q, grid, bs, all, j);
      DueAligned(q, grid, bs, all, j);
    }
    NoneOfBoth(q, grid, all, due, first, owed);
  }

  lemma {:induction false} MissingOfOneStep(q: Query, grid: int -> bool, bs: seq<Batch>, all: seq<Sample>, j: nat)
    requires RunFits(q, grid, bs, all) && j < |bs| && SameWindow(bs, j) && bs[j].first == bs[j].found
    ensures ShowsNone(q, all, Due(q, bs, j), Owed(q, bs, j)) <==> !Loses(q, bs, all, j)
  {
    TailLost(q, grid, bs, all, j);
    PaddingLost(q, grid, bs, all, j);
    MissingInTwo(q, grid, bs, all, j);
  }

  /** A hidden batch is the last of the run, at the last step of the query. */
  lemma {:induction false} HiddenIsLast(q: Query, grid: int -> bool, bs: seq<Batch>, all: seq<Sample>, j: nat)
    requires RunFits(q, grid, bs, all) && j < |bs| && Hidden(bs, j)
    ensures Owed(q, bs, j) == bs[j].first
  {
    BatchSteps(q, grid, bs, all, j);
    if j + 1 < |bs| {
      BatchSteps(q, grid, bs, all, j + 1);
      NextBatch(q, grid, bs, all, j + 1);
    }
  }

  lemma {:induction false} MissingIff(q: Query, grid: int -> bool, bs: seq<Batch>, all: seq<Sample>, j: nat)
    requires RunFits(q, grid, bs, all) && j < |bs|
    ensures ShowsNone(q, all, Paid(q, bs, j) + q.steps.step, Owed(q, bs, j)) <==> !Loses(q, bs, all, j)
  {
    if SameWindow(bs, j) && bs[j].first == bs[j].found {
      MissingOfOneStep(q, grid, bs, all, j);
    } else if SameWindow(bs, j) {
      TailLost(q, grid, bs, all, j);
    } else if Hidden(bs, j) {
      HiddenIsLast(q, grid, bs, all, j);
      OneStepShows(q, all, bs[j].first);
    } else {
      NoSteps(q, all, Owed(q, bs, j));
    }
  }

  lemma {:induction false} NoSteps(q: Query, all: seq<Sample>, s: int)
    requires q.steps.step > 0
    ensures ShowsNone(q, all, s + q.steps.step, s)
  {
  }

  // ----- the whole run

  lemma {:induction false} BatchBetween(q: Query, grid: int -> bool, bs: seq<Batch>, all: seq<Sample>, j: nat)
    requires RunFits(q, grid, bs, all) && j < |bs|
    ensures Between(q, grid, Due(q, bs, j), Paid(q, bs, j), Owed(q, bs, j))
  {
    Bounds(q, grid, bs, all, j);
    DueAligned(q, grid, bs, all, j);
  }

  lemma {:induction false} BatchUnpaid(q: Query, grid: int -> bool, bs: seq<Batch>, all: seq<Sample>, j: nat)
    returns (missing: nat)
    requires RunFits(q, grid, bs, all) && j < |bs| && !Wrong(q, bs, j)
    ensures Unpaid(q, all, Given(q, bs, j), missing, Due(q, bs, j), Paid(q, bs, j), Owed(q, bs, j))
  {
    BatchPays(q, grid, bs, all, j);
    BatchBetween(q, grid, bs, all, j);
    missing := PaidPart(q, grid, all, Given(q, bs, j), Due(q, bs, j), Paid(q, bs, j), Owed(q, bs, j));
  }

  lemma {:induction false} BatchAccounts(q: Query, grid: int -> bool, bs: seq<Batch>, all: seq<Sample>, j: nat)
    returns (missing: nat)
    requires RunFits(q, grid, bs, all) && j < |bs| && !Wrong(q, bs, j)
    ensures Accounts(q, all, Given(q, bs, j), missing, Due(q, bs, j), Owed(q, bs, j))
    ensures missing == 0 <==> !Loses(q, bs, all, j)
  {
    missing := BatchUnpaid(q, grid, bs, all, j);
    MissingIff(q, grid, bs, all, j);
  }

  ghost predicate Keeps(q: Query, bs: seq<Batch>, all: seq<Sample>, k: nat)
    requires k <= |bs|
  {
    k > 0 ==> Keeps(q, bs, all, k - 1) && !Loses(q, bs, all, k - 1)
  }

  lemma {:induction false} KeepsAll(q: Query, bs: seq<Batch>, all: seq<Sample>, k: nat)
    requires k <= |bs|
    ensures Keeps(q, bs, all, k) <==> forall j :: 0 <= j < k ==> !Loses(q, bs, all, j)
    ensures NoneWrong(q, bs, k) <==> forall j :: 0 <= j < k ==> !Wrong(q, bs, j)
  {
    if k > 0 {
      KeepsAll(q, bs, all, k - 1);
    }
  }

  /** Over a run without wrong batches nothing is shown twice, and what is not shown is what some batch loses. */
  lemma {:induction false} RunAccounts(q: Query, grid: int -> bool, bs: seq<Batch>, all: seq<Sample>, k: nat)
    returns (missing: nat)
    requires RunFits(q, grid, bs, all) && 0 < k <= |bs| && NoneWrong(q, bs, k)
    ensures Due(q, bs, 0) - q.steps.step <= Owed(q, bs, k - 1)
    ensures Accounts(q, all, Output(q, bs, k), missing, Due(q, bs, 0), Owed(q, bs, k - 1))
    ensures missing == 0 <==> Keeps(q, bs, all, k)
  {
    var last := BatchAccounts(q, grid, bs, all, k - 1);
    if k == 1 {
      Bounds(q, grid, bs, all, 0);
      assert [] + Given(q, bs, 0) == Given(q, bs, 0);
      return last;
    }
    var before := RunAccounts(q, grid, bs, all, k - 1);
    RunGoesOn(q, grid, bs, all, k - 1, before, last);
    missing := before + last;
  }

  lemma {:induction false} RunGoesOn(
    q: Query, grid: int -> bool, bs: seq<Batch>, all: seq<Sample>, j: nat, before: nat, last: nat
  )
    requires RunFits(q, grid, bs, all) && 0 < j < |bs| && Due(q, bs, 0) - q.steps.step <= Owed(q, bs, j - 1)
    requires Accounts(q, all, Output(q, bs, j), before, Due(q, bs, 0), Owed(q, bs, j - 1))
    requires Accounts(q, all, Given(q, bs, j), last, Due(q, bs, j), Owed(q, bs, j))
    ensures Owed(q, bs, j - 1) <= Owed(q, bs, j)
    ensures Accounts(q, all, Output(q, bs, j + 1), before + last, Due(q, bs, 0), Owed(q, bs, j))
  {
    DueAligned(q, grid, bs, all, 0);
    Bounds(q, grid, bs, all, j - 1);
    Bounds(q, grid, bs, all, j);
    AccountsJoin(
      q, grid, all, Output(q, bs, j), before, Given(q, bs, j), last,
      Due(q, bs, 0), Owed(q, bs, j - 1), Due(q, bs, j), Owed(q, bs, j));
  }

  /** The last step of a run: that of its last row, or the one padding ends at. */
  ghost function RunEnd(q: Query, bs: seq<Batch>): int
    requires bs != []
  {
    Max(bs[|bs| - 1].last, q.lastStep)
  }

  /** A last step for which the index had no pair shows nothing. */
  lemma {:induction false} LastStepShowsNone(q: Query, grid: int -> bool, bs: seq<Batch>, all: seq<Sample>)
    requires RunFits(q, grid, bs, all) && bs != [] && bs[|bs| - 1].found < bs[|bs| - 1].last
    ensures ShowsNone(q, all, bs[|bs| - 1].last, bs[|bs| - 1].last)
  {
    var b := bs[|bs| - 1];
    BatchSteps(q, grid, bs, all, |bs| - 1);
    RowBetween(q, grid, bs, all, |bs| - 1, b.last, b.last);
    ShowsIff(q, all, LastRow(b), b.last, b.last);
  }

  lemma {:induction false} OneStepMore(q: Query, grid: int -> bool, all: seq<Sample>, from: int, s: int)
    requires q.steps.step > 0 && Spaced(q.steps.step, grid) && grid(from) && grid(s) && from <= s
    requires ShowsNone(q, all, s, s)
    ensures Pays(q, all, Emits(q, all, from, s), from, s - q.steps.step)
  {
    assert grid(s - q.steps.step);
    if from < s {
      assert from <= s - q.steps.step;
    }
    EmitsSplit(q, grid, all, from, s - q.steps.step, s);
  }

  lemma {:induction false} EndReaches(q: Query, grid: int -> bool, bs: seq<Batch>, all: seq<Sample>)
    requires RunFits(q, grid, bs, all) && bs != []
    ensures Pays(q, all, Emits(q, all, bs[0].first, RunEnd(q, bs)), bs[0].first, End(q, bs))
  {
    if End(q, bs) < RunEnd(q, bs) {
      LastBatch(q, grid, bs, all);
      LastStepShowsNone(q, grid, bs, all);
      OneStepMore(q, grid, all, bs[0].first, bs[|bs| - 1].last);
    }
  }

  lemma {:induction false} LastBatch(q: Query, grid: int -> bool, bs: seq<Batch>, all: seq<Sample>)
    requires RunFits(q, grid, bs, all) && bs != [] && End(q, bs) < RunEnd(q, bs)
    ensures RunEnd(q, bs) == bs[|bs| - 1].last && End(q, bs) == bs[|bs| - 1].last - q.steps.step
    ensures grid(bs[0].first) && grid(bs[|bs| - 1].last) && bs[0].first <= bs[|bs| - 1].last
  {
    FirstsAscend(q, grid, bs, all, |bs| - 1);
    BatchSteps(q, grid, bs, all, 0);
    BatchSteps(q, grid, bs, all, |bs| - 1);
    assert grid(bs[|bs| - 1].found);
  }

  lemma {:induction false} FirstsAscend(q: Query, grid: int -> bool, bs: seq<Batch>, all: seq<Sample>, j: nat)
    requires RunFits(q, grid, bs, all) && j < |bs|
    ensures bs[0].first <= bs[j].first
  {
    if j > 0 {
      FirstsAscend(q, grid, bs, all, j - 1);
      BatchSteps(q, grid, bs, all, j - 1);
      NextBatch(q, grid, bs, all, j);
    }
  }

  lemma {:induction false} RunSteady(q: Query, grid: int -> bool, bs: seq<Batch>, all: seq<Sample>)
    requires RunFits(q, grid, bs, all) && bs != []
    ensures Steady(q, grid, Output(q, bs, |bs|), bs[0].first, RunEnd(q, bs))
    ensures AllRight(q, all, Output(q, bs, |bs|)) <==> NoneWrong(q, bs, |bs|)
  {
    OutputSound(q, grid, bs, all, |bs|);
    BatchSteps(q, grid, bs, all, |bs| - 1);
    SteadyWider(q, grid, Output(q, bs, |bs|), bs[0].first, End(q, bs), RunEnd(q, bs));
  }

  /** The run is exactly what its rows show at all steps if and only if no batch is wrong and none loses steps. */
  lemma {:induction false} RunComplete(q: Query, grid: int -> bool, bs: seq<Batch>, all: seq<Sample>)
    requires RunFits(q, grid, bs, all) && bs != []
    ensures Output(q, bs, |bs|) == Emits(q, all, bs[0].first, RunEnd(q, bs))
            <==> NoneWrong(q, bs, |bs|) && Keeps(q, bs, all, |bs|)
  {
    OutputSound(q, grid, bs, all, |bs|);
    EndReaches(q, grid, bs, all);
    DueAligned(q, grid, bs, all, 0);
    EmitsSound(q, grid, all, bs[0].first, End(q, bs));
    if NoneWrong(q, bs, |bs|) {
      var missing := RunAccounts(q, grid, bs, all, |bs|);
    }
  }
}
