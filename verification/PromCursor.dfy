/** The instant-vector cursor: from the records of a series to the steps of the query. */
module PromCursor {
  import opened Records
  import opened Windows
  import opened PromSteps
  import opened PromIndex
  import opened PromSampler
  import opened PromRun
  import opened PromComplete

  ghost predicate QueryOk(q: Query) {
    IsSteps(q.steps) && 0 <= q.lookback && OnStep(q.steps, q.lastStep)
  }

  ghost predicate RowsOk(rows: seq<Sample>) {
    rows != [] && |rows| < MAX_INDEX && InOrder(rows)
  }

  ghost predicate Ordered(bs: seq<Batch>) {
    && (forall j :: 0 <= j < |bs| ==> RowsOk(bs[j].rows))
    && (forall i, j :: 0 <= i < j < |bs| && j == i + 1 ==> LastRow(bs[i]).time <= FirstRow(bs[j]).time)
  }

  lemma {:induction false} BatchIsFit(q: Query, rows: seq<Sample>, emptyNext: bool)
    requires QueryOk(q) && RowsOk(rows)
    ensures
      var b := BatchOf(q, rows, emptyNext);
      BatchFits(q, GridOf(q.steps), b) && b.first <= b.last && (b.first < b.last ==> rows[0].time <= b.first)
  {
    CurrStepIsLeast(q.steps, rows[0].time);
    CurrStepIsLeast(q.steps, LastSample(rows).time);
    CurrStepMonotone(q.steps, rows[0].time, LastSample(rows).time);
  }

  /** What the index of a record is. */
  lemma {:induction false} IndexIs(q: Query, rows: seq<Sample>)
    requires QueryOk(q) && RowsOk(rows)
    ensures
      var b, index := BatchOf(q, rows, false), IndexOf(q.steps, q.lookback, Times(rows));
      && Wrapped(index) == index
      && (b.first == b.last ==> index == [0, |rows|])
      && (b.first != b.last ==>
            && index == Pairs(q.steps.step, q.lookback, Times(rows), b.first, b.found)
            && Aligns(q.steps, b.found) && b.first <= b.found)
  {
    var b, times := BatchOf(q, rows, false), Times(rows);
    TimesSorted(rows);
    NotCut(q.steps, q.lookback, times);
    BatchIsFit(q, rows, false);
    if b.first != b.last {
      IndexReaches(q.steps, q.lookback, times);
      StepApart(q.steps, b.first, b.last);
      StepAfter(q.steps, b.last);
    }
  }

  function TimesOf(next: Option<seq<Sample>>): Option<seq<int>> {
    if next.None? then None else Some(Times(next.value))
  }

  /** The pairs of an index do for the sampler what the steps of the record ask for. */
  ghost predicate Serves(q: Query, b: Batch, index: seq<nat>, prev: Option<Prev>, sameWindow: bool, m: nat)
    requires q.steps.step > 0
  {
    && PairsInside(index, m, |b.rows|) && StepAt(q.steps.step, b.first, m - 1) == b.found
    && Done(q, b.rows, index, b.first, prev, if sameWindow then m - 1 else m)
       == (if sameWindow && b.first == b.found then [] else Padding(q, prev, b.first))
          + Own(q, b.rows, b.first, b.last, b.found, sameWindow)
  }

  lemma {:induction false} IndexServes(q: Query, rows: seq<Sample>, prev: Option<Prev>, sameWindow: bool)
    returns (m: nat)
    requires QueryOk(q) && RowsOk(rows)
    requires prev.Some? ==> prev.value.sample.time <= rows[0].time
    ensures Serves(q, BatchOf(q, rows, false), Wrapped(IndexOf(q.steps, q.lookback, Times(rows))), prev, sameWindow, m)
  {
    var b, index := BatchOf(q, rows, false), IndexOf(q.steps, q.lookback, Times(rows));
    IndexIs(q, rows);
    BatchIsFit(q, rows, false);
    if b.first == b.last {
      OneStepDone(q, rows, index, b.first, prev, sameWindow);
      m := 1;
    } else {
      m := StepsDone(q, rows, index, b.first, b.last, b.found, prev, sameWindow);
    }
  }

  lemma {:induction false} GivesSampled(
    q: Query, b: Batch, index: seq<nat>, prev: Option<Prev>, sameWindow: bool, lastRec: bool, m: nat,
    out: seq<Emission>
  )
    requires q.steps.step > 0 && b.rows != [] && Serves(q, b, index, prev, sameWindow, m)
    requires PairsGive(q, b.rows, index, b.first, prev, sameWindow, lastRec, m, out)
    ensures out == Sampled(q, b.rows, b.first, b.last, b.found, sameWindow, lastRec, prev)
  {
  }

  method SampleRecord(
    sampler: FloatSampler, q: Query, rows: seq<Sample>, index: seq<nat>, firstStep: int, sameWindow: bool,
    lastRec: bool, ghost b: Batch, ghost m: nat
  ) returns (out: seq<Emission>)
    requires q.steps.step > 0 && rows != [] && !(sameWindow && lastRec)
    requires rows == b.rows && firstStep == b.first && Serves(q, b, index, sampler.prev, sameWindow, m)
    modifies sampler
    ensures out == Sampled(q, rows, b.first, b.last, b.found, sameWindow, lastRec, old(sampler.prev))
    ensures sampler.prev == if lastRec then None else Some(Prev(b.found, LastSample(rows)))
  {
    ghost var prev := sampler.prev;
    out := sampler.Aggregate(q, rows, index, firstStep, sameWindow, lastRec, m);
    GivesSampled(q, b, index, prev, sameWindow, lastRec, m, out);
  }

  /** One record: index, verdict of the peek, sampling. */
  method Reduce(sampler: FloatSampler, q: Query, rows: seq<Sample>, next: Option<seq<Sample>>)
    returns (out: seq<Emission>)
    requires QueryOk(q) && RowsOk(rows)
    requires sampler.prev.Some? ==> sampler.prev.value.sample.time <= rows[0].time
    modifies sampler
    ensures
      var b, same := BatchOf(q, rows, false), IsSameWindow(q.steps, Times(rows), TimesOf(next), None, None);
      && out == Sampled(q, rows, b.first, b.last, b.found, same, next.None?, old(sampler.prev))
      && sampler.prev == if next.None? then None else Some(Prev(b.found, LastSample(rows)))
  {
    var firstStep, index := ComputeIntervalIndex(q.steps, q.lookback, Times(rows));
    var sameWindow := IsSameWindow(q.steps, Times(rows), TimesOf(next), None, None);
    ghost var m := IndexServes(q, rows, sampler.prev, sameWindow);
    out := SampleRecord(sampler, q, rows, index, firstStep, sameWindow, next.None?, BatchOf(q, rows, false), m);
  }

  // ----- the run

  lemma {:induction false} BatchesOrdered(q: Query, bs: seq<Batch>, n: nat)
    requires QueryOk(q) && Ordered(bs) && Rounded(q, bs) && n <= |bs|
    ensures BatchesFit(q, GridOf(q.steps), bs, n)
  {
    if n > 0 {
      BatchesOrdered(q, bs, n - 1);
      BatchIsFit(q, bs[n - 1].rows, bs[n - 1].emptyNext);
    }
  }

  /** Every batch carries the steps of its rows. */
  ghost predicate Rounded(q: Query, bs: seq<Batch>)
    requires q.steps.step > 0
  {
    forall j :: 0 <= j < |bs| ==> bs[j].rows != [] && bs[j] == BatchOf(q, bs[j].rows, bs[j].emptyNext)
  }

  lemma {:induction false} BatchesRounded(q: Query, records: seq<seq<Sample>>)
    requires q.steps.step > 0
    ensures Rounded(q, Batches(q, records))
    ensures RowsOf(Batches(q, records)) == Flatten(records)
  {
    if records != [] {
      BatchesRounded(q, records[1..]);
      if records[0] != [] {
        var b := BatchOf(q, records[0], |records| > 1 && records[1] == []);
        assert ([b] + Batches(q, records[1..]))[1..] == Batches(q, records[1..]);
      } else {
        assert [] + Flatten(records[1..]) == Flatten(records[1..]);
      }
    }
  }

  lemma {:induction false} RunIsFit(q: Query, bs: seq<Batch>)
    requires QueryOk(q) && Ordered(bs) && Rounded(q, bs)
    ensures RunFits(q, GridOf(q.steps), bs, RowsOf(bs))
  {
    GridSpaced(q.steps);
    BatchesOrdered(q, bs, |bs|);
    AllRowsDecide(q, GridOf(q.steps), bs);
  }

  /** The records that are left are the batches that are left. */
  ghost predicate Left(q: Query, records: seq<seq<Sample>>, i: nat, bs: seq<Batch>, k: nat)
    requires q.steps.step > 0
  {
    i <= |records| && k <= |bs| && bs[k..] == Batches(q, records[i..])
  }

  lemma {:induction false} LeftNext(q: Query, records: seq<seq<Sample>>, i: nat, bs: seq<Batch>, k: nat)
    requires q.steps.step > 0 && Left(q, records, i, bs, k) && i < |records|
    ensures records[i] == [] ==> Left(q, records, i + 1, bs, k)
    ensures records[i] != [] ==>
        && k < |bs| && Left(q, records, i + 1, bs, k + 1)
        && bs[k] == BatchOf(q, records[i], i + 1 < |records| && records[i + 1] == [])
        && (i + 1 == |records| ==> k + 1 == |bs|)
        && (i + 1 < |records| && records[i + 1] != [] ==> k + 1 < |bs| && bs[k + 1].rows == records[i + 1])
  {
    assert records[i..][1..] == records[i + 1..];
    if records[i] != [] {
      var rest := Batches(q, records[i + 1..]);
      assert bs[k..][0] == bs[k] && bs[k..][1..] == bs[k + 1..];
      if i + 1 < |records| {
        assert records[i..][1] == records[i + 1];
        if records[i + 1] != [] {
          assert bs[k + 1..][0] == bs[k + 1];
        }
      }
    }
  }

  /** The sample before a batch lies before it. */
  lemma {:induction false} PrevBefore(bs: seq<Batch>, k: nat)
    requires Ordered(bs) && k < |bs|
    ensures var prev := PrevOf(bs, k); prev.Some? ==> prev.value.sample.time <= bs[k].rows[0].time
  {
    if k > 0 {
      assert LastRow(bs[k - 1]).time <= FirstRow(bs[k]).time;
    }
  }

  /** What the cursor sees when it peeks is what the run says of the batch. */
  lemma {:induction false} PeekIsRight(
    q: Query, records: seq<seq<Sample>>, i: nat, bs: seq<Batch>, k: nat, next: Option<seq<Sample>>
  )
    requires QueryOk(q) && Rounded(q, bs) && Left(q, records, i, bs, k) && i < |records| && records[i] != []
    requires next == if i + 1 < |records| then Some(records[i + 1]) else None
    ensures k < |bs| && bs[k].rows == records[i] && Left(q, records, i + 1, bs, k + 1)
    ensures IsSameWindow(q.steps, Times(records[i]), TimesOf(next), None, None) == SameWindow(bs, k)
    ensures next.None? == LastRecord(bs, k)
  {
    LeftNext(q, records, i, bs, k);
    if next.Some? && next.value != [] {
      assert bs[k + 1].first == GetCurrStep(q.steps, records[i + 1][0].time);
    }
  }

  method SampleNext(
    sampler: FloatSampler, q: Query, records: seq<seq<Sample>>, i: nat, ghost bs: seq<Batch>, ghost k: nat
  ) returns (out: seq<Emission>)
    requires QueryOk(q) && Ordered(bs) && Rounded(q, bs)
    requires Left(q, records, i, bs, k) && i < |records| && records[i] != [] && sampler.prev == PrevOf(bs, k)
    modifies sampler
    ensures k < |bs| && Left(q, records, i + 1, bs, k + 1) && sampler.prev == PrevOf(bs, k + 1)
    ensures out == Given(q, bs, k)
  {
    var next := if i + 1 < |records| then Some(records[i + 1]) else None;
    PeekIsRight(q, records, i, bs, k, next);
    PrevBefore(bs, k);
    out := Reduce(sampler, q, records[i], next);
  }

  /** What a run is worth: the steps it shows rise, each is right if and only if no batch is wrong, and it shows
      exactly what its rows show at the steps from the first to the end if and only if also no batch loses
      steps. */
  ghost predicate Judged(q: Query, bs: seq<Batch>, all: seq<Sample>, out: seq<Emission>)
    requires q.steps.step > 0 && bs != []
  {
    && Steady(q, GridOf(q.steps), out, bs[0].first, RunEnd(q, bs))
    && (AllRight(q, all, out) <==> forall j :: 0 <= j < |bs| ==> !Wrong(q, bs, j))
    && (out == Emits(q, all, bs[0].first, RunEnd(q, bs))
        <==> forall j :: 0 <= j < |bs| ==> !Wrong(q, bs, j) && !Loses(q, bs, all, j))
  }

  method SampleRun(q: Query, records: seq<seq<Sample>>) returns (out: seq<Emission>)
    requires QueryOk(q) && Ordered(Batches(q, records))
    ensures
      var bs := Batches(q, records);
      if bs == [] then out == [] else Judged(q, bs, Flatten(records), out)
  {
    ghost var bs := Batches(q, records);
    BatchesRounded(q, records);
    var sampler := new FloatSampler();
    out := [];
    ghost var k := 0;
    assert records[0..] == records && bs[0..] == bs;
    for i := 0 to |records|
      invariant fresh(sampler) && Left(q, records, i, bs, k) && sampler.prev == PrevOf(bs, k)
      invariant out == Output(q, bs, k)
    {
      if records[i] == [] {
        LeftNext(q, records, i, bs, k);
      } else {
        var more := SampleNext(sampler, q, records, i, bs, k);
        out := out + more;
        k := k + 1;
      }
    }
    assert k == |bs| by {
      assert records[|records|..] == [];
    }
    if k > 0 {
      RunIsRight(q, bs);
    }
  }

  lemma {:induction false} RunIsRight(q: Query, bs: seq<Batch>)
    requires QueryOk(q) && Ordered(bs) && Rounded(q, bs) && bs != []
    ensures Judged(q, bs, RowsOf(bs), Output(q, bs, |bs|))
  {
    RunIsFit(q, bs);
    RunSteady(q, GridOf(q.steps), bs, RowsOf(bs));
    RunComplete(q, GridOf(q.steps), bs, RowsOf(bs));
    KeepsAll(q, bs, RowsOf(bs), |bs|);
  }

  // ----- when nothing goes wrong, and when it does

  /** Rows of the query's range: from one look-back before the first step to the last step. */
  ghost predicate InRange(q: Query, bs: seq<Batch>) {
    forall j :: 0 <= j < |bs| ==>
      q.steps.start - q.lookback <= FirstRow(bs[j]).time && LastRow(bs[j]).time <= q.steps.end
  }

  /** With a look-back of at least one step, rows of the query's range are never shown wrongly or hidden, and no
      step is without its pair. */
  lemma {:induction false} NeverWrong(q: Query, bs: seq<Batch>, j: nat)
    requires QueryOk(q) && q.steps.step <= q.lookback && Ordered(bs) && Rounded(q, bs) && InRange(q, bs) && j < |bs|
    ensures !Wrong(q, bs, j) && !Hidden(bs, j) && bs[j].found == bs[j].last
  {
    BatchIsFit(q, bs[j].rows, bs[j].emptyNext);
  }

  /** Then the run is right; and without empty records, and with no record inside one step that the next one
      shares, nothing is lost. */
  lemma {:induction false} CompleteUnlessShared(q: Query, bs: seq<Batch>)
    requires QueryOk(q) && q.steps.step <= q.lookback && Ordered(bs) && Rounded(q, bs) && InRange(q, bs) && bs != []
    ensures AllRight(q, RowsOf(bs), Output(q, bs, |bs|))
    ensures (forall j :: 0 <= j < |bs| ==> !bs[j].emptyNext && !(Shares(bs, j) && bs[j].first == bs[j].last)) ==>
              Output(q, bs, |bs|) == Emits(q, RowsOf(bs), bs[0].first, RunEnd(q, bs))
  {
    forall j | 0 <= j < |bs|
      ensures !Wrong(q, bs, j) && !Hidden(bs, j) && bs[j].found == bs[j].last
    {
      NeverWrong(q, bs, j);
    }
    RunIsRight(q, bs);
  }

  /** Three records, steps of 5 and a look-back of 20: the second lies in the last step, which the third
      shares, and the padding of the steps 10 and 15 is never done. */
  lemma {:induction false} SharedStepLosesPadding()
    ensures
      var q := Query(Steps(0, 20, 5), 20, 0, false, 20);
      var records := [[Sample(1, Num(7))], [Sample(16, Num(8))], [Sample(18, Num(9))]];
      && QueryOk(q) && Ordered(Batches(q, records)) && InRange(q, Batches(q, records))
      && Loses(q, Batches(q, records), Flatten(records), 1)
  {
    var q := Query(Steps(0, 20, 5), 20, 0, false, 20);
    var records := [[Sample(1, Num(7))], [Sample(16, Num(8))], [Sample(18, Num(9))]];
    var a, b, c := Batch([Sample(1, Num(7))], 5, 5, 5, false), Batch([Sample(16, Num(8))], 20, 20, 20, false),
      Batch([Sample(18, Num(9))], 20, 20, 20, false);
    assert records[1..] == [[Sample(16, Num(8))], [Sample(18, Num(9))]] && records[2..] == [[Sample(18, Num(9))]];
    assert records[1..][1..] == records[2..] && records[2..][1..] == [];
    assert Batches(q, records[2..]) == [c];
    assert Batches(q, records[1..]) == [b, c];
    assert Batches(q, records) == [a, b, c];
  }

  lemma {:induction false} OneBatch(q: Query, rows: seq<Sample>)
    requires q.steps.step > 0 && rows != []
    ensures Batches(q, [rows]) == [BatchOf(q, rows, false)] && Flatten([rows]) == rows
  {
    assert [rows][1..] == [] && rows + [] == rows;
  }

  /** Steps of 10 and a look-back of 2: the row of time 1 is shown at the step 10, where no row is recent. */
  lemma {:induction false} ShortLookBackShowsOldRow()
    ensures
      var q, rows := Query(Steps(0, 20, 10), 2, 0, false, 20), [Sample(1, Num(7))];
      var bs := Batches(q, [rows]);
      && QueryOk(q) && Ordered(bs) && Wrong(q, bs, 0) && InRange(q, bs)
      && Emission(10, rows[0]) in Output(q, bs, 1) && At(q, rows, 10) == []
  {
    var q, rows := Query(Steps(0, 20, 10), 2, 0, false, 20), [Sample(1, Num(7))];
    OneBatch(q, rows);
    assert BatchOf(q, rows, false) == Batch(rows, 10, 10, 10, false);
    LatestMeaning(rows, 10, rows[0]);
  }

  /** Steps from 1 to 5 and a look-back of 3: the row of time 6 is shown at the step 5, before it is written. */
  lemma {:induction false} RowAfterTheEndIsShown()
    ensures
      var q, rows := Query(Steps(1, 5, 2), 3, 0, false, 5), [Sample(6, Num(7))];
      var bs := Batches(q, [rows]);
      && QueryOk(q) && Ordered(bs) && Wrong(q, bs, 0) && q.steps.step <= q.lookback
      && Emission(5, rows[0]) in Output(q, bs, 1) && At(q, rows, 5) == []
  {
    var q, rows := Query(Steps(1, 5, 2), 3, 0, false, 5), [Sample(6, Num(7))];
    OneBatch(q, rows);
    assert BatchOf(q, rows, false) == Batch(rows, 5, 5, 5, false);
    LatestMeaning(rows, 5, rows[0]);
  }

  /** Steps of 10 and a look-back of 2: the index of the first record has no pair for the step 20, so the pair
      that is left to the second record is that of the step 10, which shows the row of time 9. */
  lemma {:induction false} ShortIndexLosesStep()
    ensures
      var q := Query(Steps(0, 20, 10), 2, 0, false, 20);
      var records := [[Sample(9, Num(7)), Sample(11, Num(8))], [Sample(19, Num(9))]];
      var bs := Batches(q, records);
      && QueryOk(q) && Ordered(bs) && InRange(q, bs) && Loses(q, bs, Flatten(records), 0)
      && Output(q, bs, |bs|) == [Emission(20, Sample(19, Num(9)))]
  {
    var q := Query(Steps(0, 20, 10), 2, 0, false, 20);
    var x, y := [Sample(9, Num(7)), Sample(11, Num(8))], [Sample(19, Num(9))];
    OneBatch(q, y);
    assert [x, y][1..] == [y] && Flatten([x, y]) == x + y;
    var a, b := Batch(x, 10, 20, 10, false), Batch(y, 20, 20, 20, false);
    assert Batches(q, [x, y]) == [a, b] by {
      assert BatchOf(q, x, false) == a && BatchOf(q, y, false) == b;
    }
    assert Loses(q, [a, b], x + y, 0) by {
      LatestMeaning(x + y, 10, x[0]);
    }
    OnlySecond(q, [a, b]);
  }

  lemma {:induction false} OnlySecond(q: Query, bs: seq<Batch>)
    requires q == Query(Steps(0, 20, 10), 2, 0, false, 20) && |bs| == 2
    requires bs[0].first == bs[0].found == 10 && bs[0].last == 20
    requires bs[1] == Batch([Sample(19, Num(9))], 20, 20, 20, false)
    ensures Output(q, bs, 2) == [Emission(20, Sample(19, Num(9)))]
  {
    GivesNothing(q, bs);
    GivesOne(q, bs);
    assert Output(q, bs, 0) == [];
    assert Output(q, bs, 1) == [] + Given(q, bs, 0);
    assert Output(q, bs, 2) == Output(q, bs, 1) + Given(q, bs, 1);
  }

  lemma {:induction false} GivesNothing(q: Query, bs: seq<Batch>)
    requires q.steps.step == 10 && |bs| == 2
    requires bs[0].first == bs[0].found == 10 && bs[0].last == 20 == bs[1].first
    ensures Given(q, bs, 0) == []
  {
    assert SameWindow(bs, 0) && !LastRecord(bs, 0);
    assert Emits(q, bs[0].rows, 10, 0) == [];
  }

  lemma {:induction false} GivesOne(q: Query, bs: seq<Batch>)
    requires q == Query(Steps(0, 20, 10), 2, 0, false, 20) && |bs| == 2 && bs[0].found == 10
    requires bs[1] == Batch([Sample(19, Num(9))], 20, 20, 20, false)
    ensures Given(q, bs, 1) == [Emission(20, Sample(19, Num(9)))]
  {
    assert !SameWindow(bs, 1) && LastRecord(bs, 1) && PrevOf(bs, 1) == Some(Prev(10, LastRow(bs[0])));
    LoneSampled(q, Sample(19, Num(9)), 20, PrevOf(bs, 1));
  }

  /** A last record of one row, with no step before or after it to be padded. */
  lemma {:induction false} LoneSampled(q: Query, x: Sample, s: int, prev: Option<Prev>)
    requires q.steps.step > 0 && x.reading.Num? && s + q.steps.step > q.lastStep
    requires prev.Some? ==> prev.value.index + q.steps.step > s - q.steps.step
    ensures Sampled(q, [x], s, s, s, false, true, prev) == [Emission(s + q.offset, x)]
  {
  }

  /** Steps of 10 and a look-back of 20: a stale mark of time 25 hides the row of time 9 at the step 20, before it is
      written. */
  lemma {:induction false} LateStaleMarkHidesStep()
    ensures
      var q := Query(Steps(0, 20, 10), 20, 0, false, 20);
      var records := [[Sample(9, Num(7))], [Sample(25, Stale)]];
      var bs, all := Batches(q, records), Flatten(records);
      && QueryOk(q) && Ordered(bs) && |bs| == 2 && Hidden(bs, 1) && Loses(q, bs, all, 1)
      && At(q, all, 20) == [Emission(20, Sample(9, Num(7)))]
  {
    var q := Query(Steps(0, 20, 10), 20, 0, false, 20);
    var x, y := [Sample(9, Num(7))], [Sample(25, Stale)];
    OneBatch(q, y);
    assert [x, y][1..] == [y] && Flatten([x, y]) == x + y;
    var a, b := Batch(x, 10, 10, 10, false), Batch(y, 20, 20, 20, false);
    assert Batches(q, [x, y]) == [a, b] by {
      assert BatchOf(q, x, false) == a && BatchOf(q, y, false) == b;
    }
    assert Latest(x + y, 20) == Some(x[0]) by {
      LatestMeaning(x + y, 20, x[0]);
      assert (x + y)[0] == x[0] && LaterThan(x + y, 0, 20);
    }
  }

  // ----- the columns of the output

  /** The entry of a step: the value of the sample it ought to show, or 1 if samples are counted. */
  ghost predicate EntryIs(q: Query, all: seq<Sample>, time: int, value: int) {
    exists x: Sample ::
      ShownAt(q, all, time - q.offset, x) && x.reading.Num? && value == if q.counts then 1 else x.reading.value
  }

  lemma {:induction false} RightEntry(q: Query, all: seq<Sample>, e: Emission)
    requires Right(q, all, e)
    ensures EntryIs(q, all, e.time, ValueOf(q, e))
  {
    AtMeaning(q, all, e.time - q.offset, e.sample);
    assert e == Emission(e.time, e.sample);
    assert ShownAt(q, all, e.time - q.offset, e.sample);
  }

  /** Every step from `from` to `upto` that ought to show a sample has an entry. */
  ghost predicate AllShown(q: Query, all: seq<Sample>, from: int, upto: int, times: seq<int>)
    requires q.steps.step > 0
  {
    forall s, x :: from <= s <= upto && Aligns(q.steps, s) && ShownAt(q, all, s, x) ==> s + q.offset in times
  }

  lemma {:induction false} EmitsShowAll(q: Query, all: seq<Sample>, from: int, upto: int)
    requires q.steps.step > 0 && Aligns(q.steps, from)
    ensures AllShown(q, all, from, upto, TimeColumn(Emits(q, all, from, upto)))
  {
    var shown := Emits(q, all, from, upto);
    forall s, x | from <= s <= upto && Aligns(q.steps, s) && ShownAt(q, all, s, x)
      ensures s + q.offset in TimeColumn(shown)
    {
      GridSpaced(q.steps);
      var k := EmitsShows(q, GridOf(q.steps), all, from, upto, s, x);
      assert TimeColumn(shown)[k] == s + q.offset;
    }
  }

  /** The steps of the first record are steps of the query. */
  lemma {:induction false} BeginsOnStep(q: Query, records: seq<seq<Sample>>)
    requires QueryOk(q) && Batches(q, records) != []
    ensures Aligns(q.steps, Batches(q, records)[0].first)
  {
    BatchesRounded(q, records);
    var b := Batches(q, records)[0];
    CurrStepIsLeast(q.steps, b.rows[0].time);
  }

  /** The time and the value column of a run. Where no record is wrong, every entry is that of the latest sample, recent
      and not stale; where also none loses steps, every step that ought to show a sample has its entry. */
  method SampleColumns(q: Query, records: seq<seq<Sample>>) returns (times: seq<int>, values: seq<int>)
    requires QueryOk(q) && Ordered(Batches(q, records))
    ensures |values| == |times| && (q.counts ==> forall k :: 0 <= k < |values| ==> values[k] == 1)
    ensures
      var bs, all := Batches(q, records), Flatten(records);
      bs != [] && (forall j :: 0 <= j < |bs| ==> !Wrong(q, bs, j)) ==>
        && (forall k :: 0 <= k < |times| ==> EntryIs(q, all, times[k], values[k]))
        && ((forall j :: 0 <= j < |bs| ==> !Loses(q, bs, all, j)) ==>
              var shown := Emits(q, all, bs[0].first, RunEnd(q, bs));
              && values == Column(q, shown) && times == TimeColumn(shown)
              && AllShown(q, all, bs[0].first, RunEnd(q, bs), times))
  {
    var out := SampleRun(q, records);
    times, values := TimeColumn(out), Column(q, out);
    ghost var bs, all := Batches(q, records), Flatten(records);
    if bs != [] && forall j :: 0 <= j < |bs| ==> !Wrong(q, bs, j) {
      assert AllRight(q, all, out);
      forall k | 0 <= k < |times|
        ensures EntryIs(q, all, times[k], values[k])
      {
        assert Right(q, all, out[k]);
        RightEntry(q, all, out[k]);
      }
      BeginsOnStep(q, records);
      EmitsShowAll(q, all, bs[0].first, RunEnd(q, bs));
    }
  }
}
