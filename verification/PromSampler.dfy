/** The Prometheus sampler: at each step the latest sample at or before it, if it is recent and not stale. */
module PromSampler {
  import opened Records
  import opened PromSteps
  import opened PromIndex

  datatype Reading = Stale | Num(value: int)

  datatype Sample = Sample(time: int, reading: Reading)

  /** One entry of the output: the time of a step and the sample it carries. */
  datatype Emission = Emission(time: int, sample: Sample)

  /** The parameters of a query; with `counts` every sample counts as 1, and padding ends at `lastStep`. */
  datatype Query = Query(steps: Steps, lookback: int, offset: int, counts: bool, lastStep: int)

  /** The last sample of the record before, and the last step of that record. */
  datatype Prev = Prev(index: int, sample: Sample)

  function Times(rows: seq<Sample>): (times: seq<int>)
    ensures |times| == |rows| && forall k :: 0 <= k < |rows| ==> times[k] == rows[k].time
  {
    seq(|rows|, k requires 0 <= k < |rows| => rows[k].time)
  }

  ghost predicate InOrder(rows: seq<Sample>) {
    forall i, j :: 0 <= i < j < |rows| ==> rows[i].time <= rows[j].time
  }

  function LastSample(rows: seq<Sample>): Sample {
    if rows == [] then Sample(0, Stale) else rows[|rows| - 1]
  }

  // ----- what a step shows

  function Latest(rows: seq<Sample>, s: int): Option<Sample> {
    var n := |rows| - 1;
    if rows == [] then None else if rows[n].time <= s then Some(rows[n]) else Latest(rows[..n], s)
  }

  /** The latest sample is the one at or before the step with only later ones after it. */
  lemma {:induction false} LatestMeaning(rows: seq<Sample>, s: int, x: Sample)
    ensures Latest(rows, s) == Some(x)
            <==> exists i :: 0 <= i < |rows| && rows[i] == x && x.time <= s && LaterThan(rows, i, s)
    ensures Latest(rows, s) == None <==> After(rows, s)
  {
    var n := |rows| - 1;
    if rows != [] {
      if rows[n].time <= s {
        assert LaterThan(rows, n, s);
      } else {
        LatestMeaning(rows[..n], s, x);
        assert forall i :: 0 <= i < n ==> (LaterThan(rows, i, s) <==> LaterThan(rows[..n], i, s));
        assert rows == rows[..n] + [rows[n]];
      }
    }
  }

  ghost predicate LaterThan(rows: seq<Sample>, i: int, s: int) {
    forall k :: 0 <= i < k < |rows| ==> rows[k].time > s
  }

  ghost predicate After(rows: seq<Sample>, s: int) {
    forall k :: 0 <= k < |rows| ==> rows[k].time > s
  }

  function Shown(q: Query, x: Sample, s: int): seq<Emission> {
    if x.time < s - q.lookback || x.reading.Stale? then [] else [Emission(s + q.offset, x)]
  }

  /** What is appended to the value column; no entry is stale. */
  function ValueOf(q: Query, e: Emission): int {
    if q.counts || e.sample.reading.Stale? then 1 else e.sample.reading.value
  }

  function Column(q: Query, out: seq<Emission>): seq<int> {
    seq(|out|, k requires 0 <= k < |out| => ValueOf(q, out[k]))
  }

  function TimeColumn(out: seq<Emission>): seq<int> {
    seq(|out|, k requires 0 <= k < |out| => out[k].time)
  }

  function At(q: Query, rows: seq<Sample>, s: int): seq<Emission> {
    match Latest(rows, s)
    case None => []
    case Some(x) => Shown(q, x, s)
  }

  /** The sample a step ought to show: the latest at or before it, no older than the look-back and not stale. */
  ghost predicate ShownAt(q: Query, rows: seq<Sample>, s: int, x: Sample) {
    exists i :: 0 <= i < |rows| && rows[i] == x && IsShown(q, rows, s, i)
  }

  ghost predicate IsShown(q: Query, rows: seq<Sample>, s: int, i: nat)
    requires i < |rows|
  {
    s - q.lookback <= rows[i].time <= s && rows[i].reading.Num? && LaterThan(rows, i, s)
  }

  /** And nothing else is shown. */
  lemma {:induction false} AtMeaning(q: Query, rows: seq<Sample>, s: int, x: Sample)
    ensures At(q, rows, s) == [Emission(s + q.offset, x)] <==> ShownAt(q, rows, s, x)
    ensures At(q, rows, s) == [] <==> forall y :: !ShownAt(q, rows, s, y)
  {
    LatestMeaning(rows, s, x);
    var latest := Latest(rows, s);
    if latest.Some? {
      LatestMeaning(rows, s, latest.value);
    }
    forall y | ShownAt(q, rows, s, y)
      ensures latest == Some(y)
    {
      LatestMeaning(rows, s, y);
    }
    if At(q, rows, s) != [] {
      assert ShownAt(q, rows, s, latest.value);
    }
  }

  /** What the steps from `from` to `upto` show. */
  function Emits(q: Query, rows: seq<Sample>, from: int, upto: int): seq<Emission>
    requires q.steps.step > 0
    decreases upto - from + q.steps.step
  {
    if from > upto then [] else At(q, rows, from) + Emits(q, rows, from + q.steps.step, upto)
  }

  lemma {:induction false} EmitsSplit(q: Query, grid: int -> bool, rows: seq<Sample>, from: int, mid: int, upto: int)
    requires q.steps.step > 0 && Spaced(q.steps.step, grid) && grid(from) && grid(mid)
    requires from - q.steps.step <= mid <= upto
    ensures Emits(q, rows, from, upto) == Emits(q, rows, from, mid) + Emits(q, rows, mid + q.steps.step, upto)
    decreases mid - from + q.steps.step
  {
    var step := q.steps.step;
    assert grid(from - step) && grid(from + step);
    if from <= mid {
      EmitsSplit(q, grid, rows, from + step, mid, upto);
      Associate(At(q, rows, from), Emits(q, rows, from + step, mid), Emits(q, rows, mid + step, upto));
    }
  }

  /** No step is passed over. */
  lemma {:induction false} EmitsShows(
    q: Query, grid: int -> bool, rows: seq<Sample>, from: int, upto: int, s: int, x: Sample
  ) returns (k: nat)
    requires q.steps.step > 0 && Spaced(q.steps.step, grid) && grid(from) && grid(s) && from <= s <= upto
    requires ShownAt(q, rows, s, x)
    ensures k < |Emits(q, rows, from, upto)| && Emits(q, rows, from, upto)[k] == Emission(s + q.offset, x)
    decreases s - from
  {
    if s == from {
      AtMeaning(q, rows, s, x);
      k := 0;
    } else {
      assert grid(from + q.steps.step);
      k := EmitsShows(q, grid, rows, from + q.steps.step, upto, s, x);
      k := |At(q, rows, from)| + k;
    }
  }

  /** Rows before a sample that is old enough, and rows after the steps, do not matter. */
  lemma {:induction false} EmitsMiddle(
    q: Query, before: seq<Sample>, rows: seq<Sample>, after: seq<Sample>, from: int, upto: int
  )
    requires q.steps.step > 0 && rows != [] && rows[0].time <= from && After(after, upto)
    ensures Emits(q, before + rows + after, from, upto) == Emits(q, rows, from, upto)
    decreases upto - from + q.steps.step
  {
    if from <= upto {
      assert At(q, before + rows + after, from) == At(q, rows, from) by {
        LatestDrops(before + rows, after, from);
        LatestKeeps(before, rows, from);
      }
      EmitsMiddle(q, before, rows, after, from + q.steps.step, upto);
    }
  }

  lemma {:induction false} LatestDrops(rows: seq<Sample>, after: seq<Sample>, s: int)
    requires After(after, s)
    ensures Latest(rows + after, s) == Latest(rows, s)
  {
    if after == [] {
      assert rows + after == rows;
    } else {
      var n := |after| - 1;
      assert (rows + after)[..|rows| + n] == rows + after[..n];
      LatestDrops(rows, after[..n], s);
    }
  }

  lemma {:induction false} LatestKeeps(before: seq<Sample>, rows: seq<Sample>, s: int)
    requires rows != [] && rows[0].time <= s
    ensures Latest(before + rows, s) == Latest(rows, s)
  {
    var n := |rows| - 1;
    if rows[n].time > s {
      assert (before + rows)[..|before| + n] == before + rows[..n];
      LatestKeeps(before, rows[..n], s);
    }
  }

  // ----- the sampler

  /** A sample repeated at the steps from `from` on for as long as it is recent; a stale one never is. */
  function Repeats(q: Query, x: Sample, from: int, upto: int): seq<Emission>
    requires q.steps.step > 0
    decreases upto - from + q.steps.step
  {
    if from > upto || Shown(q, x, from) == [] then []
    else Shown(q, x, from) + Repeats(q, x, from + q.steps.step, upto)
  }

  method PopulateByPrevious(q: Query, prev: Sample, nextStep: int, lastStep: int) returns (out: seq<Emission>)
    requires q.steps.step > 0
    ensures out == Repeats(q, prev, nextStep, lastStep)
  {
    out := [];
    if prev.reading.Stale? {
      return;
    }
    var t := nextStep;
    while t <= lastStep
      invariant out + Repeats(q, prev, t, lastStep) == Repeats(q, prev, nextStep, lastStep)
      decreases lastStep - t
    {
      if prev.time < t - q.lookback {
        break;
      }
      Associate(out, Shown(q, prev, t), Repeats(q, prev, t + q.steps.step, lastStep));
      out := out + [Emission(t + q.offset, prev)];
      t := t + q.steps.step;
    }
    assert out + [] == out;
  }

  /** From its own time on that is what a single sample shows. */
  lemma {:induction false} RepeatsShow(q: Query, x: Sample, from: int, upto: int)
    requires q.steps.step > 0 && x.time <= from
    ensures Repeats(q, x, from, upto) == Emits(q, [x], from, upto)
    decreases upto - from + q.steps.step
  {
    if from <= upto {
      if Shown(q, x, from) == [] {
        ShowsNothing(q, x, from, upto);
      } else {
        RepeatsShow(q, x, from + q.steps.step, upto);
      }
    }
  }

  lemma {:induction false} ShowsNothing(q: Query, prev: Sample, from: int, upto: int)
    requires q.steps.step > 0 && prev.time <= from && Shown(q, prev, from) == []
    ensures Emits(q, [prev], from, upto) == []
    decreases upto - from + q.steps.step
  {
    if from <= upto {
      ShowsNothing(q, prev, from + q.steps.step, upto);
    }
  }

  lemma {:induction false} LatestAt(rows: seq<Sample>, s: int, hi: nat)
    requires hi <= |rows| && forall k :: hi <= k < |rows| ==> rows[k].time > s
    requires hi > 0 ==> rows[hi - 1].time <= s
    ensures Latest(rows, s) == if hi == 0 then None else Some(rows[hi - 1])
  {
    if hi < |rows| {
      LatestAt(rows[..|rows| - 1], s, hi);
    }
  }

  lemma {:induction false} LatestInPair(rows: seq<Sample>, s: int, hi: nat)
    requires InOrder(rows) && hi == First(Times(rows), s + 1, 0)
    ensures Latest(rows, s) == if hi == 0 then None else Some(rows[hi - 1])
  {
    assert hi < |rows| ==> Times(rows)[hi] == rows[hi].time >= s + 1;
    assert hi > 0 ==> Times(rows)[hi - 1] == rows[hi - 1].time < s + 1;
    LatestAt(rows, s, hi);
  }

  lemma {:induction false} TimesSorted(rows: seq<Sample>)
    requires InOrder(rows)
    ensures Sorted(Times(rows))
  {
  }

  lemma {:induction false} PairBounds(times: seq<int>, s: int, delta: int)
    requires Sorted(times) && 0 <= delta
    ensures
      var lo, hi := First(times, s - delta, 0), First(times, s + 1, 0);
      && lo <= hi
      && (lo < hi ==> times[hi - 1] >= s - delta)
      && (lo == hi > 0 ==> times[0] <= times[hi - 1] < s - delta)
      && (hi == 0 && times != [] ==> times[0] > s)
  {
    var lo, hi := First(times, s - delta, 0), First(times, s + 1, 0);
    if lo < hi {
      assert times[lo] <= times[hi - 1];
    }
  }

  /** A row that is taken for a step without a look at its time. */
  function Unaged(q: Query, x: Sample, s: int): seq<Emission> {
    if x.reading.Stale? then [] else [Emission(s + q.offset, x)]
  }

  /** What the sampler takes for a step: the last row the index gives it, or else the sample before the record. */
  function Taken(q: Query, rows: seq<Sample>, lo: nat, hi: nat, s: int, prev: Option<Prev>): seq<Emission> {
    if lo < hi <= |rows| then Unaged(q, rows[hi - 1], s)
    else if prev.None? then []
    else Shown(q, prev.value.sample, s)
  }

  /** With the rows of a step it is what the step shows: a sample from before the record is never recent where
      the record has none. */
  lemma {:induction false} TakenIsRight(q: Query, rows: seq<Sample>, s: int, prev: Option<Prev>, lo: nat, hi: nat)
    requires rows != [] && InOrder(rows) && 0 <= q.lookback && rows[0].time <= s
    requires lo == First(Times(rows), s - q.lookback, 0) && hi == First(Times(rows), s + 1, 0)
    requires prev.Some? ==> prev.value.sample.time <= rows[0].time
    ensures lo <= hi && Taken(q, rows, lo, hi, s, prev) == At(q, rows, s)
  {
    TimesSorted(rows);
    PairBounds(Times(rows), s, q.lookback);
    LatestInPair(rows, s, hi);
  }

  /** The padding between the record before and this one. */
  function Padding(q: Query, prev: Option<Prev>, first: int): seq<Emission>
    requires q.steps.step > 0
  {
    if prev.None? then []
    else Repeats(q, prev.value.sample, prev.value.index + q.steps.step, first - q.steps.step)
  }

  /** Pair i of an index points into the rows. */
  ghost predicate PairInside(index: seq<nat>, i: nat, n: nat) {
    i + i + 1 < |index| && index[i + i] <= index[i + i + 1] <= n
  }

  ghost predicate PairsInside(index: seq<nat>, m: nat, n: nat) {
    |index| == m + m && m > 0 && forall i: nat :: i < m ==> PairInside(index, i, n)
  }

  /** What the first n pairs of an index take. */
  function TakenTo(q: Query, rows: seq<Sample>, index: seq<nat>, first: int, prev: Option<Prev>, n: nat): seq<Emission>
    requires n + n <= |index|
  {
    if n == 0 then []
    else
      var i := n - 1;
      TakenTo(q, rows, index, first, prev, i)
      + Taken(q, rows, index[i + i], index[i + i + 1], StepAt(q.steps.step, first, i), prev)
  }

  /** The same with the padding before the first. */
  function Done(q: Query, rows: seq<Sample>, index: seq<nat>, first: int, prev: Option<Prev>, n: nat): seq<Emission>
    requires q.steps.step > 0 && n + n <= |index|
  {
    if n == 0 then [] else Padding(q, prev, first) + TakenTo(q, rows, index, first, prev, n)
  }

  ghost predicate IsDone(
    q: Query, rows: seq<Sample>, index: seq<nat>, first: int, prev: Option<Prev>, n: nat, out: seq<Emission>
  )
    requires q.steps.step > 0
  {
    n + n <= |index| && out == Done(q, rows, index, first, prev, n)
  }

  /** What the sampler gives for a record: its pairs, and after the last record the padding to the end. */
  ghost predicate PairsGive(
    q: Query, rows: seq<Sample>, index: seq<nat>, first: int, prev: Option<Prev>, sameWindow: bool, lastRec: bool,
    m: nat, out: seq<Emission>
  )
    requires q.steps.step > 0 && m > 0 && |index| == m + m
  {
    out == Done(q, rows, index, first, prev, if sameWindow then m - 1 else m)
           + if lastRec
             then Repeats(q, LastSample(rows), StepAt(q.steps.step, first, m - 1) + q.steps.step, q.lastStep)
             else []
  }

  class FloatSampler {
    var prev: Option<Prev>

    constructor ()
      ensures prev == None
    {
      prev := None;
    }

    /** The padding before a record. */
    method PadBefore(q: Query, firstStep: int) returns (out: seq<Emission>)
      requires q.steps.step > 0
      ensures out == Padding(q, prev, firstStep)
    {
      out := [];
      if prev.Some? {
        var nextStep, lastStep := prev.value.index + q.steps.step, firstStep - q.steps.step;
        if nextStep <= lastStep {
          out := PopulateByPrevious(q, prev.value.sample, nextStep, lastStep);
        }
      }
    }

    /** Step i of a record, and before the first the padding. */
    method AggregateStep(q: Query, rows: seq<Sample>, index: seq<nat>, firstStep: int, i: nat)
      returns (ts: int, out: seq<Emission>)
      requires q.steps.step > 0 && PairInside(index, i, |rows|)
      ensures ts == StepAt(q.steps.step, firstStep, i)
      ensures out
           == (if i == 0 then Padding(q, prev, firstStep) else [])
              + Taken(q, rows, index[i + i], index[i + i + 1], ts, prev)
    {
      ts := firstStep + i * q.steps.step;
      StepAtIs(q.steps.step, firstStep, i);
      out := [];
      if i == 0 {
        out := PadBefore(q, firstStep);
      }
      var lo, hi := index[i + i], index[i + i + 1];
      if lo != hi {
        if !rows[hi - 1].reading.Stale? {
          out := out + [Emission(ts + q.offset, rows[hi - 1])];
        }
      } else if !(prev.None? || prev.value.sample.time < ts - q.lookback || prev.value.sample.reading.Stale?) {
        out := out + [Emission(ts + q.offset, prev.value.sample)];
      }
    }

    /** The same after the steps before it. */
    method AddStep(
      q: Query, rows: seq<Sample>, index: seq<nat>, firstStep: int, i: nat, before: seq<Emission>
    ) returns (ts: int, out: seq<Emission>)
      requires q.steps.step > 0 && PairInside(index, i, |rows|) && IsDone(q, rows, index, firstStep, prev, i, before)
      ensures IsDone(q, rows, index, firstStep, prev, i + 1, out) && ts == StepAt(q.steps.step, firstStep, i)
    {
      var more;
      ts, more := AggregateStep(q, rows, index, firstStep, i);
      DoneNext(q, rows, index, firstStep, prev, i);
      out := before + more;
    }

    /** The steps of a record; the last one is left out if the next record begins in it. */
    method OwnSteps(q: Query, rows: seq<Sample>, index: seq<nat>, firstStep: int, sameWindow: bool, ghost m: nat)
      returns (ts: int, out: seq<Emission>)
      requires q.steps.step > 0 && PairsInside(index, m, |rows|)
      ensures !sameWindow ==> ts == StepAt(q.steps.step, firstStep, m - 1)
      ensures IsDone(q, rows, index, firstStep, prev, if sameWindow then m - 1 else m, out)
    {
      var numStep := |index| / 2;
      ts, out := 0, [];
      ghost var done: nat := 0;
      for i := 0 to numStep
        invariant numStep == m && done == if sameWindow && i == m then i - 1 else i
        invariant !sameWindow && i > 0 ==> ts == StepAt(q.steps.step, firstStep, i - 1)
        invariant IsDone(q, rows, index, firstStep, prev, done, out)
      {
        if !(sameWindow && i == numStep - 1) {
          assert PairInside(index, i, |rows|);
          ts, out := AddStep(q, rows, index, firstStep, i, out);
          done := done + 1;
        }
      }
    }

    /** One record: padding, its own steps, and after the last record the padding to the end. The last row is
        kept for the next record. */
    method Aggregate(
      q: Query, rows: seq<Sample>, index: seq<nat>, firstStep: int, sameWindow: bool, lastRec: bool, ghost m: nat
    ) returns (out: seq<Emission>)
      requires q.steps.step > 0 && rows != [] && PairsInside(index, m, |rows|) && !(sameWindow && lastRec)
      modifies this
      ensures
        var last := StepAt(q.steps.step, firstStep, m - 1);
        && PairsGive(q, rows, index, firstStep, old(prev), sameWindow, lastRec, m, out)
        && prev == if lastRec then None else Some(Prev(last, rows[|rows| - 1]))
    {
      var ts;
      ts, out := OwnSteps(q, rows, index, firstStep, sameWindow, m);
      var last := LastStepOf(q.steps.step, firstStep, index, m);
      prev := Some(Prev(last, rows[|rows| - 1]));
      if lastRec {
        var padding := PadAfter(q, ts);
        out := out + padding;
        prev := None;
      }
    }

    /** The padding after the last record. */
    method PadAfter(q: Query, ts: int) returns (out: seq<Emission>)
      requires q.steps.step > 0 && prev.Some?
      ensures out == Repeats(q, prev.value.sample, ts + q.steps.step, q.lastStep)
    {
      out := [];
      var nextStep := ts + q.steps.step;
      if nextStep <= q.lastStep {
        out := PopulateByPrevious(q, prev.value.sample, nextStep, q.lastStep);
      }
    }
  }

  /** The step of the last pair of an index. */
  method LastStepOf(step: int, firstStep: int, index: seq<nat>, ghost m: nat) returns (last: int)
    requires m > 0 && |index| == m + m
    ensures last == StepAt(step, firstStep, m - 1)
  {
    last := firstStep + (|index| / 2 - 1) * step;
    StepAtIs(step, firstStep, m - 1);
  }

  lemma {:induction false} DoneNext(
    q: Query, rows: seq<Sample>, index: seq<nat>, first: int, prev: Option<Prev>, n: nat
  )
    requires q.steps.step > 0 && n + n + 1 < |index|
    ensures Done(q, rows, index, first, prev, n + 1)
         == Done(q, rows, index, first, prev, n)
            + ((if n == 0 then Padding(q, prev, first) else [])
               + Taken(q, rows, index[n + n], index[n + n + 1], StepAt(q.steps.step, first, n), prev))
  {
    var taken := Taken(q, rows, index[n + n], index[n + n + 1], StepAt(q.steps.step, first, n), prev);
    if n == 0 {
      assert TakenTo(q, rows, index, first, prev, 1) == [] + taken == taken;
    } else {
      Associate(Padding(q, prev, first), TakenTo(q, rows, index, first, prev, n), taken);
      assert [] + taken == taken;
    }
  }

  // ----- what the index makes of it

  lemma {:induction false} StepAtAligned(g: Steps, first: int, n: nat)
    requires g.step > 0 && Aligns(g, first)
    ensures Aligns(g, StepAt(g.step, first, n)) && first <= StepAt(g.step, first, n)
    decreases n
  {
    if n > 0 {
      StepAfter(g, first);
      StepAtAligned(g, first + g.step, n - 1);
    }
  }

  /** A record of several steps, and the sample before it. */
  ghost predicate Ready(q: Query, rows: seq<Sample>, first: int, prev: Option<Prev>) {
    && q.steps.step > 0 && 0 <= q.lookback && rows != [] && InOrder(rows)
    && Aligns(q.steps, first) && rows[0].time <= first
    && (prev.Some? ==> prev.value.sample.time <= rows[0].time)
  }

  /** The entries an index of pairs has for step i are what the step shows. */
  lemma {:induction false} StepIsRight(
    q: Query, rows: seq<Sample>, index: seq<nat>, first: int, found: int, i: nat, prev: Option<Prev>
  )
    requires Ready(q, rows, first, prev)
    requires index == Pairs(q.steps.step, q.lookback, Times(rows), first, found)
    requires i < CountSteps(q.steps.step, first, found)
    ensures
      var s := StepAt(q.steps.step, first, i);
      PairInside(index, i, |rows|) && Taken(q, rows, index[i + i], index[i + i + 1], s, prev) == At(q, rows, s)
  {
    var s := StepAt(q.steps.step, first, i);
    StepAtAligned(q.steps, first, i);
    PairsAt(q.steps.step, q.lookback, Times(rows), first, found, i);
    assert [index[i + i], index[i + i + 1]][0] == Pair(q.lookback, Times(rows), s)[0];
    assert [index[i + i], index[i + i + 1]][1] == Pair(q.lookback, Times(rows), s)[1];
    TakenIsRight(q, rows, s, prev, index[i + i], index[i + i + 1]);
  }

  lemma {:induction false} EmitsNext(q: Query, grid: int -> bool, rows: seq<Sample>, from: int, done: int)
    requires q.steps.step > 0 && Spaced(q.steps.step, grid) && grid(from) && grid(done) && from - q.steps.step <= done
    ensures Emits(q, rows, from, done + q.steps.step) == Emits(q, rows, from, done) + At(q, rows, done + q.steps.step)
  {
    var s := done + q.steps.step;
    EmitsSplit(q, grid, rows, from, done, s);
    assert Emits(q, rows, s + q.steps.step, s) == [];
  }

  lemma {:induction false} StepOnGrid(step: int, grid: int -> bool, first: int, n: nat)
    requires step > 0 && Spaced(step, grid) && grid(first)
    ensures grid(StepAt(step, first, n)) && first <= StepAt(step, first, n)
    decreases n
  {
    if n > 0 {
      assert grid(first + step);
      StepOnGrid(step, grid, first + step, n - 1);
    }
  }

  /** Pair i points into the rows and gives step i what the rows show at it. */
  ghost predicate PairRight(q: Query, rows: seq<Sample>, index: seq<nat>, first: int, prev: Option<Prev>, i: nat) {
    && PairInside(index, i, |rows|)
    && var s := StepAt(q.steps.step, first, i);
       Taken(q, rows, index[i + i], index[i + i + 1], s, prev) == At(q, rows, s)
  }

  ghost predicate PairsRight(q: Query, rows: seq<Sample>, index: seq<nat>, first: int, prev: Option<Prev>, n: nat) {
    n > 0 ==> PairsRight(q, rows, index, first, prev, n - 1) && PairRight(q, rows, index, first, prev, n - 1)
  }

  ghost predicate TakesAsShown(q: Query, rows: seq<Sample>, index: seq<nat>, first: int, prev: Option<Prev>, n: nat)
    requires q.steps.step > 0 && n + n <= |index|
  {
    TakenTo(q, rows, index, first, prev, n) == Emits(q, rows, first, StepAt(q.steps.step, first, n) - q.steps.step)
  }

  lemma {:induction false} TakesNext(
    q: Query, rows: seq<Sample>, index: seq<nat>, first: int, prev: Option<Prev>, i: nat
  )
    requires q.steps.step > 0 && i + i + 1 < |index| && TakesAsShown(q, rows, index, first, prev, i)
    requires PairRight(q, rows, index, first, prev, i)
    requires
      var s := StepAt(q.steps.step, first, i);
      Emits(q, rows, first, StepAt(q.steps.step, first, i + 1) - q.steps.step)
      == Emits(q, rows, first, s - q.steps.step) + At(q, rows, s)
    ensures TakesAsShown(q, rows, index, first, prev, i + 1)
  {
  }

  /** The first n steps of such an index show what the rows show. */
  lemma {:induction false} PairsTake(
    q: Query, grid: int -> bool, rows: seq<Sample>, index: seq<nat>, first: int, prev: Option<Prev>, n: nat
  )
    requires q.steps.step > 0 && Spaced(q.steps.step, grid) && grid(first) && n + n <= |index|
    requires PairsRight(q, rows, index, first, prev, n)
    ensures TakesAsShown(q, rows, index, first, prev, n)
  {
    if n > 0 {
      PairsTake(q, grid, rows, index, first, prev, n - 1);
      EmitsOneMore(q, grid, rows, first, n - 1);
      TakesNext(q, rows, index, first, prev, n - 1);
    }
  }

  lemma {:induction false} AllPairsRight(
    q: Query, rows: seq<Sample>, index: seq<nat>, first: int, found: int, prev: Option<Prev>, n: nat
  )
    requires Ready(q, rows, first, prev)
    requires index == Pairs(q.steps.step, q.lookback, Times(rows), first, found)
    requires n <= CountSteps(q.steps.step, first, found)
    ensures PairsRight(q, rows, index, first, prev, n)
  {
    if n > 0 {
      AllPairsRight(q, rows, index, first, found, prev, n - 1);
      StepIsRight(q, rows, index, first, found, n - 1, prev);
    }
  }

  lemma {:induction false} EmitsOneMore(q: Query, grid: int -> bool, rows: seq<Sample>, first: int, i: nat)
    requires q.steps.step > 0 && Spaced(q.steps.step, grid) && grid(first)
    ensures
      var s := StepAt(q.steps.step, first, i);
      Emits(q, rows, first, StepAt(q.steps.step, first, i + 1) - q.steps.step)
      == Emits(q, rows, first, s - q.steps.step) + At(q, rows, s)
  {
    var s := StepAt(q.steps.step, first, i);
    StepOnGrid(q.steps.step, grid, first, i);
    assert grid(s - q.steps.step);
    StepAtIs(q.steps.step, first, i);
    EmitsNext(q, grid, rows, first, s - q.steps.step);
  }

  lemma {:induction false} PairsPoint(
    q: Query, rows: seq<Sample>, index: seq<nat>, first: int, found: int, prev: Option<Prev>
  )
    requires Ready(q, rows, first, prev) && Aligns(q.steps, found) && first <= found
    requires index == Pairs(q.steps.step, q.lookback, Times(rows), first, found)
    ensures PairsInside(index, CountSteps(q.steps.step, first, found), |rows|)
  {
    var m := CountSteps(q.steps.step, first, found);
    LastCounted(q.steps, first, found);
    PairsAt(q.steps.step, q.lookback, Times(rows), first, found, 0);
    forall i: nat | i < m
      ensures PairInside(index, i, |rows|)
    {
      StepIsRight(q, rows, index, first, found, i, prev);
    }
  }

  /** After a record its last row is the latest. */
  lemma {:induction false} AfterLast(q: Query, rows: seq<Sample>, from: int, upto: int)
    requires q.steps.step > 0 && rows != [] && rows[|rows| - 1].time <= from
    ensures Emits(q, rows, from, upto) == Emits(q, [rows[|rows| - 1]], from, upto)
  {
    var n := |rows| - 1;
    EmitsMiddle(q, rows[..n], [rows[n]], [], from, upto);
    assert rows[..n] + [rows[n]] + [] == rows;
  }

  /** The steps a record does by itself. In a record of a single step the last row is taken whatever its time. */
  function Own(q: Query, rows: seq<Sample>, first: int, last: int, found: int, sameWindow: bool): seq<Emission>
    requires q.steps.step > 0
  {
    if first == last then (if sameWindow then [] else Unaged(q, LastSample(rows), first))
    else Emits(q, rows, first, if sameWindow then found - q.steps.step else found)
  }

  /** What one record adds: the padding before it, its own steps up to the last one the index has found, and
      after the last record the padding to the end. The last step found is left to the next record if that is
      taken to begin in it; when it is the only one, the padding before it is not done either. */
  function Sampled(
    q: Query, rows: seq<Sample>, first: int, last: int, found: int, sameWindow: bool, lastRec: bool, prev: Option<Prev>
  ): seq<Emission>
    requires q.steps.step > 0
  {
    (if sameWindow && first == found then [] else Padding(q, prev, first))
    + Own(q, rows, first, last, found, sameWindow)
    + (if lastRec then Repeats(q, LastSample(rows), found + q.steps.step, q.lastStep) else [])
  }

  /** A record of one step: its index is the whole record. */
  lemma {:induction false} OneStepDone(
    q: Query, rows: seq<Sample>, index: seq<nat>, first: int, prev: Option<Prev>, sameWindow: bool
  )
    requires q.steps.step > 0 && rows != [] && index == [0, |rows|]
    ensures PairsInside(index, 1, |rows|) && StepAt(q.steps.step, first, 0) == first
    ensures Done(q, rows, index, first, prev, if sameWindow then 0 else 1)
         == (if sameWindow then [] else Padding(q, prev, first)) + Own(q, rows, first, first, first, sameWindow)
  {
    assert PairInside(index, 0, |rows|);
    assert TakenTo(q, rows, index, first, prev, 1)
        == [] + Taken(q, rows, 0, |rows|, StepAt(q.steps.step, first, 0), prev);
  }

  /** A record of several steps: its index has a pair for each step up to the last one found. */
  lemma {:induction false} StepsDone(
    q: Query, rows: seq<Sample>, index: seq<nat>, first: int, last: int, found: int, prev: Option<Prev>,
    sameWindow: bool
  ) returns (m: nat)
    requires Ready(q, rows, first, prev) && Aligns(q.steps, found) && first <= found && first < last
    requires index == Pairs(q.steps.step, q.lookback, Times(rows), first, found)
    ensures PairsInside(index, m, |rows|) && StepAt(q.steps.step, first, m - 1) == found
    ensures Done(q, rows, index, first, prev, if sameWindow then m - 1 else m)
         == (if sameWindow && first == found then [] else Padding(q, prev, first))
            + Own(q, rows, first, last, found, sameWindow)
  {
    m := CountSteps(q.steps.step, first, found);
    LastCounted(q.steps, first, found);
    PairsPoint(q, rows, index, first, found, prev);
    AllPairsRight(q, rows, index, first, found, prev, if sameWindow then m - 1 else m);
    IndexDone(q, rows, index, first, last, found, prev, sameWindow, m);
  }

  lemma {:induction false} IndexDone(
    q: Query, rows: seq<Sample>, index: seq<nat>, first: int, last: int, found: int, prev: Option<Prev>,
    sameWindow: bool, m: nat
  )
    requires q.steps.step > 0 && rows != [] && Aligns(q.steps, first) && first < last && 0 < m && m + m == |index|
    requires StepAt(q.steps.step, first, m - 1) == found && (m == 1 <==> first == found)
    requires PairsRight(q, rows, index, first, prev, if sameWindow then m - 1 else m)
    ensures Done(q, rows, index, first, prev, if sameWindow then m - 1 else m)
         == (if sameWindow && first == found then [] else Padding(q, prev, first))
            + Own(q, rows, first, last, found, sameWindow)
  {
    StepAtIs(q.steps.step, first, m - 1);
    GridSpaced(q.steps);
    PairsTake(q, GridOf(q.steps), rows, index, first, prev, if sameWindow then m - 1 else m);
  }
}
