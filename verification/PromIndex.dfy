/** Which rows of a record belong to which step: two pointers that only move forward. */
module PromIndex {
  import opened Records
  import opened Windows
  import opened PromSteps

  /** Whether a record and the one peeked after it meet in one step. Step 0 is an instant query. */
  function IsSameWindow(
    g: Steps, curr: seq<int>, next: Option<seq<int>>, currFile: Option<nat>, nextFile: Option<nat>
  ): bool
    requires g.step >= 0
  {
    if next.None? || |curr| == 0 then false
    else if |next.value| == 0 then true
    else if currFile.Some? && nextFile != currFile then false
    else if g.step == 0 then true
    else GetCurrStep(g, curr[|curr| - 1]) == GetCurrStep(g, next.value[0])
  }

  /** A step before the last one lies between two times. An instant query has no such step. */
  ghost predicate Separated(g: Steps, a: int, b: int) {
    g.step > 0 && exists s :: OnStep(g, s) && a <= s < b && s < g.end
  }

  /** Records meet in one step exactly when there is a next one and it is empty, or is of the same file, if files are
      told apart, and no step but the last separates the last time from the next one. */
  lemma {:induction false} SameWindowMeaning(
    g: Steps, curr: seq<int>, next: Option<seq<int>>, currFile: Option<nat>, nextFile: Option<nat>
  )
    requires g.step >= 0
    requires g.step > 0 && curr != [] && next.Some? && next.value != [] ==>
      IsSteps(g) && curr[|curr| - 1] <= next.value[0]
    ensures IsSameWindow(g, curr, next, currFile, nextFile)
            <==> && curr != [] && next.Some?
                 && (|| next.value == []
                     || (&& (currFile.None? || nextFile == currFile)
                         && !Separated(g, curr[|curr| - 1], next.value[0])))
  {
    if g.step > 0 && curr != [] && next.Some? && next.value != [] {
      var a, b := curr[|curr| - 1], next.value[0];
      CurrStepIsLeast(g, a);
      CurrStepIsLeast(g, b);
      if GetCurrStep(g, a) != GetCurrStep(g, b) {
        var s := GetCurrStep(g, a);
        assert OnStep(g, s) && a <= s < b && s < g.end;
      }
    }
  }

  ghost predicate Sorted(times: seq<int>) {
    forall i, j :: 0 <= i < j < |times| ==> times[i] <= times[j]
  }

  /** The first entry from `i` on that is at least x. */
  function First(times: seq<int>, x: int, i: nat): (k: nat)
    requires i <= |times|
    ensures i <= k <= |times|
    ensures forall j :: i <= j < k ==> times[j] < x
    ensures k < |times| ==> times[k] >= x
    decreases |times| - i
  {
    if i == |times| || times[i] >= x then i else First(times, x, i + 1)
  }

  /** A pointer that has passed only smaller entries finds what a fresh search finds. */
  lemma {:induction false} SeekOn(times: seq<int>, x: int, i: nat)
    requires i <= |times| && forall j :: 0 <= j < i ==> times[j] < x
    ensures First(times, x, i) == First(times, x, 0)
  {
    if i > 0 {
      SeekOn(times, x, i - 1);
    }
  }

  method Seek(times: seq<int>, x: int, i: nat) returns (k: nat)
    requires i <= |times| && forall j :: 0 <= j < i ==> times[j] < x
    ensures k == First(times, x, 0)
  {
    k := i;
    while k < |times| && times[k] < x
      invariant i <= k <= |times| && First(times, x, k) == First(times, x, i)
    {
      k := k + 1;
    }
    SeekOn(times, x, i);
  }

  /** The rows within `delta` before a step: from the first at least `s - delta` to the first after `s`. */
  function Pair(delta: int, times: seq<int>, s: int): seq<nat> {
    [First(times, s - delta, 0), First(times, s + 1, 0)]
  }

  /** The pairs of every step from `from` to `upto`. */
  function Pairs(step: int, delta: int, times: seq<int>, from: int, upto: int): seq<nat>
    requires step > 0
    decreases upto - from + step
  {
    if from > upto then [] else Pair(delta, times, from) + Pairs(step, delta, times, from + step, upto)
  }

  /** The pair of a step, unless the step lies more than `delta` after every row. */
  function Found(delta: int, times: seq<int>, s: int): seq<nat> {
    if First(times, s - delta, 0) == |times| then [] else Pair(delta, times, s)
  }

  /** The pairs of the steps up to the first one that lies more than `delta` after every row. */
  function FoundPairs(step: int, delta: int, times: seq<int>, from: int, upto: int): seq<nat>
    requires step > 0
    decreases upto - from + step
  {
    if from > upto || First(times, from - delta, 0) == |times| then []
    else Pair(delta, times, from) + FoundPairs(step, delta, times, from + step, upto)
  }

  /** The index of a record before it is cut to 16 bits. */
  function IndexOf(g: Steps, delta: int, times: seq<int>): seq<nat>
    requires g.step > 0 ==> times != []
    requires g.step >= 0
  {
    if g.step == 0 then [0, |times|]
    else
      var first, last := GetCurrStep(g, times[0]), GetCurrStep(g, times[|times| - 1]);
      if first == last then [0, |times|] else FoundPairs(g.step, delta, times, first, last)
  }

  /** What the two pointers have passed when they turn to a step. */
  ghost predicate Passed(delta: int, times: seq<int>, end: int, i: int, j: int) {
    && 0 <= i <= |times| && 0 <= j <= |times|
    && (forall k :: 0 <= k < i ==> times[k] < end - delta)
    && (forall k :: 0 <= k < j ==> times[k] <= end)
  }

  /** One round of the two pointers. */
  method Round(
    step: int, delta: int, times: seq<int>, end: int, i: nat, j: nat
  ) returns (i': nat, j': nat, pair: seq<nat>)
    requires 0 <= delta && 0 < step && Passed(delta, times, end, i, j)
    ensures Passed(delta, times, end + step, i', j')
    ensures pair == Found(delta, times, end)
  {
    pair := [];
    i' := Seek(times, end - delta, i);
    if i' < |times| {
      pair := pair + [i'];
    }
    j' := Seek(times, end + 1, j);
    if j' < |times| {
      assert times[j'] >= end - delta;
      pair := pair + [j'];
    }
    if |pair| == 1 {
      pair := pair + [|times|];
    }
  }

  /** Once a step lies too far after every row, so do all later ones. */
  lemma {:induction false} FoundFrom(step: int, delta: int, times: seq<int>, from: int, upto: int)
    requires step > 0 && from <= upto
    ensures FoundPairs(step, delta, times, from, upto)
         == Found(delta, times, from) + FoundPairs(step, delta, times, from + step, upto)
  {
    if First(times, from - delta, 0) == |times| {
      SeekOn(times, from + step - delta, |times|);
    }
  }

  method TwoPointers(step: int, delta: int, times: seq<int>, firstStep: int, lastStep: int) returns (index: seq<nat>)
    requires step > 0 && 0 <= delta
    ensures index == FoundPairs(step, delta, times, firstStep, lastStep)
  {
    index := [];
    var i, j, end := 0, 0, firstStep;
    ghost var all := FoundPairs(step, delta, times, firstStep, lastStep);
    while end <= lastStep
      invariant Passed(delta, times, end, i, j)
      invariant index + FoundPairs(step, delta, times, end, lastStep) == all
      decreases lastStep - end
    {
      FoundFrom(step, delta, times, end, lastStep);
      Associate(index, Found(delta, times, end), FoundPairs(step, delta, times, end + step, lastStep));
      var pair;
      i, j, pair := Round(step, delta, times, end, i, j);
      index := index + pair;
      end := end + step;
    }
    assert index + [] == index;
  }

  /** One pair, to which all rows belong. */
  ghost predicate TakesAll(index: seq<nat>, n: nat) {
    |index| == 2 && index[1] <= n && forall k :: 0 <= k < n ==> Belongs(index, k)
  }

  ghost predicate Belongs(index: seq<nat>, k: nat)
    requires |index| == 2
  {
    index[0] <= k < index[1]
  }

  /** The index of a record. All rows belong to an instant query. */
  method ComputeIntervalIndex(g: Steps, delta: int, times: seq<int>) returns (firstStep: int, index: seq<nat>)
    requires g.step >= 0 && 0 <= delta
    requires g.step > 0 ==> times != []
    ensures firstStep == if g.step == 0 then g.start else GetCurrStep(g, times[0])
    ensures index == Wrapped(IndexOf(g, delta, times))
    ensures g.step == 0 && |times| < 65536 ==> TakesAll(index, |times|)
  {
    if g.step == 0 {
      return g.start, [0, |times| % MAX_INDEX];
    }
    firstStep := GetCurrStep(g, times[0]);
    var lastStep := GetCurrStep(g, times[|times| - 1]);
    if firstStep == lastStep {
      return firstStep, [0, |times| % MAX_INDEX];
    }
    index := TwoPointers(g.step, delta, times, firstStep, lastStep);
    index := Wrapped(index);
  }

  lemma {:induction false} FoundInside(step: int, delta: int, times: seq<int>, from: int, upto: int)
    requires step > 0
    ensures Inside(FoundPairs(step, delta, times, from, upto), |times|)
    decreases upto - from + step
  {
    if from <= upto && First(times, from - delta, 0) < |times| {
      FoundInside(step, delta, times, from + step, upto);
    }
  }

  ghost predicate Inside(index: seq<nat>, n: nat) {
    forall k :: 0 <= k < |index| ==> index[k] <= n
  }

  /** The 16-bit cut is harmless in a record of fewer than 65536 rows. */
  lemma {:induction false} NotCut(g: Steps, delta: int, times: seq<int>)
    requires g.step >= 0 && (g.step > 0 ==> times != []) && |times| < 65536
    ensures Wrapped(IndexOf(g, delta, times)) == IndexOf(g, delta, times)
  {
    if g.step > 0 {
      FoundInside(g.step, delta, times, GetCurrStep(g, times[0]), GetCurrStep(g, times[|times| - 1]));
    }
    assert Inside(IndexOf(g, delta, times), |times|);
  }

  // ----- when the two pointers agree with one search per step

  lemma {:induction false} FoundAll(g: Steps, delta: int, times: seq<int>, from: int, upto: int)
    requires g.step > 0 && Sorted(times) && times != [] && Aligns(g, from) && Aligns(g, upto) && from <= upto + g.step
    ensures |FoundPairs(g.step, delta, times, from, upto)| <= |Pairs(g.step, delta, times, from, upto)|
    ensures from <= upto ==>
        (FoundPairs(g.step, delta, times, from, upto) == Pairs(g.step, delta, times, from, upto)
         <==> times[|times| - 1] >= upto - delta)
    decreases upto - from + g.step
  {
    if from <= upto {
      StepAfter(g, from);
      if from < upto {
        StepApart(g, from, upto);
      }
      FoundAll(g, delta, times, from + g.step, upto);
      if First(times, from - delta, 0) == |times| {
        assert times[|times| - 1] < from - delta;
      } else {
        var k := First(times, from - delta, 0);
        assert times[k] <= times[|times| - 1];
        SameAfter(
          Pair(delta, times, from), FoundPairs(g.step, delta, times, from + g.step, upto),
          Pairs(g.step, delta, times, from + g.step, upto));
      }
    }
  }

  function StepAt(step: int, from: int, k: nat): int
    decreases k
  {
    if k == 0 then from else StepAt(step, from + step, k - 1)
  }

  lemma {:induction false} StepAtIs(step: int, from: int, k: nat)
    ensures StepAt(step, from, k) == from + k * step
    ensures StepAt(step, from, k + 1) == StepAt(step, from, k) + step
    decreases k
  {
    if k > 0 {
      StepAtIs(step, from + step, k - 1);
      assert k * step == (k - 1) * step + step;
    }
  }

  function CountSteps(step: int, from: int, upto: int): nat
    requires step > 0
    decreases upto - from + step
  {
    if from > upto then 0 else 1 + CountSteps(step, from + step, upto)
  }

  /** From one step to a later one there are whole steps. */
  lemma {:induction false} LastCounted(g: Steps, from: int, upto: int)
    requires g.step > 0 && Aligns(g, from) && Aligns(g, upto) && from <= upto
    ensures CountSteps(g.step, from, upto) > 0
    ensures StepAt(g.step, from, CountSteps(g.step, from, upto) - 1) == upto
    ensures CountSteps(g.step, from, upto) == 1 <==> from == upto
    decreases upto - from
  {
    if from == upto {
      assert CountSteps(g.step, from + g.step, upto) == 0;
    } else {
      StepAfter(g, from);
      StepApart(g, from, upto);
      LastCounted(g, from + g.step, upto);
    }
  }

  /** Pair k of an index belongs to step k. */
  lemma {:induction false} PairsAt(step: int, delta: int, times: seq<int>, from: int, upto: int, k: nat)
    requires step > 0
    ensures
      var pairs, n := Pairs(step, delta, times, from, upto), CountSteps(step, from, upto);
      |pairs| == n + n && (k < n ==> [pairs[k + k], pairs[k + k + 1]] == Pair(delta, times, StepAt(step, from, k)))
    decreases upto - from + step
  {
    if from <= upto {
      PairsAt(step, delta, times, from + step, upto, if k == 0 then 0 else k - 1);
    }
  }

  /** The condition under which every row of a record lies where the shortcut and the loop expect it. */
  ghost predicate RowsReach(g: Steps, delta: int, times: seq<int>)
    requires IsSteps(g) && times != []
  {
    var n := |times| - 1;
    var first, last := GetCurrStep(g, times[0]), GetCurrStep(g, times[n]);
    if first == last then times[0] >= first - delta && times[n] <= first else times[n] >= last - delta
  }

  /** The index holds exactly one right pair for each step of the record if and only if the rows reach it. */
  lemma {:induction false} IndexExact(g: Steps, delta: int, times: seq<int>)
    requires IsSteps(g) && Sorted(times) && times != [] && 0 <= delta
    ensures
      IndexOf(g, delta, times)
      == Pairs(g.step, delta, times, GetCurrStep(g, times[0]), GetCurrStep(g, times[|times| - 1]))
      <==> RowsReach(g, delta, times)
  {
    var n := |times| - 1;
    var first, last := GetCurrStep(g, times[0]), GetCurrStep(g, times[n]);
    CurrStepIsLeast(g, times[0]);
    CurrStepIsLeast(g, times[n]);
    if first == last {
      assert Pairs(g.step, delta, times, first, last) == Pair(delta, times, first) + [];
      assert Pair(delta, times, first) + [] == Pair(delta, times, first);
      assert First(times, first - delta, 0) == 0 <==> times[0] >= first - delta;
      assert First(times, first + 1, 0) == |times| <==> times[n] <= first;
    } else {
      CurrStepMonotone(g, times[0], times[n]);
      FoundAll(g, delta, times, first, last);
    }
  }

  /** Without a row near the last step the pairs end one step earlier. */
  lemma {:induction false} FoundShort(g: Steps, delta: int, times: seq<int>, from: int, upto: int)
    requires g.step > 0 && Aligns(g, from) && Aligns(g, upto) && from <= upto
    requires First(times, upto - delta, 0) == |times|
    ensures FoundPairs(g.step, delta, times, from, upto) == FoundPairs(g.step, delta, times, from, upto - g.step)
    decreases upto - from
  {
    if from < upto {
      StepAfter(g, from);
      StepApart(g, from, upto);
      FoundShort(g, delta, times, from + g.step, upto);
    }
  }

  /** For every look-back, the index of a record of several steps has a right pair for each step but the last
      one, and for that one if and only if some row is recent there. */
  lemma {:induction false} IndexReaches(g: Steps, delta: int, times: seq<int>)
    requires IsSteps(g) && Sorted(times) && times != [] && 0 <= delta
    requires GetCurrStep(g, times[0]) != GetCurrStep(g, times[|times| - 1])
    ensures
      var t := times[|times| - 1];
      var first, last := GetCurrStep(g, times[0]), GetCurrStep(g, t);
      && first < last
      && IndexOf(g, delta, times)
         == Pairs(g.step, delta, times, first, if t >= last - delta then last else last - g.step)
  {
    var t := times[|times| - 1];
    var first, last := GetCurrStep(g, times[0]), GetCurrStep(g, t);
    CurrStepIsLeast(g, times[0]);
    CurrStepIsLeast(g, t);
    CurrStepMonotone(g, times[0], t);
    if t >= last - delta {
      FoundAll(g, delta, times, first, last);
    } else {
      StepAfter(g, last);
      StepApart(g, first, last);
      assert last - g.step < t;
      assert forall k :: 0 <= k < |times| ==> times[k] <= t;
      FoundShort(g, delta, times, first, last);
      FoundAll(g, delta, times, first, last - g.step);
    }
  }

  lemma {:induction false} CurrStepMonotone(g: Steps, t: int, u: int)
    requires IsSteps(g) && t <= u
    ensures GetCurrStep(g, t) <= GetCurrStep(g, u)
  {
    CurrStepIsLeast(g, t);
    CurrStepIsLeast(g, u);
  }

  /** A look-back of at least one step always reaches, for rows of the query's own range. */
  lemma {:induction false} LookBackReaches(g: Steps, delta: int, times: seq<int>)
    requires IsSteps(g) && Sorted(times) && times != []
    requires g.step <= delta && g.start - delta <= times[0] && times[|times| - 1] <= g.end
    ensures RowsReach(g, delta, times)
  {
    CurrStepIsLeast(g, times[0]);
    CurrStepIsLeast(g, times[|times| - 1]);
  }

  /** A shorter look-back does not: here the last of three steps has no pair. */
  lemma {:induction false} ShortLookBackFails()
    ensures
      var g, times := Steps(0, 20, 10), [0, 11];
      && IsSteps(g) && Sorted(times)
      && !RowsReach(g, 2, times)
      && IndexOf(g, 2, times) == [0, 1, 1, 1]
  {
    var g, times := Steps(0, 20, 10), [0, 11];
    assert GetCurrStep(g, 0) == 0 && GetCurrStep(g, 11) == 20;
    assert FoundPairs(10, 2, times, 20, 20) == [];
    assert Pair(2, times, 10) == [1, 1];
    assert FoundPairs(10, 2, times, 10, 20) == [1, 1];
    assert Pair(2, times, 0) == [0, 1];
  }
}
