/** Incremental queries over detached files: the fragments of all files are read sixteen at a time. */
module Paging {
  import opened Records

  const INC_DATA_SEGMENT_NUM := 16

  /** Fragments from `start` up to `end`. */
  datatype Range = Range(start: nat, end: nat)

  datatype Fragment = Fragment(index: int, number: nat)

  /** For each file index its ranges, and how many fragments there are. */
  datatype Frags = Frags(indexes: seq<int>, ranges: seq<seq<Range>>, count: nat)

  function OfRange(index: int, r: Range): seq<Fragment> {
    seq(if r.start <= r.end then r.end - r.start else 0, k requires k >= 0 => Fragment(index, r.start + k))
  }

  function OfRanges(index: int, rs: seq<Range>): seq<Fragment> {
    if rs == [] then [] else OfRanges(index, rs[..|rs| - 1]) + OfRange(index, rs[|rs| - 1])
  }

  function OfFiles(indexes: seq<int>, ranges: seq<seq<Range>>): seq<Fragment>
    requires |indexes| == |ranges|
  {
    var n := |indexes| - 1;
    if indexes == [] then [] else OfFiles(indexes[..n], ranges[..n]) + OfRanges(indexes[n], ranges[n])
  }

  predicate InRange(index: int, r: Range, f: Fragment) {
    f.index == index && r.start <= f.number < r.end
  }

  ghost predicate InRanges(index: int, rs: seq<Range>, f: Fragment) {
    exists k :: 0 <= k < |rs| && InRange(index, rs[k], f)
  }

  ghost predicate InFiles(indexes: seq<int>, ranges: seq<seq<Range>>, f: Fragment)
    requires |indexes| == |ranges|
  {
    exists i :: 0 <= i < |indexes| && InRanges(indexes[i], ranges[i], f)
  }

  lemma {:induction false} RangeMeaning(index: int, r: Range, f: Fragment)
    ensures f in OfRange(index, r) <==> InRange(index, r, f)
  {
    if InRange(index, r, f) {
      assert OfRange(index, r)[f.number - r.start] == f;
    }
  }

  lemma {:induction false} RangesMeaning(index: int, rs: seq<Range>, f: Fragment)
    ensures f in OfRanges(index, rs) <==> InRanges(index, rs, f)
  {
    if rs != [] {
      var n := |rs| - 1;
      RangesMeaning(index, rs[..n], f);
      RangeMeaning(index, rs[n], f);
      if InRanges(index, rs[..n], f) {
        var k :| 0 <= k < n && InRange(index, rs[..n][k], f);
        assert InRange(index, rs[k], f);
      }
      if InRanges(index, rs, f) {
        var k :| 0 <= k < |rs| && InRange(index, rs[k], f);
        assert k < n ==> rs[..n][k] == rs[k];
      }
    }
  }

  /** The fragments of all files are the numbers from the start of a range up to its end. */
  lemma {:induction false} FilesMeaning(indexes: seq<int>, ranges: seq<seq<Range>>, f: Fragment)
    requires |indexes| == |ranges|
    ensures f in OfFiles(indexes, ranges) <==> InFiles(indexes, ranges, f)
  {
    if indexes != [] {
      var n := |indexes| - 1;
      FilesMeaning(indexes[..n], ranges[..n], f);
      RangesMeaning(indexes[n], ranges[n], f);
      if InFiles(indexes[..n], ranges[..n], f) {
        var i :| 0 <= i < n && InRanges(indexes[..n][i], ranges[..n][i], f);
        assert InRanges(indexes[i], ranges[i], f);
      }
      if InFiles(indexes, ranges, f) {
        var i :| 0 <= i < |indexes| && InRanges(indexes[i], ranges[i], f);
        assert i < n ==> indexes[..n][i] == indexes[i] && ranges[..n][i] == ranges[i];
      }
    }
  }

  ghost predicate Forward(rs: seq<Range>) {
    forall k :: 0 <= k < |rs| ==> rs[k].start <= rs[k].end
  }

  /** The reported count is the number of fragments. */
  ghost predicate Valid(frags: Frags) {
    && |frags.indexes| == |frags.ranges|
    && (forall i :: 0 <= i < |frags.ranges| ==> Forward(frags.ranges[i]))
    && frags.count == |OfFiles(frags.indexes, frags.ranges)|
  }

  function Clamp(x: int, n: nat): nat {
    if x < 0 then 0 else if x > n then n else x
  }

  /** The part of a sequence that lies at the positions from s up to e. */
  function Clip<T>(xs: seq<T>, s: int, e: int): seq<T>
    requires s <= e
  {
    xs[Clamp(s, |xs|)..Clamp(e, |xs|)]
  }

  lemma {:induction false} ClipJoin<T>(xs: seq<T>, ys: seq<T>, s: int, e: int)
    requires s <= e
    ensures Clip(xs + ys, s, e) == Clip(xs, s, e) + Clip(ys, s - |xs|, e - |xs|)
  {
    var a, b, c, d := Clamp(s, |xs|), Clamp(e, |xs|), Clamp(s - |xs|, |ys|), Clamp(e - |xs|, |ys|);
    SliceJoin(xs, ys, a, b, c, d);
    assert Clamp(s, |xs + ys|) == a + c && Clamp(e, |xs + ys|) == b + d;
    assert Clip(xs + ys, s, e) == (xs + ys)[a + c..b + d];
  }

  lemma {:induction false} SliceJoin<T>(xs: seq<T>, ys: seq<T>, a: nat, b: nat, c: nat, d: nat)
    requires a <= b <= |xs| && c <= d <= |ys| && (c > 0 ==> a == |xs|) && (d > 0 ==> b == |xs|)
    ensures (xs + ys)[a + c..b + d] == xs[a..b] + ys[c..d]
  {
    var joined, parts := (xs + ys)[a + c..b + d], xs[a..b] + ys[c..d];
    assert |joined| == |parts|;
    forall k | 0 <= k < |joined|
      ensures joined[k] == parts[k]
    {
      if k < b - a {
        assert parts[k] == xs[a + k];
      } else {
        assert parts[k] == ys[c + (k - (b - a))];
      }
    }
  }

  lemma {:induction false} ClipRange(index: int, r: Range, s: int, e: int)
    requires s <= e && r.start <= r.end
    ensures
      var n := r.end - r.start;
      Clip(OfRange(index, r), s, e) == OfRange(index, Range(r.start + Clamp(s, n), r.start + Clamp(e, n)))
  {
  }

  /** `read` counts the fragments passed until it reaches the end of the page. */
  ghost predicate Counted(read: nat, passed: seq<Fragment>, end: nat) {
    if read < end then read == |passed| else end <= |passed|
  }

  lemma {:induction false} PageFull(passed: seq<Fragment>, more: seq<Fragment>, read: nat, start: nat, end: nat)
    requires start <= end <= read && Counted(read, passed, end)
    ensures Counted(read, passed + more, end) && Clip(passed + more, start, end) == Clip(passed, start, end)
  {
  }

  /** One range of a file, cut to the page. */
  method TakeRange(index: int, r: Range, start: nat, end: nat, read: nat, ghost passed: seq<Fragment>)
    returns (read': nat, part: seq<Range>)
    requires start <= end && read < end && r.start <= r.end && read == |passed|
    ensures Counted(read', passed + OfRange(index, r), end)
    ensures Forward(part) && OfRanges(index, part) == Clip(OfRange(index, r), start - |passed|, end - |passed|)
  {
    var count := r.end - r.start;
    ClipRange(index, r, start - |passed|, end - |passed|);
    if read + count <= start {
      return read + count, [];
    }
    var from := r.start;
    if read < start {
      from := start - read + r.start;
    }
    if read + count <= end {
      OneRange(index, Range(from, r.end));
      return read + count, [Range(from, r.end)];
    }
    var done := read;
    if done < start {
      done := start;
    }
    var upto := end - done + from;
    OneRange(index, Range(from, upto));
    return end, [Range(from, upto)];
  }

  lemma {:induction false} OneRange(index: int, r: Range)
    ensures OfRanges(index, [r]) == OfRange(index, r)
  {
    assert [r][..0] == [];
  }

  lemma {:induction false} RangesJoin(index: int, a: seq<Range>, b: seq<Range>)
    ensures OfRanges(index, a + b) == OfRanges(index, a) + OfRanges(index, b)
  {
    if b == [] {
      assert a + b == a;
    } else {
      var n := |b| - 1;
      assert (a + b)[..|a| + n] == a + b[..n];
      RangesJoin(index, a, b[..n]);
    }
  }

  /** The ranges of one file, cut to the page. */
  method TakeFile(index: int, rs: seq<Range>, start: nat, end: nat, read: nat, ghost passed: seq<Fragment>)
    returns (read': nat, part: seq<Range>)
    requires start <= end && read < end && Forward(rs) && Counted(read, passed, end)
    ensures Counted(read', passed + OfRanges(index, rs), end)
    ensures Forward(part)
    ensures Clip(passed, start, end) + OfRanges(index, part) == Clip(passed + OfRanges(index, rs), start, end)
  {
    part, read' := [], read;
    assert rs[..0] == [] && passed + [] == passed;
    var i := 0;
    while i < |rs| && read' < end
      invariant 0 <= i <= |rs| && Forward(part)
      invariant Counted(read', passed + OfRanges(index, rs[..i]), end)
      invariant Clip(passed, start, end) + OfRanges(index, part) == Clip(passed + OfRanges(index, rs[..i]), start, end)
    {
      ghost var before, here := passed + OfRanges(index, rs[..i]), OfRange(index, rs[i]);
      RangesNext(index, rs, i, passed);
      ClipJoin(before, here, start, end);
      var more;
      read', more := TakeRange(index, rs[i], start, end, read', before);
      RangesJoin(index, part, more);
      Associate(Clip(passed, start, end), OfRanges(index, part), OfRanges(index, more));
      part := part + more;
      i := i + 1;
    }
    RestOfFile(index, rs, i, passed, read', start, end);
  }

  lemma {:induction false} RangesNext(index: int, rs: seq<Range>, i: nat, passed: seq<Fragment>)
    requires i < |rs|
    ensures passed + OfRanges(index, rs[..i + 1]) == (passed + OfRanges(index, rs[..i])) + OfRange(index, rs[i])
  {
    assert rs[..i + 1][..i] == rs[..i];
  }

  lemma {:induction false} RestOfFile(
    index: int, rs: seq<Range>, i: nat, passed: seq<Fragment>, read: nat, start: nat, end: nat
  )
    requires i <= |rs| && start <= end && (i < |rs| ==> read >= end)
    requires Counted(read, passed + OfRanges(index, rs[..i]), end)
    ensures Counted(read, passed + OfRanges(index, rs), end)
    ensures Clip(passed + OfRanges(index, rs[..i]), start, end) == Clip(passed + OfRanges(index, rs), start, end)
  {
    var before := passed + OfRanges(index, rs[..i]);
    assert rs == rs[..i] + rs[i..];
    RangesJoin(index, rs[..i], rs[i..]);
    Associate(passed, OfRanges(index, rs[..i]), OfRanges(index, rs[i..]));
    if i < |rs| {
      PageFull(before, OfRanges(index, rs[i..]), read, start, end);
    } else {
      assert rs[i..] == [] && before + [] == before;
    }
  }

  // ----- the page of one iteration

  function Pages(count: nat): nat {
    (count + INC_DATA_SEGMENT_NUM - 1) / INC_DATA_SEGMENT_NUM
  }

  function Page<T>(all: seq<T>, iter: nat): seq<T> {
    Clip(all, iter * INC_DATA_SEGMENT_NUM, (iter + 1) * INC_DATA_SEGMENT_NUM)
  }

  lemma {:induction false} FilesNext(indexes: seq<int>, ranges: seq<seq<Range>>, index: int, rs: seq<Range>)
    requires |indexes| == |ranges|
    ensures OfFiles(indexes + [index], ranges + [rs]) == OfFiles(indexes, ranges) + OfRanges(index, rs)
  {
    var n := |indexes|;
    assert (indexes + [index])[..n] == indexes && (ranges + [rs])[..n] == ranges;
  }

  lemma {:induction false} FilesTaken(indexes: seq<int>, ranges: seq<seq<Range>>, i: nat)
    requires |indexes| == |ranges| && i < |indexes|
    ensures OfFiles(indexes[..i + 1], ranges[..i + 1])
         == OfFiles(indexes[..i], ranges[..i]) + OfRanges(indexes[i], ranges[i])
  {
    TakeNext(indexes, i);
    TakeNext(ranges, i);
    FilesNext(indexes[..i], ranges[..i], indexes[i], ranges[i]);
  }

  /** Files after the end of the page add nothing to it. */
  lemma {:induction false} RestOfFiles(
    indexes: seq<int>, ranges: seq<seq<Range>>, i: nat, read: nat, start: nat, end: nat
  )
    requires |indexes| == |ranges| && i <= |indexes| && start <= end && (i < |indexes| ==> read >= end)
    requires Counted(read, OfFiles(indexes[..i], ranges[..i]), end)
    ensures Clip(OfFiles(indexes[..i], ranges[..i]), start, end) == Clip(OfFiles(indexes, ranges), start, end)
    decreases |indexes| - i
  {
    if i == |indexes| {
      assert indexes[..i] == indexes && ranges[..i] == ranges;
    } else {
      FilesTaken(indexes, ranges, i);
      PageFull(OfFiles(indexes[..i], ranges[..i]), OfRanges(indexes[i], ranges[i]), read, start, end);
      RestOfFiles(indexes, ranges, i + 1, read, start, end);
    }
  }

  /** What is in the page after the first i files. */
  ghost predicate PageHolds(
    frags: Frags, i: nat, indexes: seq<int>, ranges: seq<seq<Range>>, read: nat, start: nat, end: nat
  ) {
    && |frags.indexes| == |frags.ranges| && i <= |frags.indexes| && |indexes| == |ranges| && start <= end
    && (forall k :: 0 <= k < |ranges| ==> Forward(ranges[k]))
    && Counted(read, OfFiles(frags.indexes[..i], frags.ranges[..i]), end)
    && OfFiles(indexes, ranges) == Clip(OfFiles(frags.indexes[..i], frags.ranges[..i]), start, end)
  }

  lemma {:induction false} PageStarts(frags: Frags, start: nat, end: nat)
    requires |frags.indexes| == |frags.ranges| && start <= end
    ensures PageHolds(frags, 0, [], [], 0, start, end)
  {
  }

  lemma {:induction false} PageEnds(
    frags: Frags, i: nat, indexes: seq<int>, ranges: seq<seq<Range>>, read: nat, start: nat, end: nat
  )
    requires PageHolds(frags, i, indexes, ranges, read, start, end) && (i < |frags.indexes| ==> read >= end)
    ensures |indexes| == |ranges| && forall k :: 0 <= k < |ranges| ==> Forward(ranges[k])
    ensures OfFiles(indexes, ranges) == Clip(OfFiles(frags.indexes, frags.ranges), start, end)
  {
    RestOfFiles(frags.indexes, frags.ranges, i, read, start, end);
  }

  method NextFile(frags: Frags, i: nat, indexes: seq<int>, ranges: seq<seq<Range>>, read: nat, start: nat, end: nat)
    returns (indexes': seq<int>, ranges': seq<seq<Range>>, read': nat)
    requires Valid(frags) && i < |frags.indexes| && read < end && PageHolds(frags, i, indexes, ranges, read, start, end)
    ensures PageHolds(frags, i + 1, indexes', ranges', read', start, end)
  {
    indexes', ranges' := indexes, ranges;
    FilesTaken(frags.indexes, frags.ranges, i);
    var part;
    read', part :=
      TakeFile(frags.indexes[i], frags.ranges[i], start, end, read, OfFiles(frags.indexes[..i], frags.ranges[..i]));
    if part != [] {
      FilesNext(indexes, ranges, frags.indexes[i], part);
      indexes', ranges' := indexes + [frags.indexes[i]], ranges + [part];
    }
  }

  /** The fragments of all files at the positions from `start` up to `end`. */
  method TakeFiles(frags: Frags, start: nat, end: nat) returns (page: Frags)
    requires Valid(frags) && start <= end
    ensures |page.indexes| == |page.ranges| && forall i :: 0 <= i < |page.ranges| ==> Forward(page.ranges[i])
    ensures OfFiles(page.indexes, page.ranges) == Clip(OfFiles(frags.indexes, frags.ranges), start, end)
    ensures page.count == end - start
  {
    var indexes: seq<int>, ranges: seq<seq<Range>>, read: nat, i: nat := [], [], 0, 0;
    PageStarts(frags, start, end);
    while i < |frags.indexes| && read < end
      invariant PageHolds(frags, i, indexes, ranges, read, start, end)
    {
      indexes, ranges, read := NextFile(frags, i, indexes, ranges, read, start, end);
      i := i + 1;
    }
    page := Frags(indexes, ranges, end - start);
    PageEnds(frags, i, indexes, ranges, read, start, end);
  }

  /** One iteration of an incremental query: the fragments at its sixteen positions, and nothing once all
      pages are read. */
  method InitInc(frags: Frags, currIter: nat) returns (iterNum: nat, page: Option<Frags>)
    requires Valid(frags)
    ensures iterNum == Pages(frags.count)
    ensures page.None? <==> currIter >= iterNum
    ensures 16 * iterNum >= frags.count && (iterNum > 0 ==> 16 * (iterNum - 1) < frags.count)
    ensures page.Some? ==>
        Valid(page.value)
        && OfFiles(page.value.indexes, page.value.ranges) == Page(OfFiles(frags.indexes, frags.ranges), currIter)
        && page.value.count > 0
    ensures page.Some? ==>
      var all, start := OfFiles(frags.indexes, frags.ranges), 16 * currIter;
      && start < |all|
      && OfFiles(page.value.indexes, page.value.ranges)
         == all[start..if start + 16 <= |all| then start + 16 else |all|]
  {
    iterNum := Pages(frags.count);
    if currIter >= iterNum {
      return iterNum, None;
    }
    var start := currIter * INC_DATA_SEGMENT_NUM;
    var end := (currIter + 1) * INC_DATA_SEGMENT_NUM;
    if end > frags.count {
      end := frags.count;
    }
    var taken := TakeFiles(frags, start, end);
    page := Some(taken);
  }

  // ----- the pages tile the fragments

  ghost function FirstPages<T>(all: seq<T>, n: nat): seq<T> {
    if n == 0 then [] else FirstPages(all, n - 1) + Page(all, n - 1)
  }

  lemma {:induction false} PagesJoin<T>(all: seq<T>, n: nat)
    ensures FirstPages(all, n) == all[..Clamp(n * INC_DATA_SEGMENT_NUM, |all|)]
  {
    if n > 0 {
      PagesJoin(all, n - 1);
      var a, b := Clamp((n - 1) * INC_DATA_SEGMENT_NUM, |all|), Clamp(n * INC_DATA_SEGMENT_NUM, |all|);
      assert all[..a] + all[a..b] == all[..b];
    }
  }

  /** The pages of all iterations, one after the other, are all fragments: none is lost and none repeated. */
  lemma {:induction false} PagesTile<T>(all: seq<T>)
    ensures FirstPages(all, Pages(|all|)) == all
  {
    PagesJoin(all, Pages(|all|));
    assert all[..|all|] == all;
  }
}
