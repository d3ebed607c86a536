/** top and bottom: the N best points of a window, kept in a heap while the window streams by. */
module TopN {
  import opened Records
  import opened Windows
  import opened Aggregates
  import opened Grouping
  import opened Sorting

  datatype PointItem = PointItem(time: int, value: int)

  type Compare = (PointItem, PointItem) -> bool

  // ----- the comparisons of the two calls: the heap keeps its worst point at the root

  predicate CmpByValueTop(a: PointItem, b: PointItem) {
    if a.value != b.value then a.value < b.value else a.time > b.time
  }

  predicate CmpByValueBottom(a: PointItem, b: PointItem) {
    if a.value != b.value then a.value > b.value else a.time > b.time
  }

  predicate CmpByTimeTop(a: PointItem, b: PointItem) {
    if a.time != b.time then a.time < b.time else a.value > b.value
  }

  predicate CmpByTimeBottom(a: PointItem, b: PointItem) {
    if a.time != b.time then a.time < b.time else a.value < b.value
  }

  lemma {:induction false} ComparisonsAreOrders()
    ensures WeakOrder(CmpByValueTop) && Strict(CmpByValueTop)
    ensures WeakOrder(CmpByValueBottom) && Strict(CmpByValueBottom)
    ensures WeakOrder(CmpByTimeTop) && Strict(CmpByTimeTop)
    ensures WeakOrder(CmpByTimeBottom) && Strict(CmpByTimeBottom)
  {
  }

  // ----- what is to be kept

  /** `kept` are the `n` best of `seen`: nothing left out is better than anything kept. */
  ghost predicate Best(worse: Compare, n: nat, seen: multiset<PointItem>, kept: multiset<PointItem>) {
    && kept <= seen
    && |kept| == (if |seen| <= n then |seen| else n)
    && forall x, y :: x in kept && y in seen - kept ==> !worse(x, y)
  }

  /** The answer is unique, so it cannot depend on how the points arrived. */
  lemma {:induction false} BestUnique(
    worse: Compare, n: nat, seen: multiset<PointItem>, a: multiset<PointItem>, b: multiset<PointItem>
  )
    requires Strict(worse) && Best(worse, n, seen, a) && Best(worse, n, seen, b)
    ensures a == b
  {
    forall x, y | a[x] > b[x] && b[y] > a[y]
      ensures x == y
    {
      assert x in seen - b && y in seen - a;
    }
    MoreOf(a, b);
    MoreOf(b, a);
  }

  /** Of two collections of equal size, either has more of something unless it is contained in the other. */
  lemma {:induction false} MoreOf(a: multiset<PointItem>, b: multiset<PointItem>)
    requires |a| == |b|
    ensures a == b || exists x :: a[x] > b[x]
  {
    if forall z :: a[z] <= b[z] {
      assert b == a + (b - a);
      assert |b - a| == 0;
    }
  }

  lemma {:induction false} BestGrow(
    worse: Compare, n: nat, seen: multiset<PointItem>, kept: multiset<PointItem>, p: PointItem
  )
    requires Best(worse, n, seen, kept) && |kept| < n
    ensures Best(worse, n, seen + multiset{p}, kept + multiset{p})
  {
    assert seen == kept + (seen - kept);
    assert |seen - kept| == 0;
    assert (seen + multiset{p}) - (kept + multiset{p}) == seen - kept;
  }

  lemma {:induction false} BestSkip(
    worse: Compare, n: nat, seen: multiset<PointItem>, kept: multiset<PointItem>, root: PointItem, p: PointItem
  )
    requires WeakOrder(worse) && Best(worse, n, seen, kept) && |kept| == n
    requires forall x :: x in kept ==> !worse(x, root)
    requires !worse(root, p)
    ensures Best(worse, n, seen + multiset{p}, kept)
  {
    assert (seen + multiset{p}) - kept == (seen - kept) + multiset{p};
  }

  lemma {:induction false} BestReplace(
    worse: Compare, n: nat, seen: multiset<PointItem>, kept: multiset<PointItem>, root: PointItem, p: PointItem
  )
    requires WeakOrder(worse) && Best(worse, n, seen, kept) && |kept| == n && root in kept
    requires forall x :: x in kept ==> !worse(x, root)
    requires worse(root, p)
    ensures Best(worse, n, seen + multiset{p}, (kept - multiset{root}) + multiset{p})
  {
    var kept' := (kept - multiset{root}) + multiset{p};
    assert (seen + multiset{p}) - kept' == (seen - kept) + multiset{root};
    forall x, y | x in kept' && y in (seen - kept) + multiset{root}
      ensures !worse(x, y)
    {
      assert y == root || y in seen - kept;
      assert x == p || x in kept;
    }
  }

  // ----- the heap

  function Parent(k: nat): nat {
    if k == 0 then 0 else (k - 1) / 2
  }

  /** No point is worse than its parent. */
  ghost predicate Heap(worse: Compare, items: seq<PointItem>) {
    forall k :: 0 < k < |items| ==> !worse(items[k], items[Parent(k)])
  }

  lemma {:induction false} RootIsWorst(worse: Compare, items: seq<PointItem>, k: nat)
    requires WeakOrder(worse) && Heap(worse, items) && k < |items|
    ensures !worse(items[k], items[0])
    decreases k
  {
    if k > 0 {
      RootIsWorst(worse, items, Parent(k));
    }
  }

  function Swap(items: seq<PointItem>, i: nat, j: nat): (r: seq<PointItem>)
    requires i < |items| && j < |items|
    ensures |r| == |items| && multiset(r) == multiset(items)
  {
    items[i := items[j]][j := items[i]]
  }

  /** A heap but for the point at `j`, which may be worse than its parent. */
  ghost predicate HeapAbove(worse: Compare, items: seq<PointItem>, j: nat) {
    && j < |items|
    && (forall k :: 0 < k < |items| && k != j ==> !worse(items[k], items[Parent(k)]))
    && forall k :: 0 < k < |items| && Parent(k) == j && j > 0 ==> !worse(items[k], items[Parent(j)])
  }

  /** A heap but for the point at `i`, which may be better than its children. */
  ghost predicate HeapBelow(worse: Compare, items: seq<PointItem>, i: nat) {
    && (forall k :: 0 < k < |items| && Parent(k) != i ==> !worse(items[k], items[Parent(k)]))
    && forall k :: 0 < k < |items| && Parent(k) == i && 0 < i < |items| ==> !worse(items[k], items[Parent(i)])
  }

  lemma {:induction false} UpSwap(worse: Compare, items: seq<PointItem>, j: nat)
    requires WeakOrder(worse) && HeapAbove(worse, items, j) && j > 0 && worse(items[j], items[Parent(j)])
    ensures HeapAbove(worse, Swap(items, Parent(j), j), Parent(j))
  {
    var p := Parent(j);
    var items' := Swap(items, p, j);
    forall k | 0 < k < |items| && k != p
      ensures !worse(items'[k], items'[Parent(k)])
    {
      if k != j && Parent(k) == p {
        assert !worse(items[k], items[p]) && !worse(items[p], items[j]);
      }
    }
    forall k | 0 < k < |items| && Parent(k) == p && p > 0
      ensures !worse(items'[k], items'[Parent(p)])
    {
      assert !worse(items[p], items[Parent(p)]);
      if k != j {
        assert !worse(items[k], items[p]);
      }
    }
  }

  lemma {:induction false} DownSwap(worse: Compare, items: seq<PointItem>, i: nat, j: nat)
    requires WeakOrder(worse) && HeapBelow(worse, items, i) && 0 < j < |items| && Parent(j) == i
    requires worse(items[j], items[i])
    requires forall k :: 0 < k < |items| && Parent(k) == i ==> !worse(items[k], items[j])
    ensures HeapBelow(worse, Swap(items, i, j), j)
  {
    var items' := Swap(items, i, j);
    forall k | 0 < k < |items| && Parent(k) != j
      ensures !worse(items'[k], items'[Parent(k)])
    {
      if k == i {
        assert !worse(items[j], items[Parent(i)]);
      }
    }
    forall k | 0 < k < |items| && Parent(k) == j
      ensures !worse(items'[k], items'[i])
    {
      assert !worse(items[k], items[j]);
    }
  }

  lemma {:induction false} LastIsLeaf(worse: Compare, items: seq<PointItem>, p: PointItem)
    requires Heap(worse, items)
    ensures HeapAbove(worse, items + [p], |items|)
  {
  }

  lemma {:induction false} RootOnly(worse: Compare, items: seq<PointItem>, p: PointItem)
    requires items != [] && Heap(worse, items)
    ensures HeapBelow(worse, items[0 := p], 0)
  {
  }

  lemma {:induction false} NewRoot(items: seq<PointItem>, p: PointItem)
    requires items != []
    ensures multiset(items[0 := p]) == (multiset(items) - multiset{items[0]}) + multiset{p}
    ensures items[0] in multiset(items)
  {
  }

  lemma {:induction false} AllAboveRoot(worse: Compare, items: seq<PointItem>)
    requires WeakOrder(worse) && Heap(worse, items) && items != []
    ensures items[0] in multiset(items) && |multiset(items)| == |items|
    ensures forall x :: x in multiset(items) ==> !worse(x, items[0])
  {
    forall x | x in multiset(items)
      ensures !worse(x, items[0])
    {
      var k :| 0 <= k < |items| && items[k] == x;
      RootIsWorst(worse, items, k);
    }
  }

  function PointOf(row: Row, col: nat): seq<PointItem> {
    match Cell(row, col)
    case None => []
    case Some(value) => [PointItem(row.time, value)]
  }

  /** The points of a part of the series: rows that have a value. */
  function Points(rows: seq<Row>, col: nat): seq<PointItem> {
    if rows == [] then [] else Points(rows[..|rows| - 1], col) + PointOf(rows[|rows| - 1], col)
  }

  lemma {:induction false} PointsConcat(a: seq<Row>, b: seq<Row>, col: nat)
    ensures Points(a + b, col) == Points(a, col) + Points(b, col)
  {
    if b == [] {
      assert a + b == a;
    } else {
      var n := |b| - 1;
      assert (a + b)[..|a| + n] == a + b[..n];
      PointsConcat(a, b[..n], col);
      Associate(Points(a, col), Points(b[..n], col), PointOf(b[n], col));
    }
  }

  /** One point for each row that has a value, with its time and value, in the order of the rows. */
  lemma {:induction false} PointsMeaning(rows: seq<Row>, col: nat)
    ensures |Points(rows, col)| == CountOf(rows, col)
    ensures forall k :: 0 <= k < |rows| && Cell(rows[k], col).Some? ==> IsPointOf(rows, col, k)
  {
    if rows != [] {
      var n := |rows| - 1;
      PointsMeaning(rows[..n], col);
      forall k | 0 <= k < |rows| && Cell(rows[k], col).Some?
        ensures IsPointOf(rows, col, k)
      {
        if k < n {
          assert rows[..n][..k] == rows[..k] && rows[..n][k] == rows[k];
          assert IsPointOf(rows[..n], col, k);
        }
      }
    }
  }

  /** Row k gives the point whose number is that of the values before it. */
  ghost predicate IsPointOf(rows: seq<Row>, col: nat, k: nat)
    requires k < |rows| && Cell(rows[k], col).Some?
  {
    var points, i := Points(rows, col), CountOf(rows[..k], col);
    i < |points| && points[i].time == rows[k].time && Some(points[i].value) == rows[k].cells[col]
  }

  class HeapItem {
    const capacity: nat
    const cmpByValue: Compare
    const cmpByTime: Compare
    var items: seq<PointItem>
    ghost var seen: seq<PointItem>  // the points of the window so far

    constructor (n: nat, cmpByValue: Compare, cmpByTime: Compare)
      requires n > 0 && WeakOrder(cmpByValue) && WeakOrder(cmpByTime)
      ensures capacity == n && this.cmpByValue == cmpByValue && this.cmpByTime == cmpByTime
      ensures items == [] && seen == [] && Valid()
    {
      capacity, this.cmpByValue, this.cmpByTime, items, seen := n, cmpByValue, cmpByTime, [], [];
    }

    /** The heap never exceeds its capacity, holds the best points seen, and has its worst point at the root. */
    ghost predicate Valid()
      reads this
    {
      && capacity > 0 && |items| <= capacity
      && WeakOrder(cmpByValue) && WeakOrder(cmpByTime)
      && Heap(cmpByValue, items)
      && Best(cmpByValue, capacity, multiset(seen), multiset(items))
    }

    /** heap.Push */
    method Push(p: PointItem)
      requires Valid() && |items| < capacity
      modifies this
      ensures Valid() && seen == old(seen) + [p]
    {
      BestGrow(cmpByValue, capacity, multiset(seen), multiset(items), p);
      assert |multiset(items)| == |items|;
      items := items + [p];
      seen := seen + [p];
      LastIsLeaf(cmpByValue, old(items), p);
      Up(|items| - 1);
    }

    /** Replaces the root by a better point and restores the heap: heap.Fix at 0. */
    method ReplaceRoot(p: PointItem)
      requires Valid() && |items| == capacity && cmpByValue(items[0], p)
      modifies this
      ensures Valid() && seen == old(seen) + [p]
    {
      ghost var kept := multiset(items);
      AllAboveRoot(cmpByValue, items);
      BestReplace(cmpByValue, capacity, multiset(seen), kept, items[0], p);
      NewRoot(items, p);
      RootOnly(cmpByValue, items, p);
      items := items[0 := p];
      seen := seen + [p];
      Down();
    }

    /** One point of the series: kept if there is room or if it beats the worst point kept. */
    method Offer(p: PointItem)
      requires Valid()
      modifies this
      ensures Valid() && seen == old(seen) + [p]
    {
      if |items| < capacity {
        Push(p);
      } else if cmpByValue(items[0], p) {
        ReplaceRoot(p);
      } else {
        AllAboveRoot(cmpByValue, items);
        BestSkip(cmpByValue, capacity, multiset(seen), multiset(items), items[0], p);
        seen := seen + [p];
      }
    }

    /** All values of a part of a record; nulls are passed over. */
    method Append(rows: seq<Row>, col: nat)
      requires Valid()
      modifies this
      ensures Valid() && seen == old(seen) + Points(rows, col)
    {
      for i := 0 to |rows|
        invariant Valid() && seen == old(seen) + Points(rows[..i], col)
      {
        assert rows[..i + 1][..i] == rows[..i];
        Associate(old(seen), Points(rows[..i], col), PointOf(rows[i], col));
        AppendRow(rows[i], col);
      }
      assert rows[..|rows|] == rows;
    }

    method AppendRow(row: Row, col: nat)
      requires Valid()
      modifies this
      ensures Valid() && seen == old(seen) + PointOf(row, col)
    {
      var cell := Cell(row, col);
      if cell.Some? {
        Offer(PointItem(row.time, cell.value));
      }
    }

    /** Hands out the points kept, in order of time, and starts afresh. */
    method Flush() returns (points: seq<PointItem>)
      requires Valid()
      modifies this
      ensures Valid() && seen == [] && items == []
      ensures Best(cmpByValue, capacity, multiset(old(seen)), multiset(points)) && Sorted(cmpByTime, points)
    {
      points := Sort(cmpByTime, items);
      SortSorted(cmpByTime, items);
      items, seen := [], [];
    }

    /** Sift a new last point up. */
    method Up(last: nat)
      requires WeakOrder(cmpByValue) && HeapAbove(cmpByValue, items, last)
      modifies this`items
      ensures Heap(cmpByValue, items) && multiset(items) == old(multiset(items)) && |items| == old(|items|)
    {
      var j := last;
      while j > 0 && cmpByValue(items[j], items[Parent(j)])
        invariant |items| == old(|items|) && multiset(items) == old(multiset(items))
        invariant HeapAbove(cmpByValue, items, j)
      {
        UpSwap(cmpByValue, items, j);
        items := Swap(items, Parent(j), j);
        j := Parent(j);
      }
    }

    /** Sift a replaced root down. */
    method Down()
      requires WeakOrder(cmpByValue) && HeapBelow(cmpByValue, items, 0)
      modifies this`items
      ensures Heap(cmpByValue, items) && multiset(items) == old(multiset(items)) && |items| == old(|items|)
    {
      var i := 0;
      while 2 * i + 1 < |items|
        invariant |items| == old(|items|) && multiset(items) == old(multiset(items))
        invariant HeapBelow(cmpByValue, items, i)
        decreases |items| - i
      {
        var j := WorstChild(i);
        if !cmpByValue(items[j], items[i]) {
          WholeHeap(cmpByValue, items, i, j);
          return;
        }
        DownSwap(cmpByValue, items, i, j);
        items := Swap(items, i, j);
        i := j;
      }
      LeafHeap(cmpByValue, items, i);
    }

    method WorstChild(i: nat) returns (j: nat)
      requires WeakOrder(cmpByValue) && 2 * i + 1 < |items|
      ensures 0 < j < |items| && Parent(j) == i
      ensures forall k :: 0 < k < |items| && Parent(k) == i ==> !cmpByValue(items[k], items[j])
    {
      j := 2 * i + 1;
      if j + 1 < |items| && cmpByValue(items[j + 1], items[j]) {
        j := j + 1;
      }
      forall k | 0 < k < |items| && Parent(k) == i
        ensures !cmpByValue(items[k], items[j])
      {
        assert k == 2 * i + 1 || k == 2 * i + 2;
      }
    }
  }

  /** A point that is not better than its worst child fits where it is. */
  lemma {:induction false} WholeHeap(worse: Compare, items: seq<PointItem>, i: nat, j: nat)
    requires WeakOrder(worse) && HeapBelow(worse, items, i) && i < |items| && 0 < j < |items|
    requires forall k :: 0 < k < |items| && Parent(k) == i ==> !worse(items[k], items[j])
    requires !worse(items[j], items[i])
    ensures Heap(worse, items)
  {
  }

  lemma {:induction false} LeafHeap(worse: Compare, items: seq<PointItem>, i: nat)
    requires HeapBelow(worse, items, i) && 2 * i + 1 >= |items|
    ensures Heap(worse, items)
  {
    forall k | 0 < k < |items|
      ensures Parent(k) != i
    {
    }
  }

  /** `points` is what the call must report for a window: its `n` best points in order of time. */
  ghost predicate IsTopN(
    cmpByValue: Compare, cmpByTime: Compare, n: nat, window: seq<PointItem>, points: seq<PointItem>
  ) {
    Best(cmpByValue, n, multiset(window), multiset(points)) && Sorted(cmpByTime, points)
  }

  /** A window has only one right report. */
  lemma {:induction false} TopNUnique(
    cmpByValue: Compare, cmpByTime: Compare, n: nat, window: seq<PointItem>, a: seq<PointItem>, b: seq<PointItem>
  )
    requires Strict(cmpByValue) && WeakOrder(cmpByTime) && Strict(cmpByTime)
    requires IsTopN(cmpByValue, cmpByTime, n, window, a) && IsTopN(cmpByValue, cmpByTime, n, window, b)
    ensures a == b
  {
    BestUnique(cmpByValue, n, multiset(window), multiset(a), multiset(b));
    SortedUnique(cmpByTime, a, b);
  }

  // ----- in words

  /** As many points of the window as asked for, or all. */
  ghost predicate Picks(n: nat, window: seq<PointItem>, points: seq<PointItem>) {
    multiset(points) <= multiset(window) && |points| == if |window| <= n then |window| else n
  }

  /** Of the points left out none has a greater value than one kept, and of equal values none is earlier. The points
      come in the order of time, at equal times the greater value first. */
  ghost predicate IsTop(n: nat, window: seq<PointItem>, points: seq<PointItem>) {
    && Picks(n, window, points)
    && (forall x, y :: x in multiset(points) && y in multiset(window) - multiset(points) ==>
          y.value < x.value || (y.value == x.value && x.time <= y.time))
    && forall i, j :: 0 <= i < j < |points| ==>
         points[i].time < points[j].time || (points[i].time == points[j].time && points[i].value >= points[j].value)
  }

  /** The same with the smaller values kept and shown first. */
  ghost predicate IsBottom(n: nat, window: seq<PointItem>, points: seq<PointItem>) {
    && Picks(n, window, points)
    && (forall x, y :: x in multiset(points) && y in multiset(window) - multiset(points) ==>
          x.value < y.value || (x.value == y.value && x.time <= y.time))
    && forall i, j :: 0 <= i < j < |points| ==>
         points[i].time < points[j].time || (points[i].time == points[j].time && points[i].value <= points[j].value)
  }

  /** The comparisons of top mean just that ... */
  lemma {:induction false} TopMeaning(n: nat, window: seq<PointItem>, points: seq<PointItem>)
    ensures IsTopN(CmpByValueTop, CmpByTimeTop, n, window, points) <==> IsTop(n, window, points)
  {
    assert |multiset(window)| == |window| && |multiset(points)| == |points|;
  }

  /** ... and those of bottom. */
  lemma {:induction false} BottomMeaning(n: nat, window: seq<PointItem>, points: seq<PointItem>)
    ensures IsTopN(CmpByValueBottom, CmpByTimeBottom, n, window, points) <==> IsBottom(n, window, points)
  {
    assert |multiset(window)| == |window| && |multiset(points)| == |points|;
  }

  /** The parameters of the call. */
  datatype Config = Config(col: nat, n: nat, cmpByValue: Compare, cmpByTime: Compare)

  /** The right reports, window by window. */
  ghost predicate Reports(c: Config, windows: seq<seq<Row>>, reports: seq<seq<PointItem>>) {
    && |reports| == |windows|
    && forall k :: 0 <= k < |windows| ==> IsTopN(c.cmpByValue, c.cmpByTime, c.n, Points(windows[k], c.col), reports[k])
  }

  lemma {:induction false} ReportsNext(
    c: Config, windows: seq<seq<Row>>, i: nat, reports: seq<seq<PointItem>>, more: seq<seq<PointItem>>,
    sameWindow: bool
  )
    requires i < |windows| && Reports(c, windows[..i], reports)
    requires if i + 1 == |windows| && sameWindow then more == [] else Reports(c, [windows[i]], more)
    ensures Reports(c, if i + 1 == |windows| then Closed(windows, sameWindow) else windows[..i + 1], reports + more)
  {
    if i + 1 == |windows| && sameWindow {
      assert reports + more == reports;
    } else {
      assert windows[..i + 1] == windows[..i] + [windows[i]];
      assert i + 1 == |windows| ==> windows[..i + 1] == windows;
      ReportsConcat(c, windows[..i], [windows[i]], reports, more);
    }
  }

  lemma {:induction false} ReportsConcat(
    c: Config, a: seq<seq<Row>>, b: seq<seq<Row>>, reports: seq<seq<PointItem>>, more: seq<seq<PointItem>>
  )
    requires Reports(c, a, reports) && Reports(c, b, more)
    ensures Reports(c, a + b, reports + more)
  {
    forall k | 0 <= k < |a + b|
      ensures IsTopN(c.cmpByValue, c.cmpByTime, c.n, Points((a + b)[k], c.col), (reports + more)[k])
    {
      if k < |a| {
        assert (a + b)[k] == a[k] && (reports + more)[k] == reports[k];
      } else {
        assert (a + b)[k] == b[k - |a|] && (reports + more)[k] == more[k - |a|];
      }
    }
  }

  class HeapReducer {
    const col: nat
    const buf: HeapItem
    ghost var carried: seq<Row>  // rows of the window left open by the last record

    constructor (col: nat, buf: HeapItem)
      requires buf.Valid() && buf.seen == []
      ensures this.col == col && this.buf == buf && Valid() && carried == []
    {
      this.col, this.buf, carried := col, buf, [];
    }

    ghost predicate Valid()
      reads this, buf
    {
      buf.Valid() && buf.seen == Points(carried, col)
    }

    function Cfg(): Config {
      Config(col, buf.capacity, buf.cmpByValue, buf.cmpByTime)
    }

    /** One part of a record: the window so far stays open or is reported. */
    method AggregateWindow(
      record: Record, start: nat, end: nat, open: bool
    ) returns (points: seq<PointItem>, ghost reports: seq<seq<PointItem>>)
      requires Valid() && start <= end <= |record|
      modifies this, buf
      ensures Valid() && points == Flatten(reports)
      ensures
        var window := old(carried) + record[start..end];
        if open then carried == window && reports == []
        else carried == [] && Reports(Cfg(), [window], reports)
    {
      ghost var window := carried + record[start..end];
      PointsConcat(carried, record[start..end], col);
      buf.Append(record[start..end], col);
      assert buf.seen == Points(window, col);
      if open {
        points, reports := [], [];
        carried := window;
      } else {
        points := buf.Flush();
        reports := [points];
        FlattenOne(points);
        carried := [];
      }
    }

    /** Feeds one record, cut into windows by `index`; the last window stays open if `sameWindow` holds. */
    method Aggregate(
      record: Record, index: seq<nat>, sameWindow: bool
    ) returns (points: seq<PointItem>, ghost reports: seq<seq<PointItem>>)
      requires Valid() && record != [] && IsIndex(record, index)
      modifies this, buf
      ensures Valid() && points == Flatten(reports)
      ensures
        var windows := JoinFirst(old(carried), Slices(record, index));
        carried == StillOpen(windows, sameWindow) && Reports(Cfg(), Closed(windows, sameWindow), reports)
    {
      ghost var windows := JoinFirst(carried, Slices(record, index));
      points, reports := [], [];
      for i := 0 to |index|
        invariant Valid() && points == Flatten(reports)
        invariant carried
               == if i == 0 then old(carried) else if i == |index| then StillOpen(windows, sameWindow) else []
        invariant Reports(Cfg(), if i == |index| then Closed(windows, sameWindow) else windows[..i], reports)
      {
        ghost var before := carried;
        var end := EndOf(record, index, i);
        var more, moreReports := AggregateWindow(record, index[i], end, i + 1 == |index| && sameWindow);
        assert windows[i] == before + record[index[i]..end];
        ReportsNext(Cfg(), windows, i, reports, moreReports, sameWindow);
        FlattenAppend(reports, moreReports);
        points, reports := points + more, reports + moreReports;
      }
    }
  }

  /** A whole series through the cursor: peek, cut, reduce. Each window the cursor forms is reported
      with exactly its best points. */
  method Drain(
    interval: nat, reducer: HeapReducer, records: seq<Record>
  ) returns (points: seq<PointItem>, ghost reports: seq<seq<PointItem>>)
    requires reducer.Valid() && reducer.carried == []
    requires forall k :: 0 <= k < |records| ==> |records[k]| <= MAX_INDEX
    modifies reducer, reducer.buf
    ensures points == Flatten(reports) && Reports(reducer.Cfg(), Groups(Aligned(interval), [], records), reports)
    ensures Misjudgements(Aligned(interval), records) == 0 ==>
      Reports(reducer.Cfg(), Runs(Aligned(interval), Flatten(records)), reports)
  {
    ghost var win := Aligned(interval);
    ghost var done, total := [], Groups(win, [], records);
    points, reports := [], [];
    SplitsStart(win, records);
    for i := 0 to |records|
      invariant reducer.Valid() && points == Flatten(reports) && Reports(reducer.Cfg(), done, reports)
      invariant Splits(win, total, done, reducer.carried, records[i..])
    {
      assert records[i..] == [records[i]] + records[i + 1..];
      if records[i] == [] {
        SplitsSkip(win, total, done, reducer.carried, records[i + 1..]);
        continue;
      }
      var same := Peek(interval, records[i], records[i + 1..]);
      var index := GetIntervalIndex(interval, records[i]);
      ghost var before := reducer.carried;
      IndexIsRight(interval, records[i]);
      var more, moreReports := reducer.Aggregate(records[i], index, same);
      ghost var closed := Closed(JoinFirst(before, Runs(win, records[i])), same);
      GroupsGoOn(win, total, done, before, records[i], records[i + 1..]);
      FlattenAppend(reports, moreReports);
      ReportsConcat(reducer.Cfg(), done, closed, reports, moreReports);
      points, reports, done := points + more, reports + moreReports, done + closed;
    }
    SplitsEnd(win, total, done, reducer.carried, records[|records|..]);
    GroupsAreRuns(win, records);
  }

  /** What top reports, window by window. */
  ghost predicate ReportsTop(n: nat, col: nat, windows: seq<seq<Row>>, reports: seq<seq<PointItem>>) {
    && |reports| == |windows|
    && forall k :: 0 <= k < |windows| ==> IsTop(n, Points(windows[k], col), reports[k])
  }

  ghost predicate ReportsBottom(n: nat, col: nat, windows: seq<seq<Row>>, reports: seq<seq<PointItem>>) {
    && |reports| == |windows|
    && forall k :: 0 <= k < |windows| ==> IsBottom(n, Points(windows[k], col), reports[k])
  }

  lemma {:induction false} TopReports(n: nat, col: nat, windows: seq<seq<Row>>, reports: seq<seq<PointItem>>)
    requires Reports(Config(col, n, CmpByValueTop, CmpByTimeTop), windows, reports)
    ensures ReportsTop(n, col, windows, reports)
  {
    forall k | 0 <= k < |windows|
      ensures IsTop(n, Points(windows[k], col), reports[k])
    {
      TopMeaning(n, Points(windows[k], col), reports[k]);
    }
  }

  lemma {:induction false} BottomReports(n: nat, col: nat, windows: seq<seq<Row>>, reports: seq<seq<PointItem>>)
    requires Reports(Config(col, n, CmpByValueBottom, CmpByTimeBottom), windows, reports)
    ensures ReportsBottom(n, col, windows, reports)
  {
    forall k | 0 <= k < |windows|
      ensures IsBottom(n, Points(windows[k], col), reports[k])
    {
      BottomMeaning(n, Points(windows[k], col), reports[k]);
    }
  }

  /** top(n) of a whole series: every window reports its greatest values, the earlier of equal ones, in the order of
      time. */
  method DrainTop(
    interval: nat, col: nat, n: nat, records: seq<Record>
  ) returns (points: seq<PointItem>, ghost reports: seq<seq<PointItem>>)
    requires n > 0 && forall k :: 0 <= k < |records| ==> |records[k]| <= MAX_INDEX
    ensures points == Flatten(reports) && ReportsTop(n, col, Groups(Aligned(interval), [], records), reports)
    ensures Misjudgements(Aligned(interval), records) == 0 ==>
      ReportsTop(n, col, Runs(Aligned(interval), Flatten(records)), reports)
  {
    ComparisonsAreOrders();
    var buf := new HeapItem(n, CmpByValueTop, CmpByTimeTop);
    var reducer := new HeapReducer(col, buf);
    points, reports := Drain(interval, reducer, records);
    TopReports(n, col, Groups(Aligned(interval), [], records), reports);
    GroupsAreRuns(Aligned(interval), records);
  }

  /** bottom(n): the smallest values. */
  method DrainBottom(
    interval: nat, col: nat, n: nat, records: seq<Record>
  ) returns (points: seq<PointItem>, ghost reports: seq<seq<PointItem>>)
    requires n > 0 && forall k :: 0 <= k < |records| ==> |records[k]| <= MAX_INDEX
    ensures points == Flatten(reports) && ReportsBottom(n, col, Groups(Aligned(interval), [], records), reports)
    ensures Misjudgements(Aligned(interval), records) == 0 ==>
      ReportsBottom(n, col, Runs(Aligned(interval), Flatten(records)), reports)
  {
    ComparisonsAreOrders();
    var buf := new HeapItem(n, CmpByValueBottom, CmpByTimeBottom);
    var reducer := new HeapReducer(col, buf);
    points, reports := Drain(interval, reducer, records);
    BottomReports(n, col, Groups(Aligned(interval), [], records), reports);
    GroupsAreRuns(Aligned(interval), records);
  }
}
