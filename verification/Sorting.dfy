/** Sorting by a comparison, as the library sort the engine calls. */
module Sorting {

  ghost predicate WeakOrder<T(!new)>(less: (T, T) -> bool) {
    && (forall a, b :: less(a, b) ==> !less(b, a))
    && forall a, b, c :: !less(a, b) && !less(b, c) ==> !less(a, c)
  }

  /** Different elements are always comparable. */
  ghost predicate Strict<T(!new)>(less: (T, T) -> bool) {
    forall a, b :: a != b ==> less(a, b) || less(b, a)
  }

  ghost predicate Sorted<T>(less: (T, T) -> bool, s: seq<T>) {
    forall i, j :: 0 <= i < j < |s| ==> !less(s[j], s[i])
  }

  function Insert<T>(less: (T, T) -> bool, x: T, s: seq<T>): (r: seq<T>)
    ensures multiset(r) == multiset(s) + multiset{x}
  {
    if s == [] || !less(s[0], x) then
      [x] + s
    else
      assert s == [s[0]] + s[1..];
      [s[0]] + Insert(less, x, s[1..])
  }

  function Sort<T>(less: (T, T) -> bool, s: seq<T>): (r: seq<T>)
    ensures multiset(r) == multiset(s) && |r| == |s|
  {
    if s == [] then []
    else
      assert s == [s[0]] + s[1..];
      var r := Insert(less, s[0], Sort(less, s[1..]));
      assert |multiset(r)| == |multiset(s)|;
      r
  }

  lemma {:induction false} InsertSorted<T(!new)>(less: (T, T) -> bool, x: T, s: seq<T>)
    requires WeakOrder(less) && Sorted(less, s)
    ensures Sorted(less, Insert(less, x, s))
  {
    if s != [] && less(s[0], x) {
      var rest := Insert(less, x, s[1..]);
      InsertSorted(less, x, s[1..]);
      forall k | 0 <= k < |rest|
        ensures !less(rest[k], s[0])
      {
        assert rest[k] in multiset(rest);
        assert rest[k] == x || rest[k] in s[1..];
      }
    }
  }

  lemma {:induction false} SortSorted<T(!new)>(less: (T, T) -> bool, s: seq<T>)
    requires WeakOrder(less)
    ensures Sorted(less, Sort(less, s))
  {
    if s != [] {
      SortSorted(less, s[1..]);
      InsertSorted(less, s[0], Sort(less, s[1..]));
    }
  }

  /** Only one arrangement of given elements is sorted. */
  lemma {:induction false} SortedUnique<T(!new)>(less: (T, T) -> bool, s: seq<T>, r: seq<T>)
    requires WeakOrder(less) && Strict(less)
    requires Sorted(less, s) && Sorted(less, r) && multiset(s) == multiset(r)
    ensures s == r
  {
    assert |s| == |multiset(s)| && |r| == |multiset(r)|;
    if s != [] {
      SameHead(less, s, r);
      TailMultiset(s);
      TailMultiset(r);
      SortedUnique(less, s[1..], r[1..]);
    }
  }

  lemma {:induction false} TailMultiset<T>(s: seq<T>)
    requires s != []
    ensures multiset(s[1..]) == multiset(s) - multiset{s[0]}
  {
    assert s == [s[0]] + s[1..];
  }

  lemma {:induction false} SameHead<T(!new)>(less: (T, T) -> bool, s: seq<T>, r: seq<T>)
    requires WeakOrder(less) && Strict(less) && s != [] && r != []
    requires Sorted(less, s) && Sorted(less, r) && multiset(s) == multiset(r)
    ensures s[0] == r[0]
  {
    assert s[0] in multiset(s) && r[0] in multiset(r);
    assert s[0] in multiset(r) && r[0] in multiset(s);
    var i :| 0 <= i < |r| && r[i] == s[0];
    var j :| 0 <= j < |s| && s[j] == r[0];
    assert i > 0 ==> !less(r[i], r[0]);
    assert j > 0 ==> !less(s[j], s[0]);
  }
}
