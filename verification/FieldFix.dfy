/** Cleaning the fields of a row in place: no time field, and one field for each key. */
module FieldFix {
  import opened Records
  import Sorting

  datatype Field = Field(key: string, kind: int, value: int)

  const TIME := "time"

  /** The place of a key in the order of keys; different keys have different places. */
  type Rank = string -> int

  ghost predicate Injective(rank: Rank) {
    forall a, b :: rank(a) == rank(b) ==> a == b
  }

  /** Fields as a stable sort by key leaves them. */
  ghost predicate InOrder(rank: Rank, fields: seq<Field>) {
    forall i, j :: 0 <= i < j < |fields| ==> rank(fields[i].key) <= rank(fields[j].key)
  }

  /** The kept fields with one field more. */
  function Keep(kept: seq<Field>, f: Field): seq<Field> {
    var n := |kept| - 1;
    if f.key == TIME then kept
    else if kept != [] && kept[n].key == f.key then kept[..n] + [f]
    else kept + [f]
  }

  /** The last field of each run of equal keys, time fields left out. */
  function Kept(fields: seq<Field>): seq<Field> {
    if fields == [] then [] else Keep(Kept(fields[..|fields| - 1]), fields[|fields| - 1])
  }

  ghost predicate Rising(rank: Rank, kept: seq<Field>) {
    forall i, j :: 0 <= i < j < |kept| ==> rank(kept[i].key) < rank(kept[j].key)
  }

  /** Field k is the last of its key. */
  ghost predicate IsLast(fields: seq<Field>, f: Field, k: nat) {
    k < |fields| && fields[k] == f && f.key != TIME && forall m :: k < m < |fields| ==> fields[m].key != f.key
  }

  ghost predicate LastOfKey(fields: seq<Field>, f: Field) {
    exists k: nat :: IsLast(fields, f, k)
  }

  ghost predicate HasKey(kept: seq<Field>, key: string) {
    exists i :: 0 <= i < |kept| && kept[i].key == key
  }

  /** Strictly rising keys, each field the last of its key, and no key but time missing. */
  ghost predicate Right(rank: Rank, fields: seq<Field>, kept: seq<Field>) {
    && Rising(rank, kept)
    && (forall i :: 0 <= i < |kept| ==> LastOfKey(fields, kept[i]))
    && (forall k :: 0 <= k < |fields| ==> fields[k].key == TIME || HasKey(kept, fields[k].key))
  }

  /** Two fields of one key with different types. */
  ghost predicate Clashing(a: Field, b: Field) {
    a.key == b.key != TIME && a.kind != b.kind
  }

  ghost predicate Clash(fields: seq<Field>) {
    exists i, j :: 0 <= i < j < |fields| && Clashing(fields[i], fields[j])
  }

  // ----- one field more

  lemma {:induction false} StillLast(fields: seq<Field>, f: Field, x: Field)
    requires LastOfKey(fields, x) && x.key != f.key
    ensures LastOfKey(fields + [f], x)
  {
    var k: nat :| IsLast(fields, x, k);
    assert IsLast(fields + [f], x, k);
  }

  lemma {:induction false} NowLast(fields: seq<Field>, f: Field)
    requires f.key != TIME
    ensures LastOfKey(fields + [f], f)
  {
    assert IsLast(fields + [f], f, |fields|);
  }

  lemma {:induction false} StillHas(kept: seq<Field>, f: Field, key: string)
    requires HasKey(kept, key) || (key == f.key != TIME)
    ensures HasKey(Keep(kept, f), key)
  {
    var next := Keep(kept, f);
    if HasKey(kept, key) {
      var i :| 0 <= i < |kept| && kept[i].key == key;
      assert next[i].key == key;
    } else {
      assert next[|next| - 1].key == key;
    }
  }

  /** A kept key is not above the next one, and only the last kept can equal it. */
  lemma {:induction false} KeptBelow(rank: Rank, fields: seq<Field>, kept: seq<Field>, f: Field, i: nat)
    requires InOrder(rank, fields + [f]) && Right(rank, fields, kept) && i < |kept|
    ensures rank(kept[i].key) <= rank(f.key) && (i < |kept| - 1 ==> rank(kept[i].key) < rank(f.key))
  {
    var k: nat :| IsLast(fields, kept[|kept| - 1], k) by {
      assert LastOfKey(fields, kept[|kept| - 1]);
    }
    assert (fields + [f])[k] == fields[k] && (fields + [f])[|fields|] == f;
  }

  lemma {:induction false} KeepIsRight(rank: Rank, fields: seq<Field>, kept: seq<Field>, f: Field)
    requires Injective(rank) && InOrder(rank, fields + [f]) && Right(rank, fields, kept)
    ensures Right(rank, fields + [f], Keep(kept, f))
  {
    var next := Keep(kept, f);
    forall i | 0 <= i < |next|
      ensures LastOfKey(fields + [f], next[i])
    {
      if f.key != TIME && i == |next| - 1 {
        NowLast(fields, f);
      } else {
        KeptBelow(rank, fields, kept, f, i);
        var k: nat :| IsLast(fields, kept[i], k) by {
          assert LastOfKey(fields, kept[i]);
        }
        StillLast(fields, f, kept[i]);
      }
    }
    forall k | 0 <= k < |fields + [f]|
      ensures (fields + [f])[k].key == TIME || HasKey(next, (fields + [f])[k].key)
    {
      if (fields + [f])[k].key != TIME {
        StillHas(kept, f, (fields + [f])[k].key);
      }
    }
    KeepRises(rank, fields, kept, f);
  }

  lemma {:induction false} KeepRises(rank: Rank, fields: seq<Field>, kept: seq<Field>, f: Field)
    requires Injective(rank) && InOrder(rank, fields + [f]) && Right(rank, fields, kept)
    ensures Rising(rank, Keep(kept, f))
  {
    var next := Keep(kept, f);
    forall i, j | 0 <= i < j < |next|
      ensures rank(next[i].key) < rank(next[j].key)
    {
      assert next[i] == kept[i];
      if f.key != TIME && j == |next| - 1 {
        KeptBelow(rank, fields, kept, f, i);
        assert next[j] == f && (i == |kept| - 1 ==> kept[i].key != f.key);
      } else {
        assert next[j] == kept[j];
      }
    }
  }

  lemma {:induction false} KeptIsRight(rank: Rank, fields: seq<Field>)
    requires Injective(rank) && InOrder(rank, fields)
    ensures Right(rank, fields, Kept(fields))
  {
    if fields != [] {
      var n := |fields| - 1;
      KeptIsRight(rank, fields[..n]);
      assert fields == fields[..n] + [fields[n]];
      KeepIsRight(rank, fields[..n], Kept(fields[..n]), fields[n]);
    }
  }

  // ----- clashes

  lemma {:induction false} NewClash(fields: seq<Field>, f: Field)
    ensures Clash(fields + [f]) <==> Clash(fields) || exists i :: 0 <= i < |fields| && Clashing(fields[i], f)
  {
    var next := fields + [f];
    if Clash(fields) {
      var i, j :| 0 <= i < j < |fields| && Clashing(fields[i], fields[j]);
      assert Clashing(next[i], next[j]);
    }
    if i :| 0 <= i < |fields| && Clashing(fields[i], f) {
      assert Clashing(next[i], next[|fields|]);
    }
    if Clash(next) {
      var i, j :| 0 <= i < j < |next| && Clashing(next[i], next[j]);
      assert next[i] == fields[i];
      if j < |fields| {
        assert Clashing(fields[i], fields[j]);
      }
    }
  }

  /** If the fields before do not clash, the next one clashes with one of them exactly when it clashes with
      the one kept last. */
  lemma {:induction false} ClashNext(rank: Rank, fields: seq<Field>, kept: seq<Field>, f: Field)
    requires Injective(rank) && InOrder(rank, fields + [f]) && Right(rank, fields, kept) && !Clash(fields)
    ensures Clash(fields + [f]) <==> kept != [] && Clashing(kept[|kept| - 1], f)
  {
    NewClash(fields, f);
    if kept != [] && Clashing(kept[|kept| - 1], f) {
      var k: nat :| IsLast(fields, kept[|kept| - 1], k) by {
        assert LastOfKey(fields, kept[|kept| - 1]);
      }
      assert Clashing(fields[k], f);
    }
    if i :| 0 <= i < |fields| && Clashing(fields[i], f) {
      SameKind(rank, fields, kept, f, i);
    }
  }

  lemma {:induction false} SameKind(rank: Rank, fields: seq<Field>, kept: seq<Field>, f: Field, i: nat)
    requires Injective(rank) && InOrder(rank, fields + [f]) && Right(rank, fields, kept) && !Clash(fields)
    requires i < |fields| && fields[i].key == f.key != TIME
    ensures kept != [] && kept[|kept| - 1].key == f.key && kept[|kept| - 1].kind == fields[i].kind
  {
    assert HasKey(kept, f.key);
    var m :| 0 <= m < |kept| && kept[m].key == f.key;
    KeptBelow(rank, fields, kept, f, m);
    var k: nat :| IsLast(fields, kept[m], k) by {
      assert LastOfKey(fields, kept[m]);
    }
    assert i == k || i < k;
    assert i == k || !Clashing(fields[i], fields[k]);
  }

  // ----- the loop

  /** Where the loop is: the fields kept of the first p, and the others. */
  ghost predicate Fixing(fields: seq<Field>, p: nat, cur: seq<Field>, i: nat) {
    p <= |fields| && cur == Kept(fields[..p]) + fields[p..] && i == |Kept(fields[..p])| && !Clash(fields[..p])
  }

  lemma {:induction false} FixAt(fields: seq<Field>, p: nat, cur: seq<Field>, i: nat)
    requires Fixing(fields, p, cur, i) && i < |cur|
    ensures p < |fields| && cur[i] == fields[p] && cur[..i] == Kept(fields[..p]) && cur[i + 1..] == fields[p + 1..]
    ensures fields[..p + 1] == fields[..p] + [fields[p]]
  {
    var kept := Kept(fields[..p]);
    assert fields[p..] == [fields[p]] + fields[p + 1..];
  }

  lemma {:induction false} KeptSnoc(fields: seq<Field>, f: Field)
    ensures Kept(fields + [f]) == Keep(Kept(fields), f)
  {
    assert (fields + [f])[..|fields|] == fields;
  }

  lemma {:induction false} OrderedPrefix(rank: Rank, fields: seq<Field>, p: nat)
    requires InOrder(rank, fields) && p <= |fields|
    ensures InOrder(rank, fields[..p])
  {
  }

  /** A round that does not fail. */
  lemma {:induction false} FixNext(
    rank: Rank, fields: seq<Field>, p: nat, cur: seq<Field>, i: nat, cur': seq<Field>, i': nat
  )
    requires Injective(rank) && InOrder(rank, fields) && Fixing(fields, p, cur, i) && i < |cur|
    requires !(i > 0 && Clashing(cur[i - 1], cur[i]))
    requires cur' == Keep(cur[..i], cur[i]) + cur[i + 1..] && i' == |Keep(cur[..i], cur[i])|
    ensures Fixing(fields, p + 1, cur', i')
  {
    FixAt(fields, p, cur, i);
    KeptSnoc(fields[..p], fields[p]);
    assert !Clash(fields[..p] + [fields[p]]) by {
      RoundClash(rank, fields, p, cur, i);
    }
  }

  lemma {:induction false} RoundClash(rank: Rank, fields: seq<Field>, p: nat, cur: seq<Field>, i: nat)
    requires Injective(rank) && InOrder(rank, fields) && Fixing(fields, p, cur, i) && i < |cur|
    ensures p < |fields| && (Clash(fields[..p] + [fields[p]]) <==> i > 0 && Clashing(cur[i - 1], cur[i]))
  {
    FixAt(fields, p, cur, i);
    OrderedPrefix(rank, fields, p);
    OrderedPrefix(rank, fields, p + 1);
    KeptIsRight(rank, fields[..p]);
    ClashNext(rank, fields[..p], cur[..i], cur[i]);
  }

  /** A round that fails. */
  lemma {:induction false} FixFails(rank: Rank, fields: seq<Field>, p: nat, cur: seq<Field>, i: nat)
    requires Injective(rank) && InOrder(rank, fields) && Fixing(fields, p, cur, i) && 0 < i < |cur|
    requires Clashing(cur[i - 1], cur[i])
    ensures Clash(fields)
  {
    RoundClash(rank, fields, p, cur, i);
    assert fields[..p + 1] == fields[..p] + [fields[p]];
    MoreClash(fields, p + 1);
  }

  /** One round: the field at i is dropped, replaces its neighbour, or stays. */
  method FixOne(fields: seq<Field>, i: nat) returns (fields': seq<Field>, i': nat, bad: bool)
    requires i < |fields|
    ensures bad <==> i > 0 && Clashing(fields[i - 1], fields[i])
    ensures !bad ==> fields' == Keep(fields[..i], fields[i]) + fields[i + 1..] && i' == |Keep(fields[..i], fields[i])|
    ensures !bad ==> |fields'| - i' < |fields| - i && i' <= |fields'|
  {
    fields', i', bad := fields, i, false;
    assert fields == fields[..i] + [fields[i]] + fields[i + 1..];
    if fields[i].key == TIME {
      fields' := fields[..i] + fields[i + 1..];
    } else if i > 0 && fields[i - 1].key == fields[i].key {
      if fields[i - 1].kind != fields[i].kind {
        return fields, i, true;
      }
      fields' := fields[..i - 1] + fields[i..];
    } else {
      i' := i + 1;
    }
  }

  lemma {:induction false} MoreClash(fields: seq<Field>, p: nat)
    requires p <= |fields| && Clash(fields[..p])
    ensures Clash(fields)
  {
    var prefix := fields[..p];
    var i, j :| 0 <= i < j < |prefix| && Clashing(prefix[i], prefix[j]);
    assert Clashing(fields[i], fields[j]);
  }

  lemma {:induction false} FixStarts(fields: seq<Field>)
    ensures Fixing(fields, 0, fields, 0)
  {
    assert [] + fields == fields;
  }

  lemma {:induction false} FixDone(fields: seq<Field>, p: nat, cur: seq<Field>, i: nat)
    requires Fixing(fields, p, cur, i) && i == |cur|
    ensures !Clash(fields) && cur == Kept(fields)
  {
    assert p == |fields| && fields[..p] == fields;
  }

  /** Fails exactly when a key other than time has two types. */
  method FixFields(fields: seq<Field>, ghost rank: Rank) returns (fixed: Option<seq<Field>>)
    requires Injective(rank) && InOrder(rank, fields)
    ensures fixed == if Clash(fields) then None else Some(Kept(fields))
  {
    var cur, i: nat := fields, 0;
    ghost var p: nat := 0;
    FixStarts(fields);
    while i < |cur|
      invariant Fixing(fields, p, cur, i)
      decreases |cur| - i
    {
      var next, j, bad := FixOne(cur, i);
      if bad {
        FixFails(rank, fields, p, cur, i);
        return None;
      }
      FixNext(rank, fields, p, cur, i, next, j);
      cur, i, p := next, j, p + 1;
    }
    FixDone(fields, p, cur, i);
    fixed := Some(cur);
  }

  // ----- sorting first

  function ByKey(rank: Rank): (Field, Field) -> bool {
    (a: Field, b: Field) => rank(a.key) < rank(b.key)
  }

  /** The fields of one key, in the order they stand in. */
  function OfKey(fields: seq<Field>, key: string): seq<Field> {
    if fields == [] then [] else Picked(fields[0], key) + OfKey(fields[1..], key)
  }

  function Picked(f: Field, key: string): seq<Field> {
    if f.key == key then [f] else []
  }

  lemma {:induction false} InsertStable(rank: Rank, x: Field, fields: seq<Field>, key: string)
    requires Sorting.Sorted(ByKey(rank), fields)
    ensures OfKey(Sorting.Insert(ByKey(rank), x, fields), key) == Picked(x, key) + OfKey(fields, key)
  {
    var all := Sorting.Insert(ByKey(rank), x, fields);
    if fields == [] || !ByKey(rank)(fields[0], x) {
      assert all == [x] + fields && all[1..] == fields;
    } else {
      InsertStable(rank, x, fields[1..], key);
      var rest := Sorting.Insert(ByKey(rank), x, fields[1..]);
      assert all[0] == fields[0] && all[1..] == rest;
      var head, mine, tail := Picked(fields[0], key), Picked(x, key), OfKey(fields[1..], key);
      assert OfKey(all, key) == head + (mine + tail) && OfKey(fields, key) == head + tail;
      assert head == [] || mine == [];
    }
  }

  lemma {:induction false} ByKeyOrders(rank: Rank)
    ensures Sorting.WeakOrder(ByKey(rank))
  {
  }

  /** The sort keeps the fields of a key in their order. */
  lemma {:induction false} SortStable(rank: Rank, fields: seq<Field>, key: string)
    ensures OfKey(Sorting.Sort(ByKey(rank), fields), key) == OfKey(fields, key)
  {
    if fields != [] {
      ByKeyOrders(rank);
      SortStable(rank, fields[1..], key);
      Sorting.SortSorted(ByKey(rank), fields[1..]);
      InsertStable(rank, fields[0], Sorting.Sort(ByKey(rank), fields[1..]), key);
    }
  }

  /** The last field of a key is the last of the fields of that key. */
  lemma {:induction false} LastIsLast(fields: seq<Field>, f: Field, k: nat)
    requires IsLast(fields, f, k)
    ensures OfKey(fields, f.key) != [] && OfKey(fields, f.key)[|OfKey(fields, f.key)| - 1] == f
    decreases fields
  {
    if k == 0 {
      NoneOfKey(fields[1..], f.key);
    } else {
      assert IsLast(fields[1..], f, k - 1);
      LastIsLast(fields[1..], f, k - 1);
    }
  }

  lemma {:induction false} NoneOfKey(fields: seq<Field>, key: string)
    requires forall m :: 0 <= m < |fields| ==> fields[m].key != key
    ensures OfKey(fields, key) == []
  {
    if fields != [] {
      NoneOfKey(fields[1..], key);
    }
  }

  lemma {:induction false} ClashAnyOrder(a: seq<Field>, b: seq<Field>)
    requires multiset(a) == multiset(b) && Clash(a)
    ensures Clash(b)
  {
    var i, j :| 0 <= i < j < |a| && Clashing(a[i], a[j]);
    assert a[i] in multiset(b) && a[j] in multiset(b);
    var m :| 0 <= m < |b| && b[m] == a[i];
    var n :| 0 <= n < |b| && b[n] == a[j];
    assert m < n ==> Clashing(b[m], b[n]);
    assert n < m ==> Clashing(b[n], b[m]);
  }

  /** One field for each key but time, in the order of keys, with the value that was given last. */
  ghost predicate Cleaned(rank: Rank, given: seq<Field>, fields: seq<Field>) {
    && Rising(rank, fields)
    && (forall i :: 0 <= i < |fields| ==> IsGivenLast(given, fields[i]))
    && (forall k :: 0 <= k < |given| ==> given[k].key == "time" || HasKey(fields, given[k].key))
  }

  /** The field is not a time field, and was given with no field of its key after it. */
  ghost predicate IsGivenLast(given: seq<Field>, f: Field) {
    f.key != "time" && exists k ::
      0 <= k < |given| && given[k] == f && forall m :: k < m < |given| ==> given[m].key != f.key
  }

  /** The last of the fields of a key is the one with none of its key after it. */
  lemma {:induction false} LastOfThem(fields: seq<Field>, key: string) returns (k: nat)
    requires OfKey(fields, key) != []
    ensures k < |fields| && fields[k] == OfKey(fields, key)[|OfKey(fields, key)| - 1] && fields[k].key == key
    ensures forall m :: k < m < |fields| ==> fields[m].key != key
  {
    var rest := OfKey(fields[1..], key);
    if rest == [] {
      SomeOfKey(fields[1..], key);
      k := 0;
    } else {
      k := LastOfThem(fields[1..], key);
      assert forall m :: k + 1 < m < |fields| ==> fields[m] == fields[1..][m - 1];
      k := k + 1;
    }
  }

  lemma {:induction false} SomeOfKey(fields: seq<Field>, key: string)
    requires OfKey(fields, key) == []
    ensures forall m :: 0 <= m < |fields| ==> fields[m].key != key
  {
    if fields != [] {
      SomeOfKey(fields[1..], key);
      assert forall m :: 0 < m < |fields| ==> fields[m] == fields[1..][m - 1];
    }
  }

  lemma {:induction false} SortedIsCleaned(rank: Rank, given: seq<Field>, sorted: seq<Field>, fields: seq<Field>)
    requires sorted == Sorting.Sort(ByKey(rank), given) && Right(rank, sorted, fields)
    ensures Cleaned(rank, given, fields)
  {
    forall i | 0 <= i < |fields|
      ensures IsGivenLast(given, fields[i])
    {
      assert LastOfKey(sorted, fields[i]);
      var k: nat :| IsLast(sorted, fields[i], k);
      LastIsLast(sorted, fields[i], k);
      SortStable(rank, given, fields[i].key);
      var j := LastOfThem(given, fields[i].key);
    }
    forall k | 0 <= k < |given|
      ensures given[k].key == TIME || HasKey(fields, given[k].key)
    {
      assert given[k] in multiset(sorted);
      var m :| 0 <= m < |sorted| && sorted[m] == given[k];
    }
  }

  /** What the fields of a row become. */
  ghost function CleanFields(rank: Rank, given: seq<Field>): Option<seq<Field>> {
    if Clash(given) then None else Some(Kept(Sorting.Sort(ByKey(rank), given)))
  }

  lemma {:induction false} CleanIsCleaned(rank: Rank, given: seq<Field>)
    requires Injective(rank) && !Clash(given)
    ensures CleanFields(rank, given).Some? && Cleaned(rank, given, CleanFields(rank, given).value)
  {
    var sorted := Sorting.Sort(ByKey(rank), given);
    SortFits(rank, given, sorted);
    KeptIsRight(rank, sorted);
    SortedIsCleaned(rank, given, sorted, Kept(sorted));
  }

  /** Sorts the fields of a row by key and cleans them. */
  method SortAndFix(rank: Rank, given: seq<Field>) returns (fixed: Option<seq<Field>>)
    requires Injective(rank)
    ensures fixed == CleanFields(rank, given)
    ensures fixed.Some? ==> Cleaned(rank, given, fixed.value)
  {
    var sorted := Sorting.Sort(ByKey(rank), given);
    SortFits(rank, given, sorted);
    fixed := FixFields(sorted, rank);
    if fixed.Some? {
      CleanIsCleaned(rank, given);
    }
  }

  lemma {:induction false} SortFits(rank: Rank, given: seq<Field>, sorted: seq<Field>)
    requires sorted == Sorting.Sort(ByKey(rank), given)
    ensures InOrder(rank, sorted) && (Clash(sorted) <==> Clash(given))
  {
    ByKeyOrders(rank);
    Sorting.SortSorted(ByKey(rank), given);
    forall i, j | 0 <= i < j < |sorted|
      ensures rank(sorted[i].key) <= rank(sorted[j].key)
    {
      assert !ByKey(rank)(sorted[j], sorted[i]);
    }
    if Clash(sorted) {
      ClashAnyOrder(sorted, given);
    }
    if Clash(given) {
      ClashAnyOrder(given, sorted);
    }
  }
}
