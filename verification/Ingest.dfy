/** Routing the rows of a write to shards: buckets kept sorted by shard, in slots that are used again. */
module Ingest {
  import opened Records
  import opened FieldFix
  import Sorting

  /** A row of line protocol. */
  datatype Line = Line(time: int, fields: seq<Field>, name: int)

  datatype Bucket = Bucket(id: nat, rows: seq<Line>)

  function ById(a: Bucket, b: Bucket): bool {
    a.id < b.id
  }

  ghost predicate SortedById(buckets: seq<Bucket>) {
    forall i, j :: 0 <= i < j < |buckets| ==> buckets[i].id < buckets[j].id
  }

  /** The rows in the bucket of a shard. */
  ghost function RowsIn(buckets: seq<Bucket>, id: nat): seq<Line> {
    if buckets == [] then [] else if buckets[0].id == id then buckets[0].rows else RowsIn(buckets[1..], id)
  }

  ghost function Total(buckets: seq<Bucket>): nat {
    if buckets == [] then 0 else |buckets[0].rows| + Total(buckets[1..])
  }

  ghost predicate Absent(buckets: seq<Bucket>, id: nat) {
    forall k :: 0 <= k < |buckets| ==> buckets[k].id != id
  }

  lemma {:induction false} RowsAbsent(buckets: seq<Bucket>, id: nat)
    requires Absent(buckets, id)
    ensures RowsIn(buckets, id) == []
  {
    if buckets != [] {
      RowsAbsent(buckets[1..], id);
    }
  }

  // ----- sorting a new bucket in

  lemma {:induction false} InsertRows(b: Bucket, buckets: seq<Bucket>, id: nat)
    requires Absent(buckets, b.id)
    ensures
      var all := Sorting.Insert(ById, b, buckets);
      && Total(all) == Total(buckets) + |b.rows|
      && RowsIn(all, id) == (if id == b.id then b.rows else RowsIn(buckets, id))
  {
    var all := Sorting.Insert(ById, b, buckets);
    if buckets == [] || !ById(buckets[0], b) {
      assert all == [b] + buckets && all[1..] == buckets;
    } else {
      InsertRows(b, buckets[1..], id);
      assert all[0] == buckets[0] && all[1..] == Sorting.Insert(ById, b, buckets[1..]);
    }
  }

  /** Every id is above a bound. */
  ghost predicate AllAbove(buckets: seq<Bucket>, bound: int) {
    forall k :: 0 <= k < |buckets| ==> bound < buckets[k].id
  }

  lemma {:induction false} InsertAbove(b: Bucket, buckets: seq<Bucket>, bound: int)
    requires AllAbove(buckets, bound) && bound < b.id
    ensures AllAbove(Sorting.Insert(ById, b, buckets), bound)
  {
    if buckets != [] && ById(buckets[0], b) {
      InsertAbove(b, buckets[1..], bound);
    }
  }

  lemma {:induction false} InsertInPlace(b: Bucket, buckets: seq<Bucket>)
    requires SortedById(buckets) && Absent(buckets, b.id)
    ensures SortedById(Sorting.Insert(ById, b, buckets))
  {
    if buckets != [] && ById(buckets[0], b) {
      InsertInPlace(b, buckets[1..]);
      InsertAbove(b, buckets[1..], buckets[0].id);
    }
  }

  /** Buckets of different shards in any order. */
  ghost predicate Distinct(buckets: seq<Bucket>) {
    forall i, j :: 0 <= i < j < |buckets| ==> buckets[i].id != buckets[j].id
  }

  lemma {:induction false} InsertAbsent(b: Bucket, buckets: seq<Bucket>, id: nat)
    requires Absent(buckets, id) && b.id != id
    ensures Absent(Sorting.Insert(ById, b, buckets), id)
  {
    if buckets != [] && ById(buckets[0], b) {
      InsertAbsent(b, buckets[1..], id);
    }
  }

  lemma {:induction false} SortAbsent(buckets: seq<Bucket>, id: nat)
    requires Absent(buckets, id)
    ensures Absent(Sorting.Sort(ById, buckets), id)
  {
    if buckets != [] {
      SortAbsent(buckets[1..], id);
      InsertAbsent(buckets[0], Sorting.Sort(ById, buckets[1..]), id);
    }
  }

  /** Sorting moves whole buckets and leaves them as they are. */
  lemma {:induction false} SortBuckets(buckets: seq<Bucket>, id: nat)
    requires Distinct(buckets)
    ensures
      var all := Sorting.Sort(ById, buckets);
      SortedById(all) && Total(all) == Total(buckets) && RowsIn(all, id) == RowsIn(buckets, id)
  {
    if buckets != [] {
      var rest := Sorting.Sort(ById, buckets[1..]);
      SortBuckets(buckets[1..], id);
      assert Absent(buckets[1..], buckets[0].id);
      SortAbsent(buckets[1..], buckets[0].id);
      InsertRows(buckets[0], rest, id);
      InsertInPlace(buckets[0], rest);
    }
  }

  lemma {:induction false} AppendBucket(buckets: seq<Bucket>, b: Bucket, id: nat)
    requires SortedById(buckets) && Absent(buckets, b.id)
    ensures Distinct(buckets + [b]) && Total(buckets + [b]) == Total(buckets) + |b.rows|
    ensures RowsIn(buckets + [b], id) == if id == b.id then b.rows else RowsIn(buckets, id)
  {
    if buckets == [] {
      assert (buckets + [b])[1..] == [];
    } else {
      assert (buckets + [b])[1..] == buckets[1..] + [b];
      AppendBucket(buckets[1..], b, id);
    }
  }

  /** A row added to the bucket at k. */
  lemma {:induction false} ExtendBucket(buckets: seq<Bucket>, k: nat, row: Line, id: nat)
    requires SortedById(buckets) && k < |buckets|
    ensures
      var b := buckets[k];
      var all := buckets[k := Bucket(b.id, b.rows + [row])];
      && SortedById(all) && Total(all) == Total(buckets) + 1
      && RowsIn(all, id) == RowsIn(buckets, id) + (if id == b.id then [row] else [])
  {
    var b := buckets[k];
    var all := buckets[k := Bucket(b.id, b.rows + [row])];
    if k > 0 {
      ExtendBucket(buckets[1..], k - 1, row, id);
      assert all[1..] == buckets[1..][k - 1 := Bucket(b.id, b.rows + [row])];
    } else {
      assert all[1..] == buckets[1..];
    }
  }

  /** The buckets with one row more, for the shard `id`. */
  ghost predicate Added(before: seq<Bucket>, after: seq<Bucket>, id: nat, row: Line) {
    && Total(after) == Total(before) + 1
    && forall i :: RowsIn(after, i) == if i == id then RowsIn(before, i) + [row] else RowsIn(before, i)
  }

  lemma {:induction false} AddedToOld(buckets: seq<Bucket>, k: nat, row: Line)
    requires SortedById(buckets) && k < |buckets|
    ensures
      var all := buckets[k := Bucket(buckets[k].id, buckets[k].rows + [row])];
      SortedById(all) && Added(buckets, all, buckets[k].id, row)
  {
    var all := buckets[k := Bucket(buckets[k].id, buckets[k].rows + [row])];
    ExtendBucket(buckets, k, row, buckets[k].id);
    forall i
      ensures RowsIn(all, i) == if i == buckets[k].id then RowsIn(buckets, i) + [row] else RowsIn(buckets, i)
    {
      ExtendBucket(buckets, k, row, i);
    }
  }

  lemma {:induction false} AddedAsNew(buckets: seq<Bucket>, id: nat, row: Line)
    requires SortedById(buckets) && Absent(buckets, id)
    ensures
      var all := Sorting.Sort(ById, buckets + [Bucket(id, [row])]);
      SortedById(all) && Added(buckets, all, id, row)
  {
    var b := Bucket(id, [row]);
    var all := Sorting.Sort(ById, buckets + [b]);
    AppendBucket(buckets, b, id);
    SortBuckets(buckets + [b], id);
    RowsAbsent(buckets, id);
    forall i
      ensures RowsIn(all, i) == if i == id then RowsIn(buckets, i) + [row] else RowsIn(buckets, i)
    {
      AppendBucket(buckets, b, i);
      SortBuckets(buckets + [b], i);
    }
  }

  class IngestionCtx {
    /** The slots of the shard rows; those from `len` on are left from earlier writes. */
    var slots: seq<Bucket>
    var len: nat

    constructor ()
      ensures Valid() && Buckets() == []
    {
      slots, len := [], 0;
    }

    ghost predicate Valid()
      reads this
    {
      len <= |slots| && SortedById(slots[..len])
    }

    function Buckets(): seq<Bucket>
      requires len <= |slots|
      reads this
    {
      slots[..len]
    }

    /** Binary search for the bucket of a shard. */
    method GetShardRow(id: nat) returns (found: Option<nat>)
      requires Valid()
      ensures found.Some? ==> found.value < len && slots[found.value].id == id
      ensures found.None? ==> Absent(Buckets(), id)
    {
      var i, j := 0, len;
      while i < j
        invariant 0 <= i <= j <= len
        invariant forall k :: 0 <= k < i ==> slots[k].id < id
        invariant forall k :: j <= k < len ==> id <= slots[k].id
      {
        var h := (i + j) / 2;
        assert slots[..len][h] == slots[h];
        assert forall k :: 0 <= k < len ==> slots[..len][k] == slots[k];
        if id <= slots[h].id {
          j := h;
        } else {
          i := h + 1;
        }
      }
      if i < len && slots[i].id == id {
        return Some(i);
      }
      assert i < len ==> slots[..len][i].id > id;
      found := None;
    }

    /** Adds a row to the bucket of its shard; a new bucket goes to the next slot, whatever that held. */
    method SetShardRow(id: nat, row: Line)
      requires Valid()
      modifies this
      ensures Valid() && Added(old(Buckets()), Buckets(), id, row)
    {
      var found := GetShardRow(id);
      ghost var before := Buckets();
      if found.None? {
        if |slots| == len {
          slots := slots + [Bucket(id, [row])];
        } else {
          slots := slots[len := Bucket(id, [row])];
        }
        len := len + 1;
        assert slots[..len] == before + [Bucket(id, [row])];
        AddedAsNew(before, id, row);
        slots := Sorting.Sort(ById, slots[..len]) + slots[len..];
        assert slots[..len] == Sorting.Sort(ById, before + [Bucket(id, [row])]);
      } else {
        var k := found.value;
        AddedToOld(before, k, row);
        slots := slots[k := Bucket(slots[k].id, slots[k].rows + [row])];
        assert slots[..len] == before[k := Bucket(before[k].id, before[k].rows + [row])];
      }
    }

    /** Keeps the slots. */
    method Reset()
      requires Valid()
      modifies this
      ensures Valid() && Buckets() == [] && slots == old(slots)
    {
      len := 0;
    }
  }

  // ----- routing

  /** What the metadata say of a row: it is dropped with a partial error, it ends the write, or it goes to a
      shard in the form `stored`, for the schema may take fields away; `unknown` is a shard row of an engine that
      does not exist, which ends the write afterwards. */
  datatype Fate = Drop | Fatal | Shard(id: nat, stored: Line, unknown: bool)

  /** The checks of a write; `lookup` stands for measurement, schema and shard group. What it says depends on the
      rows before, so it is given the position of the row. */
  datatype Checks = Checks(
    minTime: int, inRange: int -> bool, timeOk: int -> bool, rank: Rank, lookup: (nat, Line) -> Fate)

  /** What becomes of row i. */
  ghost function FateOf(c: Checks, i: nat, row: Line): Fate {
    var fixed := CleanFields(c.rank, row.fields);
    if row.time < c.minTime || !c.inRange(row.time) || !c.timeOk(row.time) || fixed.None? then Drop
    else c.lookup(i, row.(fields := fixed.value))
  }

  /** The row is in range and no key of it has two types. */
  ghost predicate Admitted(c: Checks, row: Line) {
    row.time >= c.minTime && c.inRange(row.time) && c.timeOk(row.time) && !Clash(row.fields)
  }

  /** Row i is admitted, and with its fields cleaned it is stored in this form in this shard. */
  ghost predicate Stores(c: Checks, i: nat, row: Line, id: nat, stored: Line) {
    Admitted(c, row) && exists fixed, unknown ::
      Cleaned(c.rank, row.fields, fixed) && c.lookup(i, row.(fields := fixed)) == Shard(id, stored, unknown)
  }

  /** A row that is not admitted is dropped, and one that goes to a shard is stored there. */
  lemma {:induction false} FateMeaning(c: Checks, i: nat, row: Line)
    requires Injective(c.rank)
    ensures !Admitted(c, row) ==> FateOf(c, i, row).Drop?
    ensures var fate := FateOf(c, i, row); fate.Shard? ==> Stores(c, i, row, fate.id, fate.stored)
  {
    var fixed := CleanFields(c.rank, row.fields);
    if fixed.Some? {
      CleanIsCleaned(c.rank, row.fields);
      var fate := FateOf(c, i, row);
      if fate.Shard? {
        assert c.lookup(i, row.(fields := fixed.value)) == Shard(fate.id, fate.stored, fate.unknown);
      }
    }
  }

  ghost predicate FromRow(c: Checks, rows: seq<Line>, id: nat, stored: Line) {
    exists i :: 0 <= i < |rows| && Stores(c, i, rows[i], id, stored)
  }

  /** Whatever stands in a bucket came from a row that was admitted. */
  ghost predicate OnlyAdmitted(c: Checks, rows: seq<Line>, buckets: seq<Bucket>) {
    forall id: nat, k :: 0 <= k < |RowsIn(buckets, id)| ==> FromRow(c, rows, id, RowsIn(buckets, id)[k])
  }

  lemma {:induction false} KeptAdmitted(c: Checks, rows: seq<Line>, id: nat, k: nat)
    requires Injective(c.rank) && k < |KeptFor(c, rows, id)|
    ensures FromRow(c, rows, id, KeptFor(c, rows, id)[k])
  {
    var n := |rows| - 1;
    var before := KeptFor(c, rows[..n], id);
    if k < |before| {
      KeptAdmitted(c, rows[..n], id, k);
      var i :| 0 <= i < n && Stores(c, i, rows[..n][i], id, before[k]);
      assert rows[..n][i] == rows[i];
    } else {
      FateMeaning(c, n, rows[n]);
    }
  }

  lemma {:induction false} RoutedAdmitted(c: Checks, rows: seq<Line>, buckets: seq<Bucket>, dropped: nat)
    requires Injective(c.rank) && Routed(c, rows, buckets, dropped)
    ensures OnlyAdmitted(c, rows, buckets)
  {
    forall id: nat, k | 0 <= k < |RowsIn(buckets, id)|
      ensures FromRow(c, rows, id, RowsIn(buckets, id)[k])
    {
      KeptAdmitted(c, rows, id, k);
    }
  }

  ghost function DroppedOf(c: Checks, rows: seq<Line>): nat {
    var n := |rows| - 1;
    if rows == [] then 0 else DroppedOf(c, rows[..n]) + if FateOf(c, n, rows[n]).Drop? then 1 else 0
  }

  /** The rows of a shard, in the order of arrival. */
  ghost function KeptFor(c: Checks, rows: seq<Line>, id: nat): seq<Line> {
    var n := |rows| - 1;
    if rows == [] then []
    else
      var fate := FateOf(c, n, rows[n]);
      KeptFor(c, rows[..n], id) + if fate.Shard? && fate.id == id then [fate.stored] else []
  }

  /** The write goes on after row i. */
  ghost predicate Passes(c: Checks, i: nat, row: Line) {
    var fate := FateOf(c, i, row);
    fate.Drop? || (fate.Shard? && !fate.unknown)
  }

  ghost predicate Routed(c: Checks, rows: seq<Line>, buckets: seq<Bucket>, dropped: nat) {
    && dropped == DroppedOf(c, rows) && |rows| == dropped + Total(buckets)
    && forall id :: RowsIn(buckets, id) == KeptFor(c, rows, id)
  }

  lemma {:induction false} RouteDropped(c: Checks, rows: seq<Line>, row: Line, buckets: seq<Bucket>, dropped: nat)
    requires Routed(c, rows, buckets, dropped) && FateOf(c, |rows|, row).Drop?
    ensures Routed(c, rows + [row], buckets, dropped + 1)
  {
    assert (rows + [row])[..|rows|] == rows;
    forall id
      ensures RowsIn(buckets, id) == KeptFor(c, rows + [row], id)
    {
      assert KeptFor(c, rows, id) + [] == KeptFor(c, rows, id);
    }
  }

  lemma {:induction false} RouteKept(
    c: Checks, rows: seq<Line>, row: Line, before: seq<Bucket>, after: seq<Bucket>, dropped: nat
  )
    requires Routed(c, rows, before, dropped) && FateOf(c, |rows|, row).Shard?
    requires Added(before, after, FateOf(c, |rows|, row).id, FateOf(c, |rows|, row).stored)
    ensures Routed(c, rows + [row], after, dropped)
  {
    assert (rows + [row])[..|rows|] == rows;
    forall id
      ensures RowsIn(after, id) == KeptFor(c, rows + [row], id)
    {
      assert RowsIn(before, id) == KeptFor(c, rows, id);
      assert KeptFor(c, rows, id) + [] == KeptFor(c, rows, id);
    }
  }

  /** One row: checked, cleaned, looked up and put into its bucket. */
  method RouteRow(ctx: IngestionCtx, c: Checks, i: nat, row: Line, ghost rows: seq<Line>, dropped: nat)
    returns (dropped': nat, fatal: bool)
    requires ctx.Valid() && Injective(c.rank) && i == |rows| && Routed(c, rows, ctx.Buckets(), dropped)
    modifies ctx
    ensures ctx.Valid() && (fatal <==> !Passes(c, i, row))
    ensures !fatal ==> Routed(c, rows + [row], ctx.Buckets(), dropped')
  {
    dropped', fatal := dropped, false;
    if row.time < c.minTime || !c.inRange(row.time) || !c.timeOk(row.time) {
      RouteDropped(c, rows, row, ctx.Buckets(), dropped);
      return dropped + 1, false;
    }
    var fixed := SortAndFix(c.rank, row.fields);
    if fixed.None? {
      RouteDropped(c, rows, row, ctx.Buckets(), dropped);
      return dropped + 1, false;
    }
    var r := row.(fields := fixed.value);
    match c.lookup(i, r) {
      case Fatal =>
        fatal := true;
      case Drop =>
        RouteDropped(c, rows, row, ctx.Buckets(), dropped);
        dropped' := dropped + 1;
      case Shard(id, stored, unknown) =>
        ghost var before := ctx.Buckets();
        ctx.SetShardRow(id, stored);
        RouteKept(c, rows, row, before, ctx.Buckets(), dropped);
        fatal := unknown;
    }
  }

  /** No row ends the write. */
  ghost predicate AllPass(c: Checks, rows: seq<Line>) {
    rows == [] || (AllPass(c, rows[..|rows| - 1]) && Passes(c, |rows| - 1, rows[|rows| - 1]))
  }

  lemma {:induction false} PassesNext(c: Checks, rows: seq<Line>, row: Line)
    ensures AllPass(c, rows + [row]) <==> AllPass(c, rows) && Passes(c, |rows|, row)
  {
    assert (rows + [row])[..|rows|] == rows;
  }

  lemma {:induction false} PassesPrefix(c: Checks, rows: seq<Line>, i: nat)
    requires i <= |rows| && AllPass(c, rows)
    ensures AllPass(c, rows[..i])
  {
    if i == |rows| {
      assert rows[..i] == rows;
    } else {
      PassesPrefix(c, rows[..|rows| - 1], i);
      assert rows[..|rows| - 1][..i] == rows[..i];
    }
  }

  /** All rows of a write into an empty context. Unless one ends the write, every row is either counted as
      dropped or stands in the bucket of its shard, once and in the order of arrival. */
  method RouteRows(ctx: IngestionCtx, c: Checks, rows: seq<Line>) returns (dropped: nat, fatal: bool)
    requires ctx.Valid() && ctx.Buckets() == [] && Injective(c.rank)
    modifies ctx
    ensures ctx.Valid()
    ensures fatal <==> !AllPass(c, rows)
    ensures !fatal ==> Routed(c, rows, ctx.Buckets(), dropped) && OnlyAdmitted(c, rows, ctx.Buckets())
  {
    dropped, fatal := 0, false;
    var i := 0;
    while i < |rows| && !fatal
      invariant 0 <= i <= |rows| && ctx.Valid()
      invariant fatal <==> !AllPass(c, rows[..i])
      invariant !fatal ==> Routed(c, rows[..i], ctx.Buckets(), dropped)
    {
      TakeNext(rows, i);
      PassesNext(c, rows[..i], rows[i]);
      dropped, fatal := RouteRow(ctx, c, i, rows[i], rows[..i], dropped);
      i := i + 1;
    }
    if fatal {
      RouteEnds(c, rows, i);
    } else {
      assert rows[..i] == rows;
      RoutedAdmitted(c, rows, ctx.Buckets(), dropped);
    }
  }

  lemma {:induction false} RouteEnds(c: Checks, rows: seq<Line>, i: nat)
    requires i <= |rows| && !AllPass(c, rows[..i])
    ensures !AllPass(c, rows)
  {
    if AllPass(c, rows) {
      PassesPrefix(c, rows, i);
    }
  }
}
