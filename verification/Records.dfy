/** Time-series records as the query engine hands them from cursor to cursor. */
module Records {

  datatype Option<+T> = None | Some(value: T)

  /** One row of a record: its time and one optional value for each column. */
  datatype Row = Row(time: int, cells: seq<Option<int>>)

  /** The rows of a record in storage order. */
  type Record = seq<Row>

  function Cell(row: Row, col: nat): Option<int> {
    if col < |row.cells| then row.cells[col] else None
  }

  /** The auxiliary columns of a row, in the order the query lists them. */
  function Project(row: Row, ordinals: seq<nat>): seq<Option<int>> {
    seq(|ordinals|, i requires 0 <= i < |ordinals| => Cell(row, ordinals[i]))
  }

  lemma {:induction false} TakeNext<T>(s: seq<T>, i: nat)
    requires i < |s|
    ensures s[..i + 1] == s[..i] + [s[i]]
  {
  }

  lemma {:induction false} Associate<T>(a: seq<T>, b: seq<T>, c: seq<T>)
    ensures a + (b + c) == (a + b) + c
  {
  }

  lemma {:induction false} SameAfter<T>(head: seq<T>, a: seq<T>, b: seq<T>)
    ensures head + a == head + b <==> a == b
  {
    if head + a == head + b {
      assert a == (head + a)[|head|..] == (head + b)[|head|..] == b;
    }
  }

  function Flatten<T>(parts: seq<seq<T>>): seq<T> {
    if parts == [] then [] else parts[0] + Flatten(parts[1..])
  }

  lemma {:induction false} FlattenOne<T>(part: seq<T>)
    ensures Flatten([part]) == part
  {
    assert [part][1..] == [];
  }

  lemma {:induction false} FlattenAppend<T>(a: seq<seq<T>>, b: seq<seq<T>>)
    ensures Flatten(a + b) == Flatten(a) + Flatten(b)
  {
    if a == [] {
      assert a + b == b;
    } else {
      assert (a + b)[1..] == a[1..] + b;
      FlattenAppend(a[1..], b);
    }
  }

  lemma {:induction false} FlattenSnoc<T>(parts: seq<seq<T>>, part: seq<T>)
    ensures Flatten(parts + [part]) == Flatten(parts) + part
  {
    FlattenAppend(parts, [part]);
    FlattenOne(part);
  }
}
