/** Downsampling a whole series: every field is aggregated on its own, and all are written beside one time
    column. */
module DownsampleSeries {
  import opened Records
  import opened Reducers
  import opened AggregateCursors
  import opened Grid
  import opened FieldGrid
  import opened FieldExact
  import opened Chunking
  import opened Downsample
  import opened DownsampleWriter

  /** One field of the series: the calls on it, and its records in order. */
  datatype Field = Field(id: nat, reducers: seq<Reducer>, records: seq<Record>)

  /** The calls have not begun. */
  ghost predicate Ready(f: Field)
    reads f.reducers
  {
    && OneColumnEach(f.reducers) && ReducersFit(f.reducers, |f.reducers|)
    && AllCarry(f.reducers, 0, |f.reducers|, []) && Indexable(f.records)
  }

  method AggregateField(interval: nat, chunkSize: nat, shardStart: int, f: Field, min: int, max: int)
    returns (parts: seq<seq<AggRow>>)
    requires interval > 0 && chunkSize > 0 && Ready(f)
    modifies f.reducers
    ensures NonEmpty(parts)
    ensures InSeries(f.records, min, max) && shardStart <= min ==>
      FieldResult(interval, chunkSize, f.reducers, f.records, Flatten(parts), min, max, shardStart)
  {
    var aggregator := new FileSequenceAggregator(interval, chunkSize, shardStart, f.reducers);
    aggregator.AggregateSameSchema(f.records, min, max);
    parts := aggregator.parts;
  }

  /** The records of one field, one after the other. */
  method WriteField(writer: SeriesWriter, id: nat, parts: seq<seq<AggRow>>)
    requires writer.Valid()
    modifies writer
    ensures writer.Valid()
    ensures Changing(old(writer.runs), id) ==>
      writer.runs == old(writer.runs) + if parts == [] then [] else [FieldRows(id, Flatten(parts))]
  {
    ghost var runs := writer.runs;
    for i := 0 to |parts|
      invariant writer.Valid()
      invariant Changing(runs, id) ==>
          writer.runs == if i == 0 then runs else runs + [FieldRows(id, Flatten(parts[..i]))]
    {
      TakeNext(parts, i);
      FlattenSnoc(parts[..i], parts[i]);
      if i == 0 {
        assert Flatten(parts[..0]) + parts[0] == parts[0];
      } else if Changing(runs, id) {
        assert writer.runs[..|runs|] == runs;
      }
      writer.WriteRecord(FieldRows(id, parts[i]));
    }
    assert parts[..|parts|] == parts;
    assert runs + [] == runs;
  }

  ghost predicate Changing(runs: seq<FieldRows>, id: nat) {
    runs != [] ==> runs[|runs| - 1].field != id
  }

  // ----- all fields

  ghost predicate Apart(a: Field, b: Field) {
    && a.id != b.id
    && forall i, j :: 0 <= i < |a.reducers| && 0 <= j < |b.reducers| ==> a.reducers[i] != b.reducers[j]
  }

  ghost predicate AllApart(fields: seq<Field>) {
    forall i, j :: 0 <= i < j < |fields| ==> Apart(fields[i], fields[j])
  }

  /** What the writer is given: a run for each field of which something is sent. */
  ghost function RunsOf(fields: seq<Field>, sents: seq<seq<AggRow>>): (runs: seq<FieldRows>)
    requires |sents| <= |fields|
    ensures |runs| <= |sents|
  {
    if sents == [] then []
    else
      var n := |sents| - 1;
      RunsOf(fields, sents[..n]) + RunOf(fields[n], sents[n])
  }

  ghost function RunOf(f: Field, sent: seq<AggRow>): seq<FieldRows> {
    if sent == [] then [] else [FieldRows(f.id, sent)]
  }

  /** The writer has the runs of the fields so far. */
  ghost predicate HasRuns(runs: seq<FieldRows>, fields: seq<Field>, sents: seq<seq<AggRow>>) {
    |sents| <= |fields| && runs == RunsOf(fields, sents)
  }

  lemma {:induction false} RunsNext(
    runs: seq<FieldRows>, fields: seq<Field>, sents: seq<seq<AggRow>>, sent: seq<AggRow>
  )
    requires |sents| < |fields| && HasRuns(runs, fields, sents)
    ensures HasRuns(runs + RunOf(fields[|sents|], sent), fields, sents + [sent])
  {
    assert (sents + [sent])[..|sents|] == sents;
  }

  /** The last run is of one of the fields so far. */
  lemma {:induction false} RunIsOfField(fields: seq<Field>, sents: seq<seq<AggRow>>) returns (k: nat)
    requires |sents| <= |fields| && RunsOf(fields, sents) != []
    ensures var runs := RunsOf(fields, sents); k < |sents| && runs[|runs| - 1].field == fields[k].id
  {
    k := |sents| - 1;
    if sents[k] == [] {
      assert RunsOf(fields, sents[..k]) + [] == RunsOf(fields, sents[..k]);
      k := RunIsOfField(fields, sents[..k]);
    }
  }

  lemma {:induction false} NewField(runs: seq<FieldRows>, fields: seq<Field>, sents: seq<seq<AggRow>>)
    requires AllApart(fields) && |sents| < |fields| && HasRuns(runs, fields, sents)
    ensures Changing(runs, fields[|sents|].id)
  {
    if runs != [] {
      var k := RunIsOfField(fields, sents);
      assert Apart(fields[k], fields[|sents|]);
    }
  }

  /** If there is a run for each field, they are the fields in order. */
  lemma {:induction false} AllRuns(fields: seq<Field>, sents: seq<seq<AggRow>>, k: nat)
    requires |sents| <= |fields| && k < |sents| && |RunsOf(fields, sents)| == |sents|
    ensures sents[k] != [] && RunsOf(fields, sents)[k] == FieldRows(fields[k].id, sents[k])
  {
    var n := |sents| - 1;
    if k < n {
      AllRuns(fields, sents[..n], k);
    }
  }

  lemma {:induction false} RunForEach(fields: seq<Field>, sents: seq<seq<AggRow>>)
    requires |sents| <= |fields| && forall k :: 0 <= k < |sents| ==> sents[k] != []
    ensures |RunsOf(fields, sents)| == |sents|
  {
    if sents != [] {
      RunForEach(fields, sents[..|sents| - 1]);
    }
  }

  /** Every column has an entry for each window from `lo` to `hi`, right for the window, and the one time column
      that is written has its time in the same place. */
  ghost predicate SeriesOnGrid(
    interval: nat, fields: seq<Field>, columns: seq<Column>, times: seq<int>, lo: int, hi: int, shardStart: int
  )
    requires interval > 0
  {
    && |columns| == |fields| && |times| == hi - lo + 1
    && (forall i :: 0 <= i < |times| ==> times[i] == GridTime(interval, lo, shardStart, i))
    && forall k :: 0 <= k < |columns| ==> ColumnRight(interval, fields[k], columns[k], lo, hi)
  }

  /** An entry for each window, and in it a value or null for each call. */
  ghost predicate ColumnRight(interval: nat, f: Field, column: Column, lo: int, hi: int)
    requires interval > 0
  {
    && column.field == f.id && |column.values| == hi - lo + 1
    && forall i :: 0 <= i < |column.values| ==>
         && |column.values[i]| == |f.reducers|
         && EntryRight(interval, f.reducers, TrueWindows(interval, f.records), lo + i, column.values[i])
  }

  lemma {:induction false} ColumnIsValues(interval: nat, f: Field, sent: seq<AggRow>, lo: int, hi: int)
    requires interval > 0
    ensures ColumnRight(interval, f, Column(f.id, ValuesOfRows(sent)), lo, hi)
            <==> ValuesOnGrid(interval, f.reducers, TrueWindows(interval, f.records), lo, hi, sent)
  {
    var values, windows := ValuesOfRows(sent), TrueWindows(interval, f.records);
    if ValuesOnGrid(interval, f.reducers, windows, lo, hi, sent) {
      forall i | 0 <= i < |values|
        ensures |values[i]| == |f.reducers| && EntryRight(interval, f.reducers, windows, lo + i, values[i])
      {
        assert EntryRight(interval, f.reducers, windows, lo + i, sent[i].values);
        EntryWidth(interval, f.reducers, windows, lo + i, values[i]);
      }
    }
    if ColumnRight(interval, f, Column(f.id, values), lo, hi) {
      forall i | 0 <= i < |sent|
        ensures EntryRight(interval, f.reducers, windows, lo + i, sent[i].values)
      {
        assert values[i] == sent[i].values;
      }
    }
  }

  /** The series: its range, its shard and how it is downsampled. */
  datatype Series = Series(interval: nat, chunkSize: nat, shardStart: int, min: int, max: int)

  ghost predicate AllInSeries(s: Series, fields: seq<Field>) {
    && s.min <= s.max && s.shardStart <= s.min
    && forall k :: 0 <= k < |fields| ==> InSeries(fields[k].records, s.min, s.max)
  }

  /** A caller can tell from the records that the series will be right. */
  ghost predicate AllSound(s: Series, fields: seq<Field>)
    requires s.interval > 0
  {
    fields != [] && forall k :: 0 <= k < |fields| ==> FieldSound(s, fields[k])
  }

  ghost predicate FieldSound(s: Series, f: Field)
    requires s.interval > 0
  {
    Sound(s.interval, s.chunkSize, f.records, s.min, s.max, s.shardStart)
  }

  ghost predicate AllTelling(s: Series, fields: seq<Field>) {
    forall k :: 0 <= k < |fields| ==> Telling(s.interval, fields[k].reducers, fields[k].records)
  }

  ghost predicate Served(s: Series, f: Field, sent: seq<AggRow>)
    requires s.interval > 0
  {
    FieldResult(s.interval, s.chunkSize, f.reducers, f.records, sent, s.min, s.max, s.shardStart)
  }

  ghost predicate AllServed(s: Series, fields: seq<Field>, sents: seq<seq<AggRow>>)
    requires s.interval > 0
  {
    |sents| <= |fields| && forall k :: 0 <= k < |sents| ==> Served(s, fields[k], sents[k])
  }

  lemma {:induction false} ServesNext(s: Series, fields: seq<Field>, sents: seq<seq<AggRow>>, sent: seq<AggRow>)
    requires s.interval > 0 && AllServed(s, fields, sents) && |sents| < |fields|
    requires Served(s, fields[|sents|], sent)
    ensures AllServed(s, fields, sents + [sent])
  {
  }

  ghost function Lo(s: Series): int
    requires s.interval > 0
  {
    WindowNumber(s.interval, s.min)
  }

  ghost function Hi(s: Series): int
    requires s.interval > 0
  {
    WindowNumber(s.interval, s.max)
  }

  /** What is written of a series. */
  ghost predicate Written(
    fields: seq<Field>, sents: seq<seq<AggRow>>, columns: seq<Column>, times: seq<int>
  )
    requires |sents| <= |fields|
  {
    var runs := RunsOf(fields, sents);
    columns == ColumnsOf(runs) && times == if runs == [] then [] else TimesOfRows(runs[0].rows)
  }

  /** A field that is sound is sent whole. */
  lemma {:induction false} SoundField(s: Series, f: Field, sent: seq<AggRow>)
    requires s.interval > 0 && s.min <= s.max && Served(s, f, sent) && FieldSound(s, f)
    ensures FieldOnGrid(s.interval, f.reducers, TrueWindows(s.interval, f.records), Lo(s), Hi(s), s.shardStart, sent)
    ensures sent != [] && ColumnRight(s.interval, f, Column(f.id, ValuesOfRows(sent)), Lo(s), Hi(s))
  {
    WindowNumberMonotone(s.interval, s.min, s.max);
    ColumnIsValues(s.interval, f, sent, Lo(s), Hi(s));
  }

  lemma {:induction false} SoundSeries(
    s: Series, fields: seq<Field>, sents: seq<seq<AggRow>>, columns: seq<Column>, times: seq<int>
  )
    requires s.interval > 0 && s.min <= s.max && |sents| == |fields| && AllServed(s, fields, sents)
    requires Written(fields, sents, columns, times) && AllSound(s, fields)
    ensures SeriesOnGrid(s.interval, fields, columns, times, Lo(s), Hi(s), s.shardStart)
  {
    forall k | 0 <= k < |sents|
      ensures sents[k] != []
      ensures ColumnRight(s.interval, fields[k], Column(fields[k].id, ValuesOfRows(sents[k])), Lo(s), Hi(s))
    {
      SoundField(s, fields[k], sents[k]);
    }
    RunForEach(fields, sents);
    forall k | 0 <= k < |sents|
      ensures columns[k] == Column(fields[k].id, ValuesOfRows(sents[k]))
    {
      AllRuns(fields, sents, k);
    }
    AllRuns(fields, sents, 0);
    SoundField(s, fields[0], sents[0]);
  }

  lemma {:induction false} SeriesTells(
    s: Series, fields: seq<Field>, sents: seq<seq<AggRow>>, columns: seq<Column>, times: seq<int>
  )
    requires s.interval > 0 && s.min <= s.max && |sents| == |fields| && AllServed(s, fields, sents)
    requires Written(fields, sents, columns, times) && AllTelling(s, fields)
    requires SeriesOnGrid(s.interval, fields, columns, times, Lo(s), Hi(s), s.shardStart)
    ensures AllSound(s, fields)
  {
    WindowNumberMonotone(s.interval, s.min, s.max);
    assert times != [];
    assert |columns| == |RunsOf(fields, sents)|;
    forall k | 0 <= k < |fields|
      ensures FieldSound(s, fields[k])
    {
      AllRuns(fields, sents, k);
      assert ColumnRight(s.interval, fields[k], columns[k], Lo(s), Hi(s));
      ColumnIsValues(s.interval, fields[k], sents[k], Lo(s), Hi(s));
      assert Served(s, fields[k], sents[k]);
    }
  }

  /** Every entry of every column is right for its window and at its time, if the records of all fields are sound; and
      only if, when wrong peeks show. */
  ghost predicate SeriesResult(s: Series, fields: seq<Field>, columns: seq<Column>, times: seq<int>)
    requires s.interval > 0
  {
    && (AllSound(s, fields) ==> SeriesOnGrid(s.interval, fields, columns, times, Lo(s), Hi(s), s.shardStart))
    && (AllTelling(s, fields) ==>
          (SeriesOnGrid(s.interval, fields, columns, times, Lo(s), Hi(s), s.shardStart) <==> AllSound(s, fields)))
  }

  lemma {:induction false} SeriesExact(
    s: Series, fields: seq<Field>, sents: seq<seq<AggRow>>, columns: seq<Column>, times: seq<int>
  )
    requires s.interval > 0 && s.min <= s.max && |sents| == |fields| && AllServed(s, fields, sents)
    requires Written(fields, sents, columns, times)
    ensures SeriesResult(s, fields, columns, times)
  {
    if AllSound(s, fields) {
      SoundSeries(s, fields, sents, columns, times);
    } else if AllTelling(s, fields) && SeriesOnGrid(s.interval, fields, columns, times, Lo(s), Hi(s), s.shardStart) {
      SeriesTells(s, fields, sents, columns, times);
    }
  }

  // ----- the fields in turn

  ghost function AllReducers(fields: seq<Field>): set<Reducer> {
    set k, r | 0 <= k < |fields| && r in fields[k].reducers :: r
  }

  lemma {:induction false} ReducersOf(fields: seq<Field>, i: nat)
    requires i < |fields|
    ensures forall r :: r in fields[i].reducers ==> r in AllReducers(fields)
  {
  }

  /** A field whose calls are left alone stays as it was. */
  twostate lemma {:induction false} StaysReady(f: Field)
    requires old(Ready(f)) && unchanged(f.reducers)
    ensures Ready(f)
  {
  }

  /** One field is aggregated and written. */
  method AddField(writer: SeriesWriter, s: Series, fields: seq<Field>, i: nat) returns (ghost sent: seq<AggRow>)
    requires s.interval > 0 && s.chunkSize > 0 && AllApart(fields) && i < |fields| && writer.Valid()
    requires forall k :: i <= k < |fields| ==> Ready(fields[k])
    modifies writer, fields[i].reducers
    ensures writer.Valid() && forall k :: i < k < |fields| ==> Ready(fields[k])
    ensures AllInSeries(s, fields) ==> Served(s, fields[i], sent)
    ensures Changing(old(writer.runs), fields[i].id) ==>
      writer.runs == old(writer.runs) + RunOf(fields[i], sent)
  {
    var parts := AggregateField(s.interval, s.chunkSize, s.shardStart, fields[i], s.min, s.max);
    forall k | i < k < |fields|
      ensures Ready(fields[k])
    {
      assert Apart(fields[i], fields[k]);
      StaysReady(fields[k]);
    }
    sent := Flatten(parts);
    assert parts != [] ==> sent != [];
    WriteField(writer, fields[i].id, parts);
  }

  /** All fields, one after the other. */
  method AddFields(writer: SeriesWriter, s: Series, fields: seq<Field>) returns (ghost sents: seq<seq<AggRow>>)
    requires s.interval > 0 && s.chunkSize > 0 && AllApart(fields) && writer.Valid() && writer.runs == []
    requires forall k :: 0 <= k < |fields| ==> Ready(fields[k])
    modifies writer, AllReducers(fields)
    ensures writer.Valid() && |sents| == |fields| && HasRuns(writer.runs, fields, sents)
    ensures AllInSeries(s, fields) ==> AllServed(s, fields, sents)
  {
    sents := [];
    ghost var inSeries := AllInSeries(s, fields);
    for i := 0 to |fields|
      invariant writer.Valid() && |sents| == i && forall k :: i <= k < |fields| ==> Ready(fields[k])
      invariant HasRuns(writer.runs, fields, sents) && (inSeries ==> AllServed(s, fields, sents))
    {
      ReducersOf(fields, i);
      NewField(writer.runs, fields, sents);
      ghost var runs := writer.runs;
      ghost var sent := AddField(writer, s, fields, i);
      RunsNext(runs, fields, sents, sent);
      if inSeries {
        ServesNext(s, fields, sents, sent);
      }
      sents := sents + [sent];
    }
  }

  /** One series: all its fields are aggregated and written. For values in order and in the range of the series, entry
      i of every column is right for window lo + i, at entry i of the one time column, if every field has values,
      every peek is right and no row is missing; and only if, when each field has right peeks or a call that counts.
      All of this is told from the records. */
  method WriteDownsampled(s: Series, fields: seq<Field>) returns (columns: seq<Column>, times: seq<int>)
    requires s.interval > 0 && s.chunkSize > 0 && AllApart(fields)
    requires forall k :: 0 <= k < |fields| ==> Ready(fields[k])
    modifies AllReducers(fields)
    ensures AllInSeries(s, fields) ==> SeriesResult(s, fields, columns, times)
  {
    var writer := new SeriesWriter();
    ghost var sents := AddFields(writer, s, fields);
    columns, times := [], [];
    if writer.started {
      columns, times := writer.EndFile();
    }
    if AllInSeries(s, fields) {
      SeriesExact(s, fields, sents, columns, times);
    }
  }
}
