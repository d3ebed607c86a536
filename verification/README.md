# Verified core of openGemini

openGemini is a distributed time-series database. This project models the parts of it where correctness depends on
state that is carried from one step to the next, and proves what those parts promise, for every input, every way the
input is cut into records, and every schedule.

* **Window aggregation** (`Records`, `Windows`, `Aggregates`, `Grouping`, `Reducer`, `AggregateCursor`). A series
  arrives in records. Each call of a query carries a partial result over a record boundary when the window goes on,
  and the cursor finds that out by peeking at the next record. The main result, `AggregateCursors.AggregateCursor.Drain`,
  says that however the series was cut, and whatever the size of the output records, every call's column holds one
  right answer after the other, all columns and the time column stay aligned, and the windows are the true ones if
  and only if no peek was misjudged.
* **Top, bottom and distinct** (`Sorting`, `TopN`, `Distinct`). A bounded heap keeps the N best points of a window
  over record boundaries; a map keeps the first appearance of each value. `TopN.DrainTop` and `TopN.DrainBottom` say in
  plain words which points of every window are reported, and in which order.
* **Downsampling** (`Kicking`, `Chunking`, `Grid`, `FieldGrid`, `FieldExact`, `Downsample`, `DownsampleWriter`,
  `DownsampleSeries`). Rows without a value are kicked out of a record; what is left is reduced, sent in chunks, padded
  with null rows to a grid of windows, and written as one column per field with the time column of the first field
  only. `DownsampleSeries.WriteDownsampled` says of a whole series that entry i of every column is right for window
  lo + i, at entry i of the one time column, if every field has values, every peek is right and no row is missing, all
  of which is told from the records; and only if, when the peeks are right or a call counts.
* **Prometheus sampling** (`PromSteps`, `PromIndex`, `PromSampler`, `PromRun`, `PromComplete`, `PromCursor`). Step
  arithmetic, the two-pointer index of the rows that belong to each step, and a sampler that pads gaps with the last
  sample inside the look-back. For every look-back, and for rows wherever they lie, `PromCursor.SampleRun` states
  the exact condition for every step shown to be right, and the exact condition for nothing to be missing.
* **Offloading a partition** (`Offload`, `OffloadSafety`, `OffloadMoves`, `OffloadRuns`). References, the migration lock, shard moves
  and shard deletes as one state machine over the steps of any number of threads. The counter of shard moves is read
  and written back in separate steps, as the code does it; `OffloadMoves` follows its drift through every schedule.
  `OffloadRuns` says what each whole operation achieves when it runs from its first step to its last.
* **Conservation and codec** (`Paging`, `ShardSplit`, `Codec`, `FieldFix`, `Ingest`, `Distribution`). Paging over
  nested fragment ranges, cutting a record at shard-group ends, the downsample log, cleaning the fields of a row,
  routing rows to shard buckets, and dealing shards to queries.

Objects whose methods update their fields are classes, loops are loops with invariants, and each is proved against a
specification on values; what is promised is then proved of the specification. Integers are unbounded except where
the width matters: window indexes and codec counts are cut to 16 bits. Every lemma carries `{:induction false}`, so
that every induction is the one written down.

Where the code does not keep what its design promises, the code is modelled as it is, a concrete input shows the
failure, and the exact condition is proved:

* A peek at an *empty* record answers "the window goes on". The window is then merged with the next one or never
  reported. Each such peek costs exactly one output row (`Grouping.GroupsCount`), and the result is right if and only
  if there is none (`Grouping.GroupsAreRuns`, with `Grouping.EmptyRecordMergesWindows` as an example).
* With a chunk size of 1 and a shard that begins inside the first window, the clamped time of the first chunk makes the
  next chunk lose a window (`Grid.GridExact`, `Grid.OneRowChunkLoses`; told from the records,
  `Chunking.ClampMissing`).
* Downsampling kicks rows without a value out of a record, but peeks at the next record as it came. A null at its head
  can merge two windows, a null at the end of the series can leave the last window unreported, and an empty record can
  cut a window in two. The windows are right if and only if every peek is (`Kicking.ReportedExact`, with
  `Kicking.NullHeadMergesWindows`, `Kicking.NullTailLosesWindow` and `Kicking.EmptyRecordSplitsWindow`).
* The padding after the last row is sent only if something is left to be sent at the end. A field whose last records
  have no value can end short, and its column no longer fits the time column. How many rows are missing is a function
  of the records (`Chunking.MissingRows`), and a field is on the grid if and only if it is 0 (`FieldExact.FieldIsExact`,
  with `Chunking.NullTailMissing` as an example).
* A wrong peek need not show: two of them can leave every maximum as it ought to be (`FieldExact.WrongPeeksMayAgree`).
  It always shows in a count (`FieldExact.CountsTellPeeks`).
* A record inside one step is taken as a whole. With a look-back shorter than the step, or with rows after the last
  step, a sample is shown that is too old or that was written after the step; the run is right if and only if no record
  does that (`PromComplete.OutputSound`, `PromCursor.ShortLookBackShowsOldRow`, `PromCursor.RowAfterTheEndIsShown`).
* With a look-back shorter than the step, the two-pointer index has no pair for the last step (`PromIndex.IndexExact`,
  `PromIndex.IndexReaches`, `PromIndex.ShortLookBackFails`), and the pair that is left to the next record is then that
  of the step before, which is never shown (`PromCursor.ShortIndexLosesStep`).
* A stale mark after the last step hides what the last step ought to show (`PromComplete.MissingIff`,
  `PromCursor.LateStaleMarkHidesStep`).
* A record inside one step that the next record shares skips the padding before it (`PromComplete.MissingIff`,
  `PromCursor.SharedStepLosesPadding`).
* The counter of shard moves is decreased without the lock. In every schedule it is off by exactly what the write-backs
  have undone (`OffloadMoves.RunDrifts`), and it is exact throughout if and only if every write-back finds what was
  read (`OffloadMoves.ExactIffCurrent`). A lost increment lets an offload begin beside a shard move
  (`OffloadMoves.LostStartBreaksExclusion`); a lost decrement refuses an offload when nothing is moved
  (`OffloadMoves.LostEndRefusesOffload`).
* An Arrow record is sorted only after its shard groups are planned from its first and last row
  (`ShardSplit.WriteRecord`, `ShardSplit.UnsortedPlanFails`). Rows outside the planned groups are then left out or
  misplaced and the caller need not get an error; and a write returns an error although all rows were written when a
  planned group has no row (`ShardSplit.WriteLogRecord`, `ShardSplit.EmptyGroupWarns`).
* The codec cuts counts and lengths to 16 bits without a check (`Codec.RoundTripIff`, `Codec.ManyNamesFail`).

## Model

| member | source | states |
|---|---|---|
| `Windows.InWindow` | engine/aggregate_cursor.go:330-337 | the half-open test on window bounds holds exactly when both times have the same aligned window start |
| `Windows.RunsPartition` | engine/aggregate_cursor.go:340-353 | runs flatten to the rows, each run lies in one window, neighbouring runs in different ones |
| `Windows.RunsAscend` | engine/aggregate_cursor.go:340-353 | in an ascending series every occupied window is exactly one run, in order |
| `Windows.RunsConcat` | engine/aggregate_cursor.go:311-353 | the runs of a concatenation are those of the halves, joined exactly when the seam lies inside a window |
| `Windows.StartsCutRuns` | engine/aggregate_cursor.go:340-353 | slicing a record at the row numbers of the index gives its runs |
| `Windows.GetIntervalIndex` | engine/aggregate_cursor.go:340-353 | the loop computes the window starts of the record, each cut to 16 bits; one start without grouping |
| `Windows.WrapIsHarmless` | engine/aggregate_cursor.go:340-353 | the 16-bit index is the real one if and only if the last window begins below row 65536 |
| `Aggregates.MergeSummarises` | engine/series_agg_func.gen.go:44-248 | merging the results of two parts of a window gives the result of the whole, for count, sum, min, max, first and last |
| `Aggregates.NullsBefore` | engine/series_agg_reducer.gen.go:504-574 | leading rows without a value do not change the result |
| `Aggregates.NullsAfter` | engine/series_agg_reducer.gen.go:504-574 | trailing rows without a value do not change the result |
| `Aggregates.TotalsConcat` | engine/series_agg_func.gen.go:44-82 | count and sum add up over the parts of a window |
| `Aggregates.TotalsOfOne` | engine/series_agg_func.gen.go:29-82 | one row with a value counts 1 and adds its value, one without neither; with the parts adding up this determines every count and sum |
| `Aggregates.SelectedBetterRight` | engine/series_agg_func.gen.go:108-162 | when the merge takes the later point, that row is the one the selector must return for the whole |
| `Aggregates.SelectedBetterLeft` | engine/series_agg_func.gen.go:108-162 | when the merge keeps the carried point, that row is the one the selector must return for the whole, so ties go to the earlier row |
| `Aggregates.SelectedIsUnique` | engine/series_agg_func.gen.go:100-248 | a selector has only one right row |
| `Grouping.Peek` | engine/aggregate_cursor.go:311-338 | the peek says the window goes on for an empty next record, without grouping, or when the next row lies in the same window |
| `Grouping.PeekVerdict` | engine/aggregate_cursor.go:311-338 | the verdict is the truth about all later rows, or else it is misjudged |
| `Grouping.IndexIsRight` | engine/aggregate_cursor.go:340-353 | for records of at most 65536 rows the computed index cuts the record into its windows |
| `Grouping.GroupsCount` | engine/aggregate_cursor.go:264-338 | finished windows plus misjudged peeks are the true windows of the series |
| `Grouping.GroupsAreRuns` | engine/aggregate_cursor.go:264-338 | the cursor's windows are the true ones if and only if no peek was misjudged |
| `Grouping.EmptyRecordMergesWindows` | engine/aggregate_cursor.go:320-323 | two windows that an empty record between them makes one |
| `Reducers.ReduceCount` | engine/series_agg_func.gen.go:29-32 | counts the values of the part; nil exactly when there is none |
| `Reducers.ReduceSum` | engine/series_agg_func.gen.go:66-78 | sums the values of the part; the reported index is the number of values before it, the row number only in a dense column |
| `Reducers.ReduceExtreme` | lib/record/column_util.go:191-279 | the earliest row that holds the extreme value of the part |
| `Reducers.ReduceFirst` | lib/record/column_util.go:24-56 | the first row of the part with a value |
| `Reducers.ReduceLast` | lib/record/column_util.go:58-86 | the last row of the part with a value |
| `Reducers.ReduceSelected` | engine/series_agg_func.gen.go:100-248 | the row a selector returns sums up the part |
| `Reducers.Reduce` | engine/series_agg_func.gen.go:29-248 | value, time and auxiliary columns of the reported row summarise the part |
| `Reducers.MergeKeepsPoint` | engine/series_agg_reducer.gen.go:504-574 | the index left by a merge tells which of the two auxiliary rows belongs to the kept point |
| `Reducers.MergeAnswers` | engine/series_agg_reducer.gen.go:504-574 | the merged buffer with the auxiliary row it points at answers the longer window |
| `Reducers.Reducer.Emit` | engine/series_agg_reducer.gen.go:1277-1304 | appends exactly one row: value, time with a single call, and the auxiliary columns |
| `Reducers.Reducer.MergeCarried` | engine/series_agg_reducer.gen.go:1175-1275 | a carried result and a part with values become one right answer, kept or emitted |
| `Reducers.Reducer.StartFresh` | engine/series_agg_reducer.gen.go:1175-1275 | without a carried value the part, after any carried null rows, is answered |
| `Reducers.Reducer.PassNulls` | engine/series_agg_reducer.gen.go:1175-1275 | a part without values leaves the carried answer right, or gives a null row |
| `Reducers.Reducer.AggregateWindow` | engine/series_agg_reducer.gen.go:482-576 | one part of a record: the open window stays carried, a closed one is answered by exactly one row |
| `Reducers.Reducer.Aggregate` | engine/series_agg_reducer.gen.go:482-576 | one record: a right row for every window closed, with the auxiliary columns of the very row selected; the open window is carried, its buffer at index 0 and its auxiliary row in step |
| `AggregateCursors.WorkOnRecord` | engine/coprocessor.go:97-101 | every call appends its rows for the same windows, and all carry the same open window |
| `AggregateCursors.DeriveIntervalIndex` | engine/aggregate_cursor.go:355-372 | with several calls the time column grows by the time of the row at which each finished part begins, one for each finished part |
| `AggregateCursors.FirstTimesInside` | engine/aggregate_cursor.go:355-372 | each of those times lies in the window it is written for, also when the window began in an earlier record |
| `AggregateCursors.ReduceRecord` | engine/aggregate_cursor.go:303-309 | one record through index, calls and time column: all columns grow by the closed windows |
| `AggregateCursors.ReduceMore` | engine/aggregate_cursor.go:303-309 | the same behind the windows reported before: all columns answer both |
| `AggregateCursors.AggregateCursor.PeekRecord` | engine/aggregate_cursor.go:241-262 | peeking leaves the records to come as they are |
| `AggregateCursors.AggregateCursor.InNextWindow` | engine/aggregate_cursor.go:311-338 | sets the verdict of the peek and keeps the records to come |
| `AggregateCursors.AggregateCursor.Consume` | engine/aggregate_cursor.go:296-309 | what was reported and what is still to come stay the windows of the stream |
| `AggregateCursors.AggregateCursor.Turn` | engine/aggregate_cursor.go:264-301 | one turn of the loop: input used up, record full and put back, empty record passed over, or one more record reduced, which adds at most a row for each of its rows; reported and to come stay the windows of the stream |
| `AggregateCursors.AggregateCursor.Next` | engine/aggregate_cursor.go:264-301 | hands out a prefix of the windows to come, each row right, at least one, all columns of equal length; the record size is reached unless the input is used up, and not exceeded by more than the rows of one input record; null exactly when the input is used up and nothing is left |
| `AggregateCursors.AggregateCursor.Drain` | engine/aggregate_cursor.go:264-353 | window by window, for every split and record size, each call's column holds its value, a single call also the time and the auxiliary columns that go with it, several calls a time inside the window; rows plus misjudged peeks are the true windows; the windows are the true ones if and only if no peek was misjudged |
| `AggregateCursors.ExtendsAnswers` | engine/aggregate_cursor.go:264-301 | columns that have grown by right rows are right entry by entry |
| `AggregateCursors.AppendExtends` | engine/aggregate_cursor.go:264-301 | output records append to columns that answer the windows of both |
| `Sorting.SortSorted` | engine/series_agg_reducer.gen.go:2309-2315 | the library sort leaves the elements in the order of the comparison |
| `Sorting.SortedUnique` | engine/series_agg_reducer.gen.go:2309-2315 | only one arrangement of given elements is sorted |
| `TopN.ComparisonsAreOrders` | engine/series_agg_func.gen.go:289-326 | the four comparisons of top and bottom are strict total orders on points |
| `TopN.PointsMeaning` | engine/series_agg_reducer.gen.go:2179-2225 | a part of a series has one point for each row with a value, with its time and value, in order |
| `TopN.RootIsWorst` | engine/series_agg_reducer.gen.go:2179-2225 | in a heap no kept point is worse than the root |
| `TopN.BestReplace` | engine/series_agg_reducer.gen.go:2179-2217 | replacing the worst kept point by a better new one keeps the N best of all seen |
| `TopN.BestSkip` | engine/series_agg_reducer.gen.go:2179-2217 | a point not better than the worst kept one is rightly passed over |
| `TopN.BestUnique` | engine/series_agg_reducer.gen.go:2179-2225 | the N best of a multiset of points are determined |
| `TopN.HeapItem.Push` | engine/series_agg_reducer.gen.go:2318-2320 | pushing below capacity keeps heap and N best |
| `TopN.HeapItem.ReplaceRoot` | engine/series_agg_reducer.gen.go:2179-2217 | fixing the heap at the root keeps heap, capacity and N best |
| `TopN.HeapItem.Up` | engine/series_agg_reducer.gen.go:2309-2320 | sifting up restores the heap and permutes the points |
| `TopN.HeapItem.Down` | engine/series_agg_reducer.gen.go:2309-2320 | sifting down restores the heap and permutes the points |
| `TopN.HeapItem.Append` | engine/series_agg_reducer.gen.go:2179-2225 | all values of a part of a record are offered, nulls passed over; the heap holds the N best of all seen |
| `TopN.HeapItem.Flush` | engine/series_agg_reducer.gen.go:2609-2650 | hands out the N best sorted by time and starts afresh |
| `TopN.TopNUnique` | engine/series_agg_reducer.gen.go:2782-2841 | a window has only one right report, so it cannot depend on the split |
| `TopN.TopMeaning` | engine/series_agg_func.gen.go:315-326 | a report by the comparisons of top is one in which no point left out has a greater value than one kept, nor an equal value and an earlier time, in the order of time and at equal times with the greater value first; and conversely |
| `TopN.BottomMeaning` | engine/series_agg_func.gen.go:289-300 | the same of bottom, with smaller values |
| `TopN.HeapReducer.AggregateWindow` | engine/series_agg_reducer.gen.go:2724-2817 | an open window stays in the heap, a closed one is reported |
| `TopN.HeapReducer.Aggregate` | engine/series_agg_reducer.gen.go:2819-2841 | one record: every closed window is reported with its N best points by time |
| `TopN.Drain` | engine/series_agg_reducer.gen.go:2782-2841 | over a whole series each window reports exactly its N best points, sorted by time, for every split |
| `TopN.DrainTop` | engine/series_call_processor.go:341-346 | top over a whole series: each window reports its greatest values, of equal ones the earliest, in the order of time, for every split |
| `TopN.DrainBottom` | engine/series_call_processor.go:377-382 | bottom over a whole series: the smallest values |
| `Distinct.FirstsMeaning` | engine/series_agg_reducer.gen.go:1645-1653 | the map holds each value once, at its first appearance, and misses none |
| `Distinct.ReportMeaning` | engine/series_agg_reducer.gen.go:1836-1871 | a window's report holds each distinct value exactly once; times never fall, and at equal times values rise |
| `Distinct.FirstIsEarliest` | engine/series_agg_reducer.gen.go:1645-1653 | in an ascending window the time reported is the earliest of the value |
| `Distinct.DistinctItem.AppendItem` | engine/series_agg_reducer.gen.go:1645-1653 | the item keeps the first appearances of everything seen |
| `Distinct.DistinctItem.Flush` | engine/series_agg_reducer.gen.go:1655-1676 | hands out the sorted first appearances and forgets them |
| `Distinct.DistinctReducer.Aggregate` | engine/series_agg_reducer.gen.go:1836-1871 | one record: every closed window is reported, the open one carried |
| `Distinct.DrainDistinct` | engine/series_agg_reducer.gen.go:1828-1871 | over a whole series each window is reported once and no value leaks into the next, for every split |
| `Grid.AppendNilRows` | engine/record_plan.go:1234-1260 | the null rows strictly between two times, one interval apart, each with a null in every column |
| `Grid.AppendRecWithNilRows` | engine/record_plan.go:1234-1260 | the padded chunk: rows at their window starts, gaps filled, the tail padded after the last chunk, the first time not before the shard |
| `Grid.FillCovers` | engine/record_plan.go:1234-1260 | rows and gaps together are one row for each window, reduced rows in their places and nulls elsewhere |
| `Grid.PaddedIsGrid` | engine/record_plan.go:1234-1260 | padding all rows at once gives the whole grid of the series |
| `Grid.ChunksDoNotMatter` | engine/record_plan.go:1027-1037 | sending in chunks is padding all at once, unless a window is lost |
| `Grid.LossShows` | engine/record_plan.go:1027-1037 | in the losing case the second row sent is not that of the second window |
| `Grid.LossLength` | engine/record_plan.go:1027-1037 | in the losing case exactly one row is missing |
| `Grid.GridExact` | engine/record_plan.go:1027-1082 | what is sent is the whole grid if and only if no window is lost to a clamped one-row first chunk |
| `Grid.SentNext` | engine/record_plan.go:1027-1037 | one more chunk is padded from the time of the last row sent |
| `Grid.OpenLacksTail` | engine/record_plan.go:1047-1054 | without a last chunk only the padding after the last row is missing |
| `Grid.OneRowChunkLoses` | engine/record_plan.go:1027-1037 | two chunks of one row whose second window is never sent |
| `Kicking.KickNilRow` | lib/record/record.go:1181-1232 | the rows that have a value, in order; a record of such rows only is handed back |
| `Kicking.KeptMeaning` | lib/record/record.go:1181-1232 | nothing but rows with values is kept, and of these all |
| `Kicking.ReportedExact` | engine/record_plan.go:1071-1079 | the windows reported are those of the rows with values if and only if every peek at the next record, taken as it came, is right |
| `Kicking.HeadsWithValues` | engine/record_plan.go:1106-1139 | records that begin with a value are peeked at rightly |
| `Kicking.NullHeadMergesWindows` | engine/record_plan.go:1071-1079 | a null at the head of the next record makes two windows one |
| `Kicking.NullTailLosesWindow` | engine/record_plan.go:1071-1079 | a last record of a null leaves the window before it unreported |
| `Kicking.EmptyRecordSplitsWindow` | engine/record_plan.go:1106-1114 | an empty record makes one window two |
| `Downsample.InNextWindow` | engine/record_plan.go:1106-1139 | the aggregator's own peek, where an empty record ends the window and a null row counts like any other |
| `Downsample.ReduceNext` | engine/record_plan.go:1071-1079 | one record, its null rows kicked, into the record under construction: reported, under construction and to come stay the windows of the series |
| `Downsample.FileSequenceAggregator.SendRecord` | engine/record_plan.go:1027-1037 | a chunk is padded, sent, and the next one begins at its last time |
| `Downsample.FileSequenceAggregator.Flush` | engine/record_plan.go:1054-1071 | the rows sent so far are right for the windows finished so far |
| `Downsample.FileSequenceAggregator.AggregateSameSchema` | engine/record_plan.go:1039-1081 | one field of one series, empty records and null rows included: rows right for the windows reported, sent in the chunks that the records ask for; on the grid if it has values, every peek is right and no row is missing, told from the records, and only if when the peeks are right or a call counts |
| `Kicking.ReportedDense` | engine/record_plan.go:1071-1079 | only rows with values are reported |
| `Chunking.ChunksTile` | engine/record_plan.go:1066-1071 | the chunks that the records ask for have one row for each window reported |
| `Chunking.ChunksFull` | engine/record_plan.go:1066-1071 | and all but the last have at least the chunk size |
| `Chunking.CutsPrompt` | engine/record_plan.go:1066-1071 | a chunk is cut as soon as it is full: it is less than the chunk size and what one record added |
| `Chunking.NothingMissing` | engine/record_plan.go:1047-1071 | no row is missing when the last record has a value, and the chunk size is at least 2 or the shard begins with a window |
| `Chunking.NullTailMissing` | engine/record_plan.go:1047-1079 | a value at 1 and a null at 11 in chunks of one row: the second of two rows is never sent |
| `Chunking.ClampMissing` | engine/record_plan.go:1027-1037 | values at 7 and 25 in a shard that begins at 5, in chunks of one row: one of three rows is never sent |
| `FieldGrid.ReducedFits` | engine/record_plan.go:1012-1018 | the reduced rows of an ascending series fit the grid of its time range |
| `FieldGrid.GridTimeMeaning` | engine/record_plan.go:1234-1260 | row k of the grid stands at the first time of its window that is not before the shard |
| `FieldGrid.EntryWidth` | engine/record_plan.go:1262-1277 | a right entry has one value or null for each call, in a window without rows too |
| `FieldGrid.FieldGridExact` | engine/record_plan.go:1012-1082 | for given chunks: the rows sent, with those lost to a clamped one-row chunk and those of the padding that was not sent, are as many as the windows; the field is on the grid, right value in every occupied window and nulls elsewhere, if and only if none is missing |
| `FieldExact.MissingIs` | engine/record_plan.go:1027-1071 | the rows missing by the chunks are the rows missing by the records |
| `FieldExact.DeliveredKeeps` | engine/record_plan.go:1234-1260 | padding and clamping add nothing but nulls: the values sent are those of the reduced rows |
| `FieldExact.CountsTellPeeks` | engine/record_plan.go:1106-1139 | a field that is counted cannot have the values of the grid after a wrong peek |
| `FieldExact.WrongPeeksMayAgree` | engine/record_plan.go:1106-1139 | two wrong peeks after which the maxima are right all the same |
| `FieldExact.FieldIsExact` | engine/record_plan.go:1012-1082 | nothing is sent of a field without values; with right peeks all but the missing rows; the grid if the records are sound, and not even its values if they are not, unless wrong peeks do not show |
| `FieldExact.PlainFieldIsSound` | engine/record_plan.go:1012-1082 | a field whose records all begin with a value is sound, if the chunk size is at least 2 or the shard begins with a window |
| `FieldGrid.FieldsShareTimes` | engine/record_plan.go:680-697 | two fields of a series with no row missing have the same times; with different numbers of rows missing they cannot |
| `DownsampleWriter.SeriesWriter.WriteRecord` | engine/record_plan.go:628-699 | a record extends the current field or closes it; the time column grows only with the first field |
| `DownsampleWriter.SeriesWriter.EndFile` | engine/record_plan.go:754-771 | the columns of all fields and the time column of the first |
| `DownsampleWriter.WriteSeries` | engine/record_plan.go:628-771 | all records of a series become one column per field and the first field's times |
| `DownsampleWriter.FieldRunsMeaning` | engine/record_plan.go:628-699 | joining the records of a field loses no row and moves none to another field; neighbouring fields differ |
| `DownsampleSeries.AggregateField` | engine/record_plan.go:990-1016 | one field: the rows handed on are what its records promise |
| `DownsampleSeries.WriteField` | engine/record_plan.go:680-697 | the records of a field become one run of the writer, and no records none |
| `DownsampleSeries.AddFields` | engine/record_plan.go:990-1016 | all fields in turn, each aggregated on its own and handed to the writer |
| `DownsampleSeries.SeriesExact` | engine/record_plan.go:680-697 | entry i of every column is right for its window at entry i of the first field's times if the records of all fields are sound, and only if when wrong peeks show; a field without values has no column |
| `DownsampleSeries.WriteDownsampled` | engine/record_plan.go:628-1082 | a series of several fields from its records to its columns: for each window an entry with the right value of every call, or a null for each in a window without rows, if every field has values, every peek is right and no row is missing, all told from the records; and only if, when each field has right peeks or a call that counts |
| `PromSteps.CurrStepIsLeast` | engine/prom_instant_vector_cursor.go:219-228 | the current step is the least step at or after the time, or the last step |
| `PromSteps.PrevStepIsGreatest` | engine/prom_instant_vector_cursor.go:208-217 | the previous step is the greatest step at or before the time, or the first step |
| `PromIndex.SameWindowMeaning` | engine/prom_instant_vector_cursor.go:184-206 | for any two records, also of two files and for instant queries: in the same window exactly when the next is empty, or is of the same file where files are told apart and no step but the last separates the last time from the next |
| `PromIndex.Seek` | engine/prom_instant_vector_cursor.go:145-158 | a pointer that only moves forward finds what a fresh search finds |
| `PromIndex.Round` | engine/prom_instant_vector_cursor.go:142-163 | one step: its pair, or nothing once the step lies too far after every row |
| `PromIndex.TwoPointers` | engine/prom_instant_vector_cursor.go:141-163 | the loop computes the pairs up to the first step that lies too far after every row |
| `PromIndex.ComputeIntervalIndex` | engine/prom_instant_vector_cursor.go:129-164 | the index of a record with the shortcuts for step 0 and for a single step, cut to 16 bits; to an instant query every row belongs |
| `PromIndex.PairsAt` | engine/prom_range_vector_cursor.go:116-152 | pair k belongs to step k: first row at least the step minus the range, first row after the step |
| `PromIndex.IndexExact` | engine/prom_range_vector_cursor.go:116-152 | for ascending rows the index has exactly one right pair per step if and only if the rows reach the steps; the shortcut included |
| `PromIndex.IndexReaches` | engine/prom_instant_vector_cursor.go:129-164 | for every look-back the index of a record of several steps has a right pair for each step but the last, and for that one if and only if some row is recent there |
| `PromIndex.LookBackReaches` | engine/prom_instant_vector_cursor.go:129-164 | rows of the query's range and a look-back of at least one step always reach |
| `PromIndex.ShortLookBackFails` | engine/prom_instant_vector_cursor.go:129-164 | a shorter look-back leaves the last of three steps without a pair |
| `PromIndex.NotCut` | engine/prom_instant_vector_cursor.go:129-164 | the 16-bit cut is harmless below 65536 rows |
| `PromSampler.LatestMeaning` | engine/prom_instant_vector_cursor.go:339-371 | the latest sample is the one at or before the step with only later ones after it |
| `PromSampler.AtMeaning` | engine/prom_instant_vector_cursor.go:339-371 | a step shows a sample exactly when that is the latest at or before it, no older than the look-back and not stale, and nothing exactly when there is none such |
| `PromSampler.EmitsShows` | engine/prom_instant_vector_cursor.go:325-388 | of a stretch of steps none that ought to show a sample is passed over |
| `PromSampler.PopulateByPrevious` | engine/prom_instant_vector_cursor.go:307-323 | repeats a sample at the following steps until the first at which it is too old, and never a stale one |
| `PromSampler.RepeatsShow` | engine/prom_instant_vector_cursor.go:307-323 | that is what the steps show when the sample is the latest |
| `PromSampler.TakenIsRight` | engine/prom_instant_vector_cursor.go:339-371 | the last row the index gives a step, or else the sample before the record, is what the step shows |
| `PromSampler.EmitsMiddle` | engine/prom_instant_vector_cursor.go:325-388 | rows before an old enough sample and rows after the steps do not matter |
| `PromSampler.FloatSampler.PadBefore` | engine/prom_instant_vector_cursor.go:343-349 | pads the steps between the record before and this one |
| `PromSampler.FloatSampler.AggregateStep` | engine/prom_instant_vector_cursor.go:335-371 | step i of a record takes the last row of its pair or the sample before the record, after the padding when it is the first |
| `PromSampler.FloatSampler.OwnSteps` | engine/prom_instant_vector_cursor.go:334-372 | all pairs of an index, the last one left to the next record if that is taken to share it |
| `PromSampler.StepsDone` | engine/prom_instant_vector_cursor.go:334-372 | for a record of several steps that is what its rows show at the steps that have a pair |
| `PromSampler.OneStepDone` | engine/prom_instant_vector_cursor.go:334-372 | for a record of one step that is its last row, wherever it lies |
| `PromSampler.FloatSampler.Aggregate` | engine/prom_instant_vector_cursor.go:325-388 | padding, own steps and the padding after the last record; the last row is kept for the next record |
| `PromRun.NextBatch` | engine/prom_instant_vector_cursor.go:184-206 | a record begins in the last step of the one before, or all steps between come before its rows |
| `PromRun.AllRowsDecide` | engine/prom_instant_vector_cursor.go:325-388 | the rows of a record decide the steps from its first row to the next record |
| `PromRun.PaddingPays` | engine/prom_instant_vector_cursor.go:343-349 | the padding before a record is what all rows of the run show at those steps |
| `PromRun.BatchPays` | engine/prom_instant_vector_cursor.go:325-388 | what the sampler gives for a record that is not wrong is what the whole run shows from the first step due to the last one paid |
| `PromComplete.WrongGiven` | engine/prom_instant_vector_cursor.go:129-140 | a record inside one step with a sample too old for it or after it shows that sample there |
| `PromComplete.OutputSound` | engine/prom_instant_vector_cursor.go:307-388 | over a run the times strictly rise from step to step; every step shown carries the latest sample at or before it, recent and not stale, if and only if no record is wrong |
| `PromComplete.MissingIff` | engine/prom_instant_vector_cursor.go:334-349 | a record leaves something unshown exactly when it skips padding that would have shown a recent sample, leaves a step to a next record that does not begin in it, or hides it behind a stale mark after the last step |
| `PromComplete.RunAccounts` | engine/prom_instant_vector_cursor.go:325-388 | over a run without wrong records what is shown and what records lose add up to all there is to show |
| `PromComplete.RunComplete` | engine/prom_instant_vector_cursor.go:325-388 | a run is exactly what its rows show at all steps if and only if no record is wrong and none loses steps |
| `PromCursor.Reduce` | engine/prom_instant_vector_cursor.go:99-127 | one record through index, peek and sampler |
| `PromCursor.SampleRun` | engine/prom_instant_vector_cursor.go:99-388 | a whole run of records, empty ones included, for every look-back and rows anywhere: right if and only if no record is wrong, exact if and only if also none loses steps |
| `PromCursor.NeverWrong` | engine/prom_instant_vector_cursor.go:129-164 | with a look-back of at least one step, rows of the query's range are never shown wrongly or hidden |
| `PromCursor.CompleteUnlessShared` | engine/prom_instant_vector_cursor.go:184-206 | then every run is right, and without empty records, and with no record inside one step that the next shares, nothing is lost |
| `PromCursor.SharedStepLosesPadding` | engine/prom_instant_vector_cursor.go:335-349 | three records for which two steps are never padded |
| `PromCursor.ShortLookBackShowsOldRow` | engine/prom_instant_vector_cursor.go:129-140 | a row of time 1 shown at the step 10 with a look-back of 2 |
| `PromCursor.RowAfterTheEndIsShown` | engine/prom_instant_vector_cursor.go:129-140 | a row of time 6 shown at the step 5 |
| `PromCursor.ShortIndexLosesStep` | engine/prom_instant_vector_cursor.go:334-372 | two records with a look-back shorter than the step: the step 10 is never shown |
| `PromCursor.LateStaleMarkHidesStep` | engine/prom_instant_vector_cursor.go:325-371 | a stale mark of time 25 hides a row of time 9 at the step 20 |
| `PromCursor.SampleColumns` | engine/prom_instant_vector_cursor.go:279-388 | the time and the value column of a run: where no record is wrong each entry has the value of the latest sample at or before its step, recent and not stale, or 1 when samples are counted; where also none loses steps, every step that ought to show a sample has its entry |
| `OffloadSafety.KeepsRef` | engine/engine.go:1421-1435 | taking a reference keeps the invariant |
| `OffloadSafety.KeepsUnref` | engine/partition.go:263-284 | giving a reference back keeps the invariant |
| `OffloadSafety.KeepsNotify` | engine/partition.go:263-284 | the signal of the last reference keeps the invariant |
| `OffloadSafety.KeepsMark` | engine/partition.go:219-236 | marking a partition for offload keeps the invariant |
| `OffloadSafety.KeepsUnMark` | engine/partition.go:238-251 | unmarking keeps the invariant |
| `OffloadSafety.KeepsWait` | engine/engine_ha.go:239-269 | waiting, closing and dropping keep the invariant |
| `OffloadSafety.KeepsFlags` | engine/engine_ha.go:45-57 | the checks and flags of pre-offload and its rollback keep the invariant |
| `OffloadSafety.KeepsMove` | engine/engine.go:1563-1585 | reading and writing back the counter at the start and at the end of a shard move keep the invariant |
| `OffloadSafety.KeepsDelete` | engine/engine.go:530-577 | starting and ending a shard delete keep the invariant |
| `OffloadSafety.KeepsTryLock` | engine/engine_ha.go:305-329 | taking and clearing the migration lock keep the invariant |
| `OffloadSafety.KeepsGetPartition` | engine/engine_ha.go:91-235 | finding a partition, loading it, or offloading it because the load failed, keeps the invariant |
| `OffloadSafety.KeepsCreate` | engine/engine.go:982-994 | adding a partition without the migration lock keeps the invariant |
| `OffloadSafety.KeepsInv` | engine/engine_ha.go:130-151 | every step of every thread keeps the invariant |
| `OffloadSafety.InvIsSafe` | engine/engine_ha.go:239-269 | in a state of the invariant nobody uses a partition being closed, one offloader is active, the waiter is signalled at most once, both panics are out of reach, deletes exclude disabled background work |
| `OffloadSafety.EveryRunIsSafe` | engine/engine_ha.go:239-329 | every state of every schedule is safe |
| `OffloadSafety.ClosedDoorStaysShut` | engine/engine_ha.go:239-269 | while a partition is being closed the reference count stays 0 through any steps of others until it is unmarked or dropped |
| `OffloadSafety.ReferenceBlocks` | engine/partition.go:253-284 | a thread with a reference keeps every offloader waiting |
| `OffloadMoves.DriftStep` | engine/partition.go:135-141 | one step of any thread: the counter drifts by what a write-back undoes, and starts afresh with the partition |
| `OffloadMoves.RunDrifts` | engine/partition.go:135-141 | in every schedule the counter is off by exactly what the write-backs have undone |
| `OffloadMoves.ExactIffCurrent` | engine/partition.go:135-141 | the counter is exact in every state of a run if and only if every write-back finds it as it was read |
| `OffloadMoves.UndisturbedIsCurrent` | engine/partition.go:135-141 | that is so when no other update separates a read from its write |
| `OffloadMoves.ExclusionIff` | engine/engine_ha.go:45-53 | in every schedule moves exclude offloading if and only if no check goes through beside a move |
| `OffloadMoves.ExclusionUnlessLow` | engine/engine_ha.go:45-53 | no check does while the write-backs have not undone more increments than decrements |
| `OffloadMoves.UndisturbedRunsExclude` | engine/engine.go:1575-1583 | in every schedule in which no other update separates a read from its write, the counter is exact and moves exclude offloading in every state |
| `OffloadMoves.CheckGoesByCounter` | engine/engine_ha.go:32-53 | a prepared offload marks the partition exactly when the counter is not positive, whatever is moved |
| `OffloadMoves.LostStartBreaksExclusion` | engine/partition.go:135-141 | from a fresh partition: a schedule that loses an increment and ends with an offload begun beside a shard move |
| `OffloadMoves.LostEndRefusesOffload` | engine/partition.go:135-141 | a schedule that loses a decrement and ends with an offload refused though no shard is moved |
| `OffloadRuns.RefGranted` | engine/engine.go:1421-1435 | a request gets its reference if and only if the partition is there, not being offloaded and not being loaded; otherwise nothing changes |
| `OffloadRuns.RequestRuns` | engine/partition.go:253-284 | a request that comes and goes leaves the partition as it was |
| `OffloadRuns.DeleteBegins` | engine/engine.go:552-574 | a planned delete begins if and only if background work is enabled and the shard is there and not being deleted; the shard is then taken out |
| `OffloadRuns.DeleteRuns` | engine/engine.go:530-577 | a delete that is done leaves the partition as it was, without the shard and with nothing pending |
| `OffloadRuns.MoveRuns` | engine/engine.go:1563-1585 | a shard move that nothing disturbs leaves the partition and its counter as they were |
| `OffloadRuns.MoveRefused` | engine/engine.go:1563-1585 | no shard move begins in a partition that is marked |
| `OffloadRuns.LockStepAlone` | engine/engine_ha.go:305-321 | a second operation on the partition gets nothing while the migration lock is taken |
| `OffloadRuns.PreOffloadRuns` | engine/engine_ha.go:32-63 | PreOffload from its lock to its end: nothing changes beside a shard move; otherwise the partition is marked, and background work is disabled unless a shard is being deleted; the count is as before and the lock free |
| `OffloadRuns.PreparedRefuses` | engine/engine_ha.go:32-63 | after a prepared offload both flags are set, and deletes and moves are refused |
| `OffloadRuns.RollbackRuns` | engine/engine_ha.go:65-91 | RollbackPreOffload from its lock to its end: background work is enabled, the mark is gone, the count is as before and the lock free |
| `OffloadRuns.RollbackRestores` | engine/engine_ha.go:65-91 | an offload prepared and rolled back leaves partition, lock and threads as they were, and a delete planned then begins |
| `OffloadRuns.OffloadDrops` | engine/engine_ha.go:239-269 | without references an offload closes and drops the partition and frees the lock |
| `OffloadRuns.OffloadAfterLast` | engine/engine_ha.go:239-269 | with one reference it waits, no other is granted, the last to go tells it, and then it drops the partition |
| `OffloadRuns.OffloadTimesOut` | engine/engine_ha.go:250-255 | an offload that waits too long leaves the partition as it was |
| `OffloadRuns.CloseFails` | engine/engine_ha.go:260-264 | and so does one whose close fails |
| `OffloadRuns.LoadRuns` | engine/engine_ha.go:93-235 | PreAssign and Assign from their lock to their end: a partition that is not there is loaded and one that is there kept; requests may use it after an Assign and not after a PreAssign alone |
| `OffloadRuns.LoadFails` | engine/engine_ha.go:204-212 | an Assign whose load fails leaves no partition behind |
| `OffloadRuns.CreateRuns` | engine/engine.go:982-994 | a partition that is created is there and open; one that was there is kept |
| `Paging.TakeRange` | engine/hybrid_index_reader.go:357-383 | one range cut to the page |
| `Paging.TakeFile` | engine/hybrid_index_reader.go:353-384 | the ranges of one file cut to the page |
| `Paging.TakeFiles` | engine/hybrid_index_reader.go:352-391 | the fragments of all files at the positions of the page, and their number |
| `Paging.FilesMeaning` | engine/hybrid_index_reader.go:352-391 | the fragments of files are the numbers from the start of one of their ranges up to its end |
| `Paging.InitInc` | engine/hybrid_index_reader.go:329-392 | iteration k gives exactly the fragments at positions 16k up to 16(k+1), in order and with the right count; nothing once all pages are read, which is when 16 times the number of pages reaches the count |
| `Paging.PagesTile` | engine/hybrid_index_reader.go:329-392 | the pages of all iterations concatenate to all fragments |
| `ShardSplit.CreateGroups` | coordinator/write_helper.go:413-424 | groups of one duration that follow each other without a gap |
| `ShardSplit.CreateShardGroupsByTimeRange` | coordinator/write_helper.go:403-425 | the planned groups from the group of the first time on; none when their number comes out negative |
| `ShardSplit.PlanCovers` | coordinator/write_helper.go:409-411 | planned from first to last time, the groups reach exactly to the group of the last time |
| `ShardSplit.TruncateNext` | coordinator/write_helper.go:403-425 | a group begins at a whole number of durations from the origin, not after its times and less than one duration before them |
| `ShardSplit.PlanOfBackward` | coordinator/write_helper.go:409-411 | when the last time lies before the first group, the number of groups is one less the whole durations between, so it can come out 0 or negative |
| `ShardSplit.SearchLowerBoundOfRec` | coordinator/write_helper.go:610-617 | binary search for the rows of a group; minus one exactly when none can belong to it |
| `ShardSplit.WriteGroup` | coordinator/record_writer.go:447-471 | one group gets the rows up to its end |
| `ShardSplit.SplitIsRight` | coordinator/record_writer.go:443-479 | every row is written once, in order and to its group, if and only if the groups cover the rows |
| `ShardSplit.SplitAndWriteByShard` | coordinator/record_writer.go:443-479 | the split is right if and only if the groups cover the rows; it reads past the last row if and only if that lies before the last group but not before all; otherwise it returns an error if and only if a group gets no row |
| `ShardSplit.WriteLogRecord` | coordinator/record_writer.go:394-441 | a record sorted before planning is written completely and rightly, whatever its times |
| `ShardSplit.WriteRecord` | coordinator/record_writer.go:343-392 | a record planned before sorting is written rightly if and only if the planned groups happen to cover it; it panics if and only if the number of groups comes out negative; otherwise it returns an error if and only if a planned group has no row |
| `ShardSplit.UnsortedPlanFails` | coordinator/record_writer.go:367-384 | rows that arrive as 25, 3, 14 all go to the group of 25 |
| `ShardSplit.EmptyGroupWarns` | coordinator/record_writer.go:447-454 | rows at 5 and 25 are written rightly and an error is returned for the group between them |
| `Codec.NumberRoundTrip` | lib/numberenc/number.go:48-75 | a number that fits its bytes is read back |
| `Codec.NumberBytes` | lib/numberenc/number.go:48-75 | byte i of k is the number shifted right by the bytes after it: the most significant byte stands first |
| `Codec.NumberBack` | lib/numberenc/number.go:48-75 | the bytes can be told from the number that is read |
| `Codec.ZigZagRoundTrip` | lib/numberenc/number.go:156-167 | zig-zag is undone |
| `Codec.ZigZagIsShift` | lib/numberenc/number.go:156-157 | zig-zag is the 64-bit value shifted left, with all bits turned over if it is negative |
| `Codec.CountRoundTrip` | lib/numberenc/number.go:48-55 | a count is read back modulo 65536 |
| `Codec.GroupRoundTrip` | engine/downsample_info.go:43-47 | a counted list of names is read back, with what follows it left over |
| `Codec.FilesRoundTrip` | engine/downsample_info.go:49-65 | a nested list of files is read back, with what follows it left over |
| `Codec.RoundTrip` | engine/downsample_info.go:39-165 | task, level and all three lists are read back and exactly the bytes after them are left, whatever follows |
| `Codec.ReadFits` | engine/downsample_info.go:71-165 | whatever is read has counts and lengths of 16 bits |
| `Codec.ReadBack` | engine/downsample_info.go:71-165 | whatever is read was written: the input is the bytes of the info and the bytes left over |
| `Codec.ReadExact` | engine/downsample_info.go:71-165 | reading succeeds on the bytes of an info that fits and on nothing else, with that info and what follows it as the result; the checks on lengths refuse nothing that was written |
| `Codec.BodyLayout` | engine/downsample_info.go:39-69 | 8 bytes of task, 8 of level, the counted names, then the old and the new files |
| `Codec.RoundTripIff` | engine/downsample_info.go:39-165 | an info survives with exactly the four checksum bytes left if and only if its counts and lengths fit 16 bits |
| `Codec.ManyNamesFail` | engine/downsample_info.go:43-47 | a list of 65536 names does not survive |
| `Codec.MarshalNames` | engine/downsample_info.go:43-47 | the loop appends the counted list |
| `Codec.MarshalFiles` | engine/downsample_info.go:49-65 | the nested loops append the nested list |
| `Codec.DownSampleFilesInfo.Marshal` | engine/downsample_info.go:39-69 | appends the info and the checksum of all bytes before it |
| `Codec.UnmarshalNames` | engine/downsample_info.go:89-99 | reads the names or fails, never past the input |
| `Codec.UnmarshalFiles` | engine/downsample_info.go:101-131 | reads the nested list or fails, never past the input |
| `Codec.DownSampleFilesInfo.Unmarshal` | engine/downsample_info.go:71-165 | on arbitrary bytes it reads an info or fails, and what is left is the end of the input |
| `FieldFix.FixOne` | coordinator/points_writer.go:206-222 | one round drops a time field, replaces its neighbour or moves on; fails on two types |
| `FieldFix.FixFields` | coordinator/points_writer.go:204-225 | fails if and only if a key other than time has two types; otherwise leaves the last field of each key |
| `FieldFix.KeptIsRight` | coordinator/points_writer.go:204-225 | the fields left have strictly rising keys, are the last of their key, and no key but time is missing |
| `FieldFix.SortStable` | coordinator/points_writer.go:398-398 | the sort keeps the fields of a key in their order |
| `FieldFix.SortAndFix` | coordinator/points_writer.go:398-404 | sorted and fixed, each key but time has one field with the value given last |
| `Ingest.IngestionCtx.GetShardRow` | coordinator/context.go:57-66 | binary search finds the bucket of a shard exactly when there is one |
| `Ingest.IngestionCtx.SetShardRow` | coordinator/context.go:68-85 | one row more in the bucket of its shard, all others untouched, buckets strictly sorted, whatever a reused slot held |
| `Ingest.IngestionCtx.Reset` | coordinator/context.go:87-90 | no buckets, slots kept |
| `Ingest.SortBuckets` | coordinator/context.go:81-81 | sorting moves whole buckets and leaves them as they are |
| `Ingest.RouteRow` | coordinator/points_writer.go:382-479 | one row is dropped and counted, ends the write, or goes to its bucket in the form the schema leaves |
| `Ingest.FateMeaning` | coordinator/points_writer.go:382-404 | a row before the earliest time, out of range or with a key of two types is dropped; one that goes to a shard passed all checks and was cleaned |
| `Ingest.RouteRows` | coordinator/points_writer.go:366-482 | unless a row ends the write, rows in are rows dropped plus rows in buckets, every bucket holds exactly its shard's rows in the order of arrival, and whatever stands in a bucket came from a row in range whose fields were cleaned |
| `Distribution.Deal` | coordinator/shard_mapper.go:517-530 | one shard to the next query |
| `Distribution.DistShardsByMaxConcurrency` | coordinator/shard_mapper.go:505-532 | min(8, n) queries, none empty, sizes differ by at most one; shard t of query j is the one at position m t + j from the front, or from the back when the order is descending, and every shard is in one |

## Left out

- Errors of the input cursors, statistics, spans, record pools and their reuse: they do not change what is computed.
- `NextAggData` and the file-info path of the cursors: grouping is by identity of pooled objects.
- Zones and offsets of windows: windows are aligned to multiples of the interval.
- Float columns: values are integers; rounding of float sums is not modelled.
- The times column metadata of each output column, and slice capacities that are used again.
- The auxiliary path of the heap reducers, which depends on helpers outside the modelled files.
- The Prometheus ring-buffer reducers of range queries; only their index is modelled.
- Instant queries (step 0) of the sampler: the index covers them, the sampler is modelled for a positive step.
- Reducers.Reducer.Aggregate: says nothing about the time and auxiliary columns of a window without values, where the code reports those of row 0.
- Distinct.DrainDistinct: requires dense columns, because values are addressed by row number.
- OffloadRuns.RollbackRestores: this and the other whole operations run without steps of other threads in between; what every interleaving keeps is in OffloadSafety and OffloadMoves.
- TopN.Drain: without auxiliary columns, and for records of at most 65536 rows, where the 16-bit index is exact.
- AggregateCursors.AggregateCursor.Drain: for records of at most 65536 rows, where the 16-bit index is exact.
- Downsample.FileSequenceAggregator.AggregateSameSchema: for records of at most 65536 rows, where the 16-bit index is exact; the records of one field of one series are given apart, and a positive interval.
- Downsample.InNextWindow: the tests on series, schema and file, which end a window, are in the choice of the records that are given.
- DownsampleSeries.WriteDownsampled: after a wrong peek in a field without a count it says only what is right when the records are sound; that it can be right by chance is FieldExact.WrongPeeksMayAgree.
- DownsampleWriter.SeriesWriter.WriteRecord: changes of file and of series begin a new writer and are not modelled.
- PromCursor.SampleRun: samples have no nulls, records have fewer than 65536 rows, and the look-back is not negative (with a negative one no sample is ever recent); several output columns and the file-info variant of the peek are not modelled.
- OffloadSafety.EveryRunIsSafe: does not say that shard moves exclude offloading, which is false of the code; OffloadMoves.ExclusionIff and OffloadMoves.UndisturbedRunsExclude say when they do.
- OffloadSafety.KeepsGetPartition: a load is one step with the search for the partition. The rollback of a failed first load, which closes a partition nobody else can see, is taken to succeed and to leave nothing behind; that it drops by name, and so could drop a partition added meanwhile without the migration lock, is not captured.
- OffloadSafety.KeepsFlags: a failed disabling of background work leaves the offloading flag set, as the code does; only a rollback clears it (OffloadRuns.RollbackRuns).
- Paging.InitInc: the reported count is the number of fragments, and totals stay below 2^31.
- ShardSplit.WriteLogRecord: all groups have the duration of the policy; groups left from an earlier duration are not modelled, nor the choice of the shard within a group.
- Codec.DownSampleFilesInfo.Unmarshal: slices of an earlier use are not filled in place but replaced; the checksum function is a parameter.
- Ingest.RouteRows: streams are absent; the decisions of measurement, schema and shard group are a parameter, which may depend on the position of the row and change it. Slots hold values, so rows shared between slots that are used again are not captured.
- FieldFix.SortAndFix: the order of keys is given by an injective rank.
- Rows, tags and schema handling of the points writer beyond the fields, retry loops, and everything about the network.
