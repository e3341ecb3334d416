/** `convert_vectors_to_sequence_example`: the row loop that turns one
    prepared split into records, followed by the sidecar text. The record
    writer is the sequence of records written so far. */
module Writer {
  import opened Types
  import opened Labels
  import opened Encoding
  import opened Sidecar

  /** The id of the first record: 0 for test, `test_num` of the dataset
      info for train. */
  function IdOffset(meta: Metadata, info: DatasetInfo): (r: nat)
    ensures meta.setType == Test ==> r == 0
    ensures meta.setType == Train ==> r == info.testNum
  {
    if meta.setType == Test then 0 else info.testNum
  }

  /** `rec` is what the loop writes for feature row `row` and label row
      `labelRow` under id `id`. */
  predicate IsRecordFor(meta: Metadata, row: FeatureRow, labelRow: seq<real>, id: int, rec: Record) {
    && rec.id == id
    && (meta.setType == Test ==> rec.labelIndex == [] && rec.labelScore == [])
    && (meta.setType == Train ==> IsSparseLabel(labelRow, rec.labelIndex, rec.labelScore))
    && EncodeFeatures(meta.sequenceSize, row) == Ok(rec.payload)
  }

  /** Number of records the loop reaches over `n` row pairs under
      `max_num_examples`: unset or 0 means every row; after each record the
      loop stops once the count reaches the limit, so a negative limit still
      lets one record through. */
  function EmittedCount(n: nat, maxNumExamples: Option<int>): (r: nat)
    ensures r <= n
    ensures !Truthy(maxNumExamples) ==> r == n
    ensures Truthy(maxNumExamples) && maxNumExamples.value > 0 ==>
      r == if n < maxNumExamples.value then n else maxNumExamples.value
    ensures Truthy(maxNumExamples) && maxNumExamples.value < 0 ==> r == if n == 0 then 0 else 1
  {
    if !Truthy(maxNumExamples) then n
    else
      var k := if maxNumExamples.value >= 1 then maxNumExamples.value else 1;
      if n < k then n else k
  }

  /** One loop body without the write: the label lists (empty for test,
      `dense_to_sparse_label` for train) and the feature lists. */
  method EncodeExample(meta: Metadata, row: FeatureRow, labelRow: seq<real>, id: int)
    returns (r: Result<Record>)
    ensures r.Ok? <==> EncodeFeatures(meta.sequenceSize, row).Ok?
    ensures r.Err? ==> r.error == EncodeFeatures(meta.sequenceSize, row).error
    ensures r.Ok? ==> IsRecordFor(meta, row, labelRow, id, r.value)
  {
    var indexes: seq<nat>, scores: seq<real> := [], [];
    if meta.setType == Train {
      indexes, scores := DenseToSparseLabel(labelRow);
    }
    match EncodeFeatures(meta.sequenceSize, row)
    case Err(e) =>
      r := Err(e);
    case Ok(payload) =>
      r := Ok(Record(id, indexes, scores, payload));
  }

  /** The outcome of converting one split. */
  datatype SplitOutput = SplitOutput(
    records: seq<Record>,                 // what the record writer received, in order
    solution: Option<seq<seq<real>>>,     // the rows of the solution file (test only)
    sidecar: Result<string>)              // the sidecar text, or the error that stopped the loop

  /** Number of (feature row, label row) pairs `zip` yields. */
  function PairCount(features: Features, labels: Matrix): (n: nat)
    ensures n <= features.RowCount() && n <= |labels.rows|
    ensures n == features.RowCount() || n == |labels.rows|
  {
    if features.RowCount() < |labels.rows| then features.RowCount() else |labels.rows|
  }

  /** The first `count` rows all encode. */
  predicate RowsEncode(meta: Metadata, features: Features, count: nat)
    requires count <= features.RowCount()
  {
    forall i :: 0 <= i < count ==> EncodeFeatures(meta.sequenceSize, features.Row(i)).Ok?
  }

  /** The row loop: records for the first `EmittedCount(n, maxNumExamples)`
      row pairs, numbered from `offset`, or the error of the first row that
      does not encode. */
  method WriteRecords(
    meta: Metadata, features: Features, labels: Matrix, offset: int, n: nat, maxNumExamples: Option<int>)
    returns (written: seq<Record>, failure: Option<Error>)
    requires n <= features.RowCount() && n <= |labels.rows|
    ensures failure.None? <==> RowsEncode(meta, features, EmittedCount(n, maxNumExamples))
    ensures failure.None? ==> |written| == EmittedCount(n, maxNumExamples)
    ensures failure.Some? ==> |written| < EmittedCount(n, maxNumExamples)
    ensures failure.Some? ==> EncodeFeatures(meta.sequenceSize, features.Row(|written|)) == Err(failure.value)
    ensures forall i :: 0 <= i < |written| ==>
      IsRecordFor(meta, features.Row(i), labels.rows[i], i + offset, written[i])
  {
    written := [];
    var counter := 0;
    while counter < n
      invariant counter <= n && |written| == counter
      invariant Truthy(maxNumExamples) ==> counter == 0 || counter < maxNumExamples.value
      invariant RowsEncode(meta, features, counter)
      invariant forall i :: 0 <= i < counter ==>
        IsRecordFor(meta, features.Row(i), labels.rows[i], i + offset, written[i])
      decreases n - counter
    {
      var r := EncodeExample(meta, features.Row(counter), labels.rows[counter], counter + offset);
      if r.Err? {
        assert counter < EmittedCount(n, maxNumExamples);
        return written, Some(r.error);
      }
      written := written + [r.value];
      counter := counter + 1;
      if Truthy(maxNumExamples) && counter >= maxNumExamples.value {
        break;
      }
    }
    assert counter == EmittedCount(n, maxNumExamples);
    failure := None;
  }

  /** `convert_vectors_to_sequence_example(filepath, metadata, features,
      labels, D_info, max_num_examples)` without the files. Rows and labels
      are paired as `zip` pairs them; an encoding error ends the loop before
      the record is written and no sidecar is produced. */
  method ConvertVectorsToSequenceExample(
    meta: Metadata, features: Features, labels: Matrix, info: DatasetInfo, maxNumExamples: Option<int>)
    returns (c: SplitOutput)
    ensures meta.setType == Test <==> c.solution.Some?
    ensures c.solution.Some? ==> c.solution.value == labels.rows
    ensures c.sidecar.Ok? <==> RowsEncode(meta, features, EmittedCount(PairCount(features, labels), maxNumExamples))
    ensures c.sidecar.Ok? ==> |c.records| == EmittedCount(PairCount(features, labels), maxNumExamples)
    ensures c.sidecar.Ok? ==> c.sidecar.value == MetadataText(DescriptorOf(|c.records|, meta, info))
    ensures c.sidecar.Err? ==> |c.records| < EmittedCount(PairCount(features, labels), maxNumExamples)
    ensures c.sidecar.Err? ==> EncodeFeatures(meta.sequenceSize, features.Row(|c.records|)) == Err(c.sidecar.error)
    ensures forall i :: 0 <= i < |c.records| ==>
      IsRecordFor(meta, features.Row(i), labels.rows[i], i + IdOffset(meta, info), c.records[i])
  {
    var solution := if meta.setType == Test then Some(labels.rows) else None;
    var written, failure := WriteRecords(
      meta, features, labels, IdOffset(meta, info), PairCount(features, labels), maxNumExamples);
    if failure.Some? {
      return SplitOutput(written, solution, Err(failure.value));
    }
    var text := WriteMetadataTextproto(|written|, meta, info);
    c := SplitOutput(written, solution, Ok(text));
  }

  /** Within a split the ids are consecutive from the offset, hence distinct. */
  lemma IdsConsecutive(meta: Metadata, features: Features, labels: Matrix, offset: int, records: seq<Record>)
    requires |records| <= features.RowCount() && |records| <= |labels.rows|
    requires forall i :: 0 <= i < |records| ==>
      IsRecordFor(meta, features.Row(i), labels.rows[i], i + offset, records[i])
    ensures forall i :: 0 < i < |records| ==> records[i].id == records[i - 1].id + 1
    ensures forall i, j :: 0 <= i < j < |records| ==> records[i].id < records[j].id
  {
  }

  /** The records are numbered consecutively from `offset`. */
  predicate IdsFrom(records: seq<Record>, offset: int) {
    forall i :: 0 <= i < |records| ==> records[i].id == offset + i
  }

  /** Some record of `test` has the same id as some record of `train`. */
  predicate SharesId(test: seq<Record>, train: seq<Record>) {
    exists i, j :: 0 <= i < |test| && 0 <= j < |train| && test[i].id == train[j].id
  }

  /** Test ids run from 0 and train ids from `test_num`; the two splits share
      an id exactly when train is non-empty and fewer than all emitted test
      records lie below `test_num`. */
  lemma {:induction false} SplitIdsOverlap(test: seq<Record>, train: seq<Record>, testNum: nat)
    requires IdsFrom(test, 0) && IdsFrom(train, testNum)
    ensures SharesId(test, train) <==> |train| > 0 && testNum < |test|
  {
    if |train| > 0 && testNum < |test| {
      assert test[testNum].id == train[0].id;
    }
  }
}
