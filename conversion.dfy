/** `press_a_button_and_give_me_an_AutoDL_dataset` without the file system:
    the name of the converted dataset, then the test split, then the
    training split. */
module Conversion {
  import opened Types
  import opened Text
  import opened Encoding
  import opened Prepare
  import opened Writer
  import Sidecar

  /** The name the converted dataset takes before any suffix: the new name
      when one is given and non-empty, the original name otherwise. */
  function BaseName(datasetName: string, newDatasetName: Option<string>): (r: string)
    ensures newDatasetName.Some? && newDatasetName.value != "" ==> r == newDatasetName.value
    ensures newDatasetName.None? || newDatasetName.value == "" ==> r == datasetName
  {
    if newDatasetName.Some? && newDatasetName.value != "" then newDatasetName.value else datasetName
  }

  /** `'_' + str(k)` when the limit is set and non-zero, nothing otherwise. */
  function LimitSuffix(limit: Option<int>): (r: string)
    ensures Truthy(limit) ==> |r| > 0 && r[0] == '_' && '_' !in r[1..]
    ensures Truthy(limit) ==> r[1..] == IntToString(limit.value)
    ensures Truthy(limit) ==> ParseInt(r[1..]) == Some(limit.value)
    ensures !Truthy(limit) ==> r == ""
  {
    if Truthy(limit) then
      IntToStringHasNoSeparators(limit.value);
      IntToStringRoundTrip(limit.value);
      assert ("_" + IntToString(limit.value))[1..] == IntToString(limit.value);
      "_" + IntToString(limit.value)
    else ""
  }

  /** The output dataset name: the base name, then the training limit, then
      the test limit, each as `_<k>` when it is set and non-zero. */
  function OutputName(datasetName: string, newDatasetName: Option<string>,
                      maxTrain: Option<int>, maxTest: Option<int>): (r: string)
    ensures |r| >= |BaseName(datasetName, newDatasetName)|
    ensures r[..|BaseName(datasetName, newDatasetName)|] == BaseName(datasetName, newDatasetName)
    ensures r == BaseName(datasetName, newDatasetName) <==> !Truthy(maxTrain) && !Truthy(maxTest)
    ensures Truthy(maxTrain) && !Truthy(maxTest) ==>
      r == BaseName(datasetName, newDatasetName) + "_" + IntToString(maxTrain.value)
    ensures !Truthy(maxTrain) && Truthy(maxTest) ==>
      r == BaseName(datasetName, newDatasetName) + "_" + IntToString(maxTest.value)
    ensures Truthy(maxTrain) && Truthy(maxTest) ==>
      r == BaseName(datasetName, newDatasetName) + "_" + IntToString(maxTrain.value) + "_" + IntToString(maxTest.value)
  {
    var base, train, test := BaseName(datasetName, newDatasetName), LimitSuffix(maxTrain), LimitSuffix(maxTest);
    assert base + train + test == base + (train + test);
    base + train + test
  }

  /** The suffix does not say which split a single limit belongs to: limiting
      only train or only test to the same count gives the same name. */
  lemma OutputNameAmbiguous(datasetName: string, newDatasetName: Option<string>, k: int)
    requires k != 0
    ensures OutputName(datasetName, newDatasetName, Some(k), None)
         == OutputName(datasetName, newDatasetName, None, Some(k))
    ensures OutputName(datasetName, newDatasetName, Some(k), None)
         != OutputName(datasetName, newDatasetName, None, None)
  {
  }

  /** With both limits set, the name determines both of them. */
  lemma {:induction false} OutputNameInjective(
    datasetName: string, newDatasetName: Option<string>, a: int, b: int, c: int, e: int)
    requires a != 0 && b != 0 && c != 0 && e != 0
    ensures OutputName(datasetName, newDatasetName, Some(a), Some(b))
         == OutputName(datasetName, newDatasetName, Some(c), Some(e))
        <==> a == c && b == e
  {
    var base := BaseName(datasetName, newDatasetName);
    var sa, sb, sc, se := IntToString(a), IntToString(b), IntToString(c), IntToString(e);
    if OutputName(datasetName, newDatasetName, Some(a), Some(b))
       == OutputName(datasetName, newDatasetName, Some(c), Some(e)) {
      IntToStringHasNoSeparators(a);
      IntToStringHasNoSeparators(c);
      SeparatedPairInjective('_', base, sa, sb, sc, se);
      IntToStringInjective(a, c);
      IntToStringInjective(b, e);
    }
  }

  /** `base _ x _ y` splits back into `x` and `y` when `x` holds no `_`. */
  lemma SeparatedPairInjective(sep: char, base: string, x: string, y: string, u: string, v: string)
    requires sep !in x && sep !in u
    requires base + [sep] + x + [sep] + y == base + [sep] + u + [sep] + v
    ensures x == u && y == v
  {
    var whole := base + [sep] + x + [sep] + y;
    assert whole[|base| + 1..] == x + ([sep] + y);
    assert whole[|base| + 1..] == u + ([sep] + v);
    SplitAtSeparator(sep, x, [sep] + y, u, [sep] + v);
    assert y == ([sep] + y)[1..] && v == ([sep] + v)[1..];
  }

  /** A shape that passes the gate need not be one the rows can be cut
      into: T = -1 and W = -width multiply to the width, and then the first
      dense row fails to reshape. */
  lemma NegativeShapePassesGate(width: nat, row: seq<real>)
    requires width > 0 && |row| == width
    ensures ResolveShape(ShapeArgs(Some(-1), Some(1), Some(-(width as int)), Some(1)), width).Ok?
    ensures EncodeFeatures(-1, DenseRow(row)) == Err(ReshapeFailed)
  {
  }

  /** What pressing the button produces: the dataset name, the converted
      splits in the order they were written, and the error that stopped the
      run, if any. */
  datatype Outcome = Outcome(
    name: string, test: Option<SplitOutput>, train: Option<SplitOutput>, failure: Option<Error>)

  /** `out` is what `convert_vectors_to_sequence_example` gives for the split
      `setType` prepared from `d`, with n the number of rows the limit lets
      through: record i is written for row i of the prepared features and
      labels under the split's id offset; the test split saves every label
      row as its solution; the loop ends with a sidecar for n records exactly
      when the first n rows encode, and otherwise stops before n at the first
      row that does not, with that row's error. */
  predicate ConvertsSplit(
    d: Dataset, setType: string, args: ShapeArgs, getThreshold: seq<real> -> real,
    limit: Option<int>, out: SplitOutput)
    requires d.Valid()
  {
    var r := PrepareMetadataFeaturesAndLabels(d, setType, args, getThreshold);
    && r.Ok?
    && (var p, n := r.value, EmittedCount(r.value.metadata.sampleCount, limit);
        && |out.records| <= n
        && (forall i :: 0 <= i < |out.records| ==>
              IsRecordFor(p.metadata, p.features.Row(i), p.labels.rows[i], i + IdOffset(p.metadata, d.info), out.records[i]))
        && out.solution == (if setType == "test" then Some(p.labels.rows) else None)
        && (out.sidecar.Ok? <==> RowsEncode(p.metadata, p.features, n))
        && (out.sidecar.Ok? ==>
              && |out.records| == n
              && out.sidecar.value == Sidecar.MetadataText(Sidecar.DescriptorOf(n, p.metadata, d.info)))
        && (out.sidecar.Err? ==>
              && |out.records| < n
              && EncodeFeatures(p.metadata.sequenceSize, p.features.Row(|out.records|)) == Err(out.sidecar.error)))
  }

  /** Rows of the split `setType` after preparation: the test rows, or the
      training rows followed by the validation rows when those are merged. */
  function SplitRows(d: Dataset, setType: string): nat {
    if setType == "test" then d.xTest.RowCount()
    else d.xTrain.RowCount() + (if d.xValid.Size() > 0 then d.xValid.RowCount() else 0)
  }

  /** The prepared split has one sample per row of `SplitRows`. */
  lemma SplitSampleCount(d: Dataset, setType: string, args: ShapeArgs, getThreshold: seq<real> -> real)
    requires d.Valid() && PrepareMetadataFeaturesAndLabels(d, setType, args, getThreshold).Ok?
    ensures PrepareMetadataFeaturesAndLabels(d, setType, args, getThreshold).value.metadata.sampleCount
            == SplitRows(d, setType)
  {
    if setType == "test" {
      TestSplitUnmerged(d, args, getThreshold);
    } else {
      TrainSplitMerge(d, args, getThreshold);
    }
  }

  /** What `convert_vectors_to_sequence_example` promises about the prepared
      split, restated over the dataset. */
  lemma WrittenFromPrepared(
    d: Dataset, setType: string, args: ShapeArgs, getThreshold: seq<real> -> real, limit: Option<int>,
    out: SplitOutput)
    requires d.Valid() && (setType == "test" || setType == "train")
    requires PrepareMetadataFeaturesAndLabels(d, setType, args, getThreshold).Ok?
    requires var p := PrepareMetadataFeaturesAndLabels(d, setType, args, getThreshold).value;
      var n := EmittedCount(PairCount(p.features, p.labels), limit);
      && (p.metadata.setType == Test <==> out.solution.Some?)
      && (out.solution.Some? ==> out.solution.value == p.labels.rows)
      && (out.sidecar.Ok? <==> RowsEncode(p.metadata, p.features, n))
      && (out.sidecar.Ok? ==>
            && |out.records| == n
            && out.sidecar.value == Sidecar.MetadataText(Sidecar.DescriptorOf(|out.records|, p.metadata, d.info)))
      && (out.sidecar.Err? ==>
            && |out.records| < n
            && EncodeFeatures(p.metadata.sequenceSize, p.features.Row(|out.records|)) == Err(out.sidecar.error))
      && (forall i :: 0 <= i < |out.records| ==>
            IsRecordFor(p.metadata, p.features.Row(i), p.labels.rows[i], i + IdOffset(p.metadata, d.info), out.records[i]))
    ensures ConvertsSplit(d, setType, args, getThreshold, limit, out)
    ensures out.sidecar.Ok? ==> |out.records| == EmittedCount(SplitRows(d, setType), limit)
    ensures IdsFrom(out.records, if setType == "test" then 0 else d.info.testNum)
  {
    var p := PrepareMetadataFeaturesAndLabels(d, setType, args, getThreshold).value;
    SplitSampleCount(d, setType, args, getThreshold);
    assert PairCount(p.features, p.labels) == p.metadata.sampleCount == SplitRows(d, setType);
  }

  /** `_prepare_metadata_features_and_labels` followed by
      `convert_vectors_to_sequence_example` for one split, as the button
      runs them; an exception from either is the error. */
  method ConvertSplit(
    d: Dataset, setType: string, args: ShapeArgs, getThreshold: seq<real> -> real, limit: Option<int>)
    returns (r: Result<SplitOutput>)
    requires d.Valid() && (setType == "test" || setType == "train")
    ensures r.Err? <==> ResolveShape(args, d.xTrain.Width()).Err?
    ensures r.Err? ==> r.error == ResolveShape(args, d.xTrain.Width()).error
    ensures r.Ok? ==> ConvertsSplit(d, setType, args, getThreshold, limit, r.value)
    ensures r.Ok? ==> (r.value.solution.Some? <==> setType == "test")
    ensures r.Ok? && r.value.sidecar.Ok? ==> |r.value.records| == EmittedCount(SplitRows(d, setType), limit)
    ensures r.Ok? ==> IdsFrom(r.value.records, if setType == "test" then 0 else d.info.testNum)
  {
    var prep := PrepareMetadataFeaturesAndLabels(d, setType, args, getThreshold);
    if prep.Err? {
      return Err(prep.error);
    }
    var p := prep.value;
    var out := ConvertVectorsToSequenceExample(p.metadata, p.features, p.labels, d.info, limit);
    WrittenFromPrepared(d, setType, args, getThreshold, limit, out);
    r := Ok(out);
  }

  /** The second half of the button, run once the test split is written:
      the training split, whose ids start at `test_num` and so meet the test
      ids exactly when fewer than all test records lie below `test_num`. */
  method ConvertTrainAfterTest(
    d: Dataset, args: ShapeArgs, getThreshold: seq<real> -> real, maxTrain: Option<int>, test: seq<Record>)
    returns (train: SplitOutput)
    requires d.Valid() && ResolveShape(args, d.xTrain.Width()).Ok?
    requires IdsFrom(test, 0)
    ensures ConvertsSplit(d, "train", args, getThreshold, maxTrain, train)
    ensures train.solution.None?
    ensures train.sidecar.Ok? ==> |train.records| == EmittedCount(SplitRows(d, "train"), maxTrain)
    ensures IdsFrom(train.records, d.info.testNum)
    ensures SharesId(test, train.records) <==> |train.records| > 0 && d.info.testNum < |test|
  {
    var r := ConvertSplit(d, "train", args, getThreshold, maxTrain);
    train := r.value;
    SplitIdsOverlap(test, train.records, d.info.testNum);
  }

  /** `press_a_button_and_give_me_an_AutoDL_dataset` with the loader's data
      in `d`, the shape arguments of `_prepare_metadata_features_and_labels`
      in `args`, and the regression threshold in `getThreshold`. The test
      split is converted first; an exception ends the run. */
  method PressAButton(
    d: Dataset, datasetName: string, newDatasetName: Option<string>,
    maxTrain: Option<int>, maxTest: Option<int>, args: ShapeArgs, getThreshold: seq<real> -> real)
    returns (o: Outcome)
    requires d.Valid()
    ensures o.name == OutputName(datasetName, newDatasetName, maxTrain, maxTest)
    ensures o.failure.None? <==> o.train.Some? && o.train.value.sidecar.Ok?
    ensures o.train.Some? ==> o.test.Some? && o.test.value.sidecar.Ok?
    ensures o.test.None? <==> ResolveShape(args, d.xTrain.Width()).Err?
    ensures o.test.None? ==> o.failure == Some(ResolveShape(args, d.xTrain.Width()).error)
    ensures o.test.Some? ==> o.test.value.solution.Some? && (o.train.Some? ==> o.train.value.solution.None?)
    ensures o.test.Some? && o.test.value.sidecar.Ok? ==> o.train.Some?
    ensures o.test.Some? && o.test.value.sidecar.Err? ==> o.failure == Some(o.test.value.sidecar.error)
    ensures o.train.Some? && o.train.value.sidecar.Err? ==> o.failure == Some(o.train.value.sidecar.error)
    ensures o.test.Some? ==> ConvertsSplit(d, "test", args, getThreshold, maxTest, o.test.value)
    ensures o.train.Some? ==> ConvertsSplit(d, "train", args, getThreshold, maxTrain, o.train.value)
    ensures o.test.Some? ==> IdsFrom(o.test.value.records, 0)
    ensures o.train.Some? ==> IdsFrom(o.train.value.records, d.info.testNum)
    ensures o.test.Some? && o.test.value.sidecar.Ok? ==>
      |o.test.value.records| == EmittedCount(d.xTest.RowCount(), maxTest)
    ensures o.train.Some? && o.train.value.sidecar.Ok? ==>
      |o.train.value.records| == EmittedCount(SplitRows(d, "train"), maxTrain)
    ensures o.train.Some? ==>
      (SharesId(o.test.value.records, o.train.value.records)
       <==> |o.train.value.records| > 0 && d.info.testNum < |o.test.value.records|)
  {
    var name := OutputName(datasetName, newDatasetName, maxTrain, maxTest);
    var test := ConvertSplit(d, "test", args, getThreshold, maxTest);
    if test.Err? {
      return Outcome(name, None, None, Some(test.error));
    }
    if test.value.sidecar.Err? {
      return Outcome(name, Some(test.value), None, Some(test.value.sidecar.error));
    }
    var train := ConvertTrainAfterTest(d, args, getThreshold, maxTrain, test.value.records);
    var failure := if train.sidecar.Err? then Some(train.sidecar.error) else None;
    o := Outcome(name, Some(test.value), Some(train), failure);
  }
}
