/** `_prepare_metadata_features_and_labels`: choosing the split, merging the
    validation rows into the training split, normalising the labels,
    resolving and checking the example shape, and building the metadata. */
module Prepare {
  import opened Types
  import Labels

  /** The four shape arguments, each possibly unset (None in Python). */
  datatype ShapeArgs = ShapeArgs(
    sequenceSize: Option<int>, rowCount: Option<int>, colCount: Option<int>, numChannels: Option<int>)
  {
    predicate AllUnset() {
      sequenceSize.None? && rowCount.None? && colCount.None? && numChannels.None?
    }
    predicate AllSet() {
      sequenceSize.Some? && rowCount.Some? && colCount.Some? && numChannels.Some?
    }
  }

  /** A resolved example shape (T, H, W, C). */
  datatype Shape = Shape(sequenceSize: int, rowCount: int, colCount: int, numChannels: int) {
    function Entries(): int {
      sequenceSize * rowCount * colCount * numChannels
    }
  }

  /** The shape gate: defaults when nothing is given, an error when only part
      is given, an error when T*H*W*C is not the feature width. */
  function ResolveShape(args: ShapeArgs, width: nat): (r: Result<Shape>)
    ensures args.AllUnset() ==> r == Ok(Shape(1, 1, width, 1))
    ensures !args.AllUnset() && !args.AllSet() ==> r == Err(ShapeUnspecified)
    ensures args.AllSet() ==> r.Ok? == (args.sequenceSize.value * args.rowCount.value
                                        * args.colCount.value * args.numChannels.value == width)
    ensures args.AllSet() && r.Err? ==>
      r.error == ShapeMismatch(args.sequenceSize.value * args.rowCount.value
                               * args.colCount.value * args.numChannels.value, width)
    ensures r.Ok? ==> r.value.Entries() == width
  {
    var args' :=
      if args.AllUnset() then ShapeArgs(Some(1), Some(1), Some(width), Some(1)) else args;
    if !args'.AllSet() then Err(ShapeUnspecified)
    else
      var shape := Shape(args'.sequenceSize.value, args'.rowCount.value,
                         args'.colCount.value, args'.numChannels.value);
      if width != shape.Entries() then Err(ShapeMismatch(shape.Entries(), width))
      else Ok(shape)
  }

  /** Exactly two kinds of argument are accepted: none at all, or all four
      with the right product, and then the declared values are kept. */
  lemma ResolveShapeAccepts(args: ShapeArgs, width: nat)
    ensures ResolveShape(args, width).Ok? <==>
      args.AllUnset() ||
      (args.AllSet() && args.sequenceSize.value * args.rowCount.value
                        * args.colCount.value * args.numChannels.value == width)
    ensures ResolveShape(args, width).Ok? && args.AllSet() ==>
      ResolveShape(args, width).value
        == Shape(args.sequenceSize.value, args.rowCount.value, args.colCount.value, args.numChannels.value)
  {
  }

  /** `concat([X_train, X_valid])`: numpy's concatenate or scipy's vstack. */
  function ConcatFeatures(a: Features, b: Features): (r: Features)
    requires a.Dense? == b.Dense? && a.Width() == b.Width()
    ensures r.Dense? == a.Dense? && r.Width() == a.Width()
    ensures r.Rows() == a.Rows() + b.Rows()
    ensures r.Size() == a.Size() + b.Size()
    ensures a.Valid() && b.Valid() ==> r.Valid()
  {
    match a
    case Dense(m) =>
      assert (|m.rows| + |b.matrix.rows|) * m.width == |m.rows| * m.width + |b.matrix.rows| * m.width;
      Dense(Matrix(m.rows + b.matrix.rows, m.width))
    case Sparse(rows, w) =>
      StoredEntriesAppend(rows, b.sparseRows);
      Sparse(rows + b.sparseRows, w)
  }

  /** `np.concatenate([Y_train, Y_valid])` */
  function ConcatLabels(a: RawLabels, b: RawLabels): (r: RawLabels)
    requires a.Scalars? == b.Scalars?
    requires a.Table? ==> a.matrix.width == b.matrix.width
    ensures r.Scalars? == a.Scalars? && r.Count() == a.Count() + b.Count()
    ensures r.Scalars? ==> r.values == a.values + b.values
    ensures r.Table? ==> r.matrix.rows == a.matrix.rows + b.matrix.rows && r.matrix.width == a.matrix.width
    ensures a.Table? && a.matrix.Valid() && b.matrix.Valid() ==> r.matrix.Valid()
  {
    match a
    case Scalars(v) => Scalars(v + b.values)
    case Table(m) => Table(Matrix(m.rows + b.matrix.rows, m.width))
  }

  /** The split's features and raw labels before label normalisation. */
  datatype SplitData = SplitData(features: Features, labels: RawLabels)

  /** Train absorbs valid only when `X_valid.size` is non-zero; test is taken as it is. */
  function SelectSplit(d: Dataset, setType: string): (r: Result<SplitData>)
    requires d.Valid()
    ensures r.Err? <==> setType != "train" && setType != "test"
    ensures r.Err? ==> r.error == WrongSetType
    ensures r.Ok? ==> r.value.features.Valid() && d.LabelsFit(r.value.labels)
    ensures r.Ok? ==> r.value.features.Dense? == d.xTrain.Dense?
    ensures r.Ok? ==> r.value.features.Width() == d.xTrain.Width()
    ensures r.Ok? ==> r.value.features.RowCount() == r.value.labels.Count()
  {
    if setType == "train" then
      if d.xValid.Size() > 0 then
        Ok(SplitData(ConcatFeatures(d.xTrain, d.xValid), ConcatLabels(d.yTrain, d.yValid)))
      else
        Ok(SplitData(d.xTrain, d.yTrain))
    else if setType == "test" then
      Ok(SplitData(d.xTest, d.yTest))
    else
      Err(WrongSetType)
  }

  /** What `_prepare_metadata_features_and_labels` returns. */
  datatype Prepared = Prepared(metadata: Metadata, features: Features, labels: Matrix)

  /** `_prepare_metadata_features_and_labels(D, set_type, T, H, W, C)` with the
      threshold function of `regression_to_multilabel` as a parameter. */
  function PrepareMetadataFeaturesAndLabels(
    d: Dataset, setType: string, args: ShapeArgs, getThreshold: seq<real> -> real): (r: Result<Prepared>)
    requires d.Valid()
    ensures setType != "train" && setType != "test" ==> r == Err(WrongSetType)
    ensures r.Err? <==>
      (setType != "train" && setType != "test") || ResolveShape(args, d.xTrain.Width()).Err?
    ensures (setType == "train" || setType == "test") && r.Err? ==>
      r.error == ResolveShape(args, d.xTrain.Width()).error
    ensures r.Ok? ==> r.value.features.Valid() && r.value.labels.Valid()
    ensures r.Ok? ==> r.value.metadata.setType == (if setType == "test" then Test else Train)
    ensures r.Ok? ==> r.value.metadata.datasetName == d.info.name
    ensures r.Ok? ==> r.value.metadata.sampleCount == r.value.features.RowCount() == |r.value.labels.rows|
    ensures r.Ok? ==> r.value.metadata.outputDim == r.value.labels.width
    ensures r.Ok? ==> r.value.features.Width() == d.xTrain.Width()
    ensures r.Ok? ==> r.value.features == SelectSplit(d, setType).value.features
    ensures r.Ok? ==>
      r.value.labels == Labels.NormalizeLabels(d.info.task, SelectSplit(d, setType).value.labels, getThreshold)
    ensures r.Ok? ==>
      Shape(r.value.metadata.sequenceSize, r.value.metadata.rowCount,
            r.value.metadata.colCount, r.value.metadata.numChannels)
      == ResolveShape(args, d.xTrain.Width()).value
    ensures r.Ok? ==> r.value.metadata.sequenceSize * r.value.metadata.rowCount
                      * r.value.metadata.colCount * r.value.metadata.numChannels
                      == r.value.features.Width()
  {
    match SelectSplit(d, setType)
    case Err(e) => Err(e)
    case Ok(split) =>
      var labels := Labels.NormalizeLabels(d.info.task, split.labels, getThreshold);
      match ResolveShape(args, split.features.Width())
      case Err(e) => Err(e)
      case Ok(shape) =>
        var metadata := Metadata(
          d.info.name, split.features.RowCount(), if setType == "test" then Test else Train,
          labels.width, shape.sequenceSize, shape.rowCount, shape.colCount, shape.numChannels);
        Ok(Prepared(metadata, split.features, labels))
  }

  /** The training split is train followed by valid when valid holds any
      entry, and train alone otherwise; the labels are those of the same
      rows, normalised together, so a regression threshold is taken over
      train and valid at once. */
  lemma TrainSplitMerge(d: Dataset, args: ShapeArgs, getThreshold: seq<real> -> real)
    requires d.Valid()
    requires PrepareMetadataFeaturesAndLabels(d, "train", args, getThreshold).Ok?
    ensures var p := PrepareMetadataFeaturesAndLabels(d, "train", args, getThreshold).value;
      && p.features.Rows() == (if d.xValid.Size() > 0 then d.xTrain.Rows() + d.xValid.Rows() else d.xTrain.Rows())
      && p.metadata.sampleCount == d.xTrain.RowCount() + (if d.xValid.Size() > 0 then d.xValid.RowCount() else 0)
      && p.labels == Labels.NormalizeLabels(
           d.info.task, if d.xValid.Size() > 0 then ConcatLabels(d.yTrain, d.yValid) else d.yTrain, getThreshold)
      && (d.yTrain.Table? ==>
            p.labels.rows == if d.xValid.Size() > 0 then d.yTrain.matrix.rows + d.yValid.matrix.rows
                             else d.yTrain.matrix.rows)
  {
  }

  /** The test split is the test matrix and its labels, whatever the
      validation split holds; these labels are also the solution rows. */
  lemma TestSplitUnmerged(d: Dataset, args: ShapeArgs, getThreshold: seq<real> -> real)
    requires d.Valid()
    requires PrepareMetadataFeaturesAndLabels(d, "test", args, getThreshold).Ok?
    ensures var p := PrepareMetadataFeaturesAndLabels(d, "test", args, getThreshold).value;
      && p.features == d.xTest && p.metadata.sampleCount == d.xTest.RowCount()
      && p.labels == Labels.NormalizeLabels(d.info.task, d.yTest, getThreshold)
  {
  }

  /** A dense validation split is merged exactly when it has a row and a
      column; a sparse one exactly when it stores an entry, so an all-zero
      sparse validation split is dropped. */
  lemma ValidMergedWhen(f: Features)
    ensures f.Dense? ==> (f.Size() > 0 <==> f.RowCount() > 0 && f.Width() > 0)
    ensures f.Sparse? ==> (f.Size() > 0 <==> exists i :: 0 <= i < |f.sparseRows| && |f.sparseRows[i].indices| > 0)
  {
    if f.Sparse? {
      StoredEntriesPositive(f.sparseRows);
    }
  }

  lemma {:induction false} StoredEntriesPositive(rows: seq<SparseVector>)
    ensures StoredEntries(rows) > 0 <==> exists i :: 0 <= i < |rows| && |rows[i].indices| > 0
  {
    if rows != [] {
      StoredEntriesPositive(rows[1..]);
      if exists i :: 0 <= i < |rows[1..]| && |rows[1..][i].indices| > 0 {
        var i :| 0 <= i < |rows[1..]| && |rows[1..][i].indices| > 0;
        assert |rows[i + 1].indices| > 0;
      }
      if exists i :: 0 <= i < |rows| && |rows[i].indices| > 0 {
        var i :| 0 <= i < |rows| && |rows[i].indices| > 0;
        if i > 0 {
          assert |rows[1..][i - 1].indices| > 0;
        }
      }
    }
  }
}
