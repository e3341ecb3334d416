/** Values shared by the whole conversion: matrices, dataset splits, metadata,
    records, and the errors the conversion raises. */
module Types {

  datatype Option<T> = None | Some(value: T)

  /** An optional integer argument is "truthy" the way Python's `if x:` tests it:
      set and different from zero. */
  predicate Truthy(x: Option<int>) {
    x.Some? && x.value != 0
  }

  /** The exceptions the conversion core raises. */
  datatype Error =
    | WrongSetType                                 // set type is neither "train" nor "test"
    | ShapeUnspecified                             // some, but not all, of the four shape values are unset
    | ShapeMismatch(declared: int, observed: nat)  // T*H*W*C differs from the feature width
    | SparseSequenceUnsupported                    // sparse rows with sequence_size != 1
    | ReshapeFailed                                // a dense row cannot be cut into sequence_size frames

  datatype Result<T> = Ok(value: T) | Err(error: Error)

  /** A dense two-dimensional array; `width` is kept even when there are no rows,
      as numpy keeps `shape[1]` of an empty matrix. */
  datatype Matrix = Matrix(rows: seq<seq<real>>, width: nat) {
    predicate Valid() {
      forall i :: 0 <= i < |rows| ==> |rows[i]| == width
    }
  }

  /** One row of a CSR matrix: the column positions of the stored entries and
      their values, in storage order. */
  datatype SparseVector = SparseVector(indices: seq<nat>, values: seq<real>) {
    /** A canonical CSR row of a matrix with `width` columns. */
    predicate ValidFor(width: nat) {
      && |indices| == |values|
      && (forall j :: 0 <= j < |indices| ==> indices[j] < width)
      && (forall j, k :: 0 <= j < k < |indices| ==> indices[j] < indices[k])
    }
  }

  /** Number of stored entries in a list of CSR rows. */
  function StoredEntries(rows: seq<SparseVector>): nat {
    if rows == [] then 0 else |rows[0].indices| + StoredEntries(rows[1..])
  }

  lemma {:induction false} StoredEntriesAppend(a: seq<SparseVector>, b: seq<SparseVector>)
    ensures StoredEntries(a + b) == StoredEntries(a) + StoredEntries(b)
  {
    if a != [] {
      assert (a + b)[0] == a[0] && (a + b)[1..] == a[1..] + b;
      StoredEntriesAppend(a[1..], b);
    } else {
      assert a + b == b;
    }
  }

  /** One feature row as the row loop sees it. */
  datatype FeatureRow = DenseRow(values: seq<real>) | SparseRow(vector: SparseVector)

  /** A feature matrix: a numpy array or a scipy sparse matrix. */
  datatype Features =
    | Dense(matrix: Matrix)
    | Sparse(sparseRows: seq<SparseVector>, sparseWidth: nat)
  {
    /** `features.shape[1]` */
    function Width(): nat {
      if Dense? then matrix.width else sparseWidth
    }

    /** `features.shape[0]` */
    function RowCount(): nat {
      if Dense? then |matrix.rows| else |sparseRows|
    }

    /** `features.size`: every entry of a numpy array, only the stored
        entries of a scipy sparse matrix. */
    function Size(): nat {
      if Dense? then |matrix.rows| * matrix.width else StoredEntries(sparseRows)
    }

    function Row(i: nat): FeatureRow
      requires i < RowCount()
    {
      if Dense? then DenseRow(matrix.rows[i]) else SparseRow(sparseRows[i])
    }

    /** The rows in order, as iterating the matrix yields them. */
    function Rows(): (r: seq<FeatureRow>)
      ensures |r| == RowCount()
      ensures forall i :: 0 <= i < |r| ==> r[i] == Row(i)
    {
      seq(RowCount(), i requires 0 <= i < RowCount() => Row(i))
    }

    predicate Valid() {
      match this
      case Dense(m) => m.Valid()
      case Sparse(rows, w) => forall i :: 0 <= i < |rows| ==> rows[i].ValidFor(w)
    }
  }

  /** Labels as the loader hands them over: one scalar per example for
      regression and binary classification, a matrix otherwise. */
  datatype RawLabels = Scalars(values: seq<real>) | Table(matrix: Matrix) {
    function Count(): nat {
      if Scalars? then |values| else |matrix.rows|
    }
  }

  /** The loader's `info` dictionary, the entries the core reads. */
  datatype DatasetInfo = DatasetInfo(name: string, format: string, task: string, testNum: nat)

  /** The loader's `data` dictionary. */
  datatype Dataset = Dataset(
    info: DatasetInfo,
    xTrain: Features, xValid: Features, xTest: Features,
    yTrain: RawLabels, yValid: RawLabels, yTest: RawLabels)
  {
    /** Regression and binary classification come with one scalar per example. */
    predicate HasScalarLabels() {
      info.task == "regression" || info.task == "binary.classification"
    }

    predicate LabelsFit(y: RawLabels) {
      && (HasScalarLabels() <==> y.Scalars?)
      && (y.Table? ==> y.matrix.Valid())
    }

    /** What the loader guarantees: one storage kind and one width for every
        split, label matrices of one width, and one label per feature row. */
    predicate Valid() {
      && xTrain.Valid() && xValid.Valid() && xTest.Valid()
      && xTrain.Dense? == xValid.Dense? && xTrain.Dense? == xTest.Dense?
      && xTrain.Width() == xValid.Width() == xTest.Width()
      && LabelsFit(yTrain) && LabelsFit(yValid) && LabelsFit(yTest)
      && (yTrain.Table? ==> yTrain.matrix.width == yValid.matrix.width)
      && xTrain.RowCount() == yTrain.Count()
      && xValid.RowCount() == yValid.Count()
      && xTest.RowCount() == yTest.Count()
    }
  }

  datatype SetType = Train | Test

  /** `AutoMLMetadata` */
  datatype Metadata = Metadata(
    datasetName: string,
    sampleCount: nat,
    setType: SetType,
    outputDim: nat,
    sequenceSize: int,
    rowCount: int,
    colCount: int,
    numChannels: int)

  /** The feature lists of one record: dense frames, or the three parallel
      lists of a single sparse frame. */
  datatype Payload =
    | DenseInput(frames: seq<seq<real>>)
    | SparseInput(colIndex: seq<nat>, rowIndex: seq<nat>, values: seq<real>)

  /** One SequenceExample: its context (`id`, `label_index`, `label_score`)
      and its feature lists. */
  datatype Record = Record(id: int, labelIndex: seq<nat>, labelScore: seq<real>, payload: Payload)
}
