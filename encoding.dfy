/** The feature part of one record: the three lists of a sparse row, or a
    dense row cut into `sequence_size` frames. */
module Encoding {
  import opened Types
  import Labels

  /** `csr_feature_vector_to_lists`: column positions, a row position of 0
      for every stored entry (the row is a one-row matrix), and the values. */
  function CsrFeatureVectorToLists(v: SparseVector): (r: (seq<nat>, seq<nat>, seq<real>))
    ensures r.0 == v.indices && r.2 == v.values
    ensures |r.1| == |r.0| && forall j :: 0 <= j < |r.1| ==> r.1[j] == 0
  {
    (v.indices, seq(|v.indices|, _ => 0), v.values)
  }

  /** The dense one-row matrix (row, column) -> value that coordinate lists describe. */
  function CoordinatesToRow(width: nat, rowIndex: seq<nat>, colIndex: seq<nat>, values: seq<real>, row: nat): (r: seq<real>)
    requires |rowIndex| == |colIndex| == |values|
    ensures |r| == width
  {
    seq(width, c requires 0 <= c < width =>
      if exists j :: 0 <= j < |colIndex| && rowIndex[j] == row && colIndex[j] == c
      then values[FirstMatch(rowIndex, colIndex, row, c)] else 0.0)
  }

  function FirstMatch(rowIndex: seq<nat>, colIndex: seq<nat>, row: nat, c: nat): (j: nat)
    requires |rowIndex| == |colIndex|
    requires exists j :: 0 <= j < |colIndex| && rowIndex[j] == row && colIndex[j] == c
    ensures j < |colIndex| && rowIndex[j] == row && colIndex[j] == c
    ensures forall k :: 0 <= k < j ==> !(rowIndex[k] == row && colIndex[k] == c)
  {
    if rowIndex[0] == row && colIndex[0] == c then 0
    else
      assert exists j :: 0 <= j < |colIndex[1..]| && rowIndex[1..][j] == row && colIndex[1..][j] == c by {
        var j :| 0 <= j < |colIndex| && rowIndex[j] == row && colIndex[j] == c;
        assert j > 0 && rowIndex[1..][j - 1] == row && colIndex[1..][j - 1] == c;
      }
      1 + FirstMatch(rowIndex[1..], colIndex[1..], row, c)
  }

  /** The three lists describe, as row 0 of a coordinate matrix, the dense
      row that scattering the CSR row's values to its column indices gives,
      and no entry in any other row. */
  lemma CsrListsDescribeRow(v: SparseVector, width: nat)
    requires v.ValidFor(width)
    ensures var (cols, rows, vals) := CsrFeatureVectorToLists(v);
      && CoordinatesToRow(width, rows, cols, vals, 0) == Labels.Scatter(width, v.indices, v.values)
      && (forall r :: r > 0 ==> CoordinatesToRow(width, rows, cols, vals, r) == seq(width, _ => 0.0))
  {
    var (cols, rows, vals) := CsrFeatureVectorToLists(v);
    var coo, dense := CoordinatesToRow(width, rows, cols, vals, 0), Labels.Scatter(width, v.indices, v.values);
    forall c | 0 <= c < width
      ensures coo[c] == dense[c]
    {
      Labels.ScatterAt(width, v.indices, v.values, c);
      if c in v.indices {
        var j :| 0 <= j < |cols| && cols[j] == c;
        assert rows[j] == 0;
        assert FirstMatch(rows, cols, 0, c) == j;
      }
    }
  }

  /** `n` consecutive frames of length `k` taken from the front of `row`. */
  function Frames(row: seq<real>, n: nat, k: nat): (r: seq<seq<real>>)
    requires |row| == n * k
    ensures |r| == n
    decreases n
  {
    if n == 0 then []
    else
      FrameSplit(|row|, n, k);
      [row[..k]] + Frames(row[k..], n - 1, k)
  }

  /** Taking one frame of length `k` off `n * k` values leaves `(n - 1) * k`. */
  lemma FrameSplit(len: nat, n: nat, k: nat)
    requires len == n * k && n > 0
    ensures k <= len && len - k == (n - 1) * k
  {
  }

  function Flatten(frames: seq<seq<real>>): seq<real> {
    if frames == [] then [] else frames[0] + Flatten(frames[1..])
  }

  lemma {:induction false} FramesLength(row: seq<real>, n: nat, k: nat)
    requires |row| == n * k
    ensures forall i :: 0 <= i < n ==> |Frames(row, n, k)[i]| == k
    decreases n
  {
    if n > 0 {
      FrameSplit(|row|, n, k);
      FramesLength(row[k..], n - 1, k);
      assert Frames(row, n, k)[1..] == Frames(row[k..], n - 1, k);
    }
  }

  /** Concatenating the frames in order gives the row back. */
  lemma {:induction false} FramesFlatten(row: seq<real>, n: nat, k: nat)
    requires |row| == n * k
    ensures Flatten(Frames(row, n, k)) == row
    decreases n
  {
    if n > 0 {
      FrameSplit(|row|, n, k);
      var f := Frames(row, n, k);
      assert f[1..] == Frames(row[k..], n - 1, k);
      FramesFlatten(row[k..], n - 1, k);
      assert Flatten(f) == f[0] + Flatten(f[1..]) && f[0] == row[..k];
      assert row == row[..k] + row[k..];
    }
  }

  /** `np.reshape(row, (sequence_size, -1))` and the frames it yields, or the
      failure numpy reports: a non-positive frame count, or a length the
      frame count does not divide. */
  function Reshape(row: seq<real>, sequenceSize: int): (r: Result<seq<seq<real>>>)
    ensures r.Ok? <==> sequenceSize > 0 && |row| % sequenceSize == 0
    ensures r.Err? ==> r.error == ReshapeFailed
    ensures r.Ok? ==> |r.value| == sequenceSize
    ensures r.Ok? ==> forall i :: 0 <= i < |r.value| ==> |r.value[i]| == |row| / sequenceSize
    ensures r.Ok? ==> Flatten(r.value) == row
  {
    if sequenceSize <= 0 || |row| % sequenceSize != 0 then Err(ReshapeFailed)
    else
      var k := |row| / sequenceSize;
      assert |row| == sequenceSize * k;
      FramesFlatten(row, sequenceSize, k);
      FramesLength(row, sequenceSize, k);
      Ok(Frames(row, sequenceSize, k))
  }

  /** The feature lists of one record (the branch on sparse storage in the
      row loop of `convert_vectors_to_sequence_example`). */
  function EncodeFeatures(sequenceSize: int, row: FeatureRow): (r: Result<Payload>)
    ensures row.SparseRow? ==> (r.Err? <==> sequenceSize != 1)
    ensures row.SparseRow? && r.Err? ==> r.error == SparseSequenceUnsupported
    ensures row.SparseRow? && r.Ok? ==>
      r.value.SparseInput? && r.value.colIndex == row.vector.indices && r.value.values == row.vector.values
      && |r.value.rowIndex| == |r.value.colIndex| && (forall j :: 0 <= j < |r.value.rowIndex| ==> r.value.rowIndex[j] == 0)
    ensures row.DenseRow? && sequenceSize == 1 ==> r == Ok(DenseInput([row.values]))
    ensures row.DenseRow? ==> (r.Err? <==> sequenceSize <= 0 || |row.values| % sequenceSize != 0)
    ensures row.DenseRow? && r.Err? ==> r.error == ReshapeFailed
    ensures row.DenseRow? && r.Ok? ==>
      && r.value.DenseInput? && |r.value.frames| == sequenceSize
      && Flatten(r.value.frames) == row.values
      && (forall i :: 0 <= i < |r.value.frames| ==> |r.value.frames[i]| == |row.values| / sequenceSize)
  {
    match row
    case SparseRow(v) =>
      if sequenceSize != 1 then Err(SparseSequenceUnsupported)
      else
        var (cols, rows, vals) := CsrFeatureVectorToLists(v);
        Ok(SparseInput(cols, rows, vals))
    case DenseRow(values) =>
      if sequenceSize == 1 then
        assert Flatten([values]) == values + Flatten([]);
        Ok(DenseInput([values]))
      else
        match Reshape(values, sequenceSize)
        case Err(e) => Err(e)
        case Ok(frames) => Ok(DenseInput(frames))
  }

  /** When the metadata passed the shape gate (T*H*W*C is the row width) and
      the storage is dense, or sparse with T == 1, every row encodes. */
  lemma AcceptedShapeEncodes(shapeT: int, shapeH: int, shapeW: int, shapeC: int, row: FeatureRow)
    requires row.DenseRow? ==> shapeT * shapeH * shapeW * shapeC == |row.values| && shapeT > 0
    requires row.SparseRow? ==> shapeT == 1
    ensures EncodeFeatures(shapeT, row).Ok?
  {
    if row.DenseRow? {
      assert shapeT * (shapeH * shapeW * shapeC) == |row.values|;
      MultipleMod(shapeT, shapeH * shapeW * shapeC);
    }
  }

  lemma MultipleMod(t: int, m: int)
    requires t > 0
    ensures (t * m) % t == 0
  {
    var q, r := (t * m) / t, (t * m) % t;
    assert t * (m - q) == r;
    assert m - q >= 1 ==> t * (m - q) >= t;
    assert m - q <= -1 ==> t * (m - q) <= -t;
  }
}
