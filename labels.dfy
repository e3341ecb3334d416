/** Label normalisation (binary and regression labels become two-column
    indicator rows) and the sparse label encoding written into each record. */
module Labels {
  import opened Types

  /** `binary_to_multilabel`: each label b becomes the row [1-b, b]. */
  function BinaryToMultilabel(b: seq<real>): (m: Matrix)
    ensures m.Valid() && m.width == 2 && |m.rows| == |b|
    ensures forall i :: 0 <= i < |b| ==> m.rows[i] == [1.0 - b[i], b[i]]
  {
    Matrix(seq(|b|, i requires 0 <= i < |b| => [1.0 - b[i], b[i]]), 2)
  }

  /** `regression_label > threshold`, as 0/1. */
  function Above(y: seq<real>, threshold: real): (b: seq<real>)
    ensures |b| == |y|
    ensures forall i :: 0 <= i < |y| ==> b[i] == if y[i] > threshold then 1.0 else 0.0
  {
    seq(|y|, i requires 0 <= i < |y| => if y[i] > threshold then 1.0 else 0.0)
  }

  /** `regression_to_multilabel` with the threshold already computed:
      column 1 is set exactly for the values strictly above it, so a value
      equal to the threshold gives [1, 0]. */
  function RegressionToMultilabel(y: seq<real>, threshold: real): (m: Matrix)
    ensures m.Valid() && m.width == 2 && |m.rows| == |y|
    ensures forall i :: 0 <= i < |y| ==> (y[i] > threshold <==> m.rows[i] == [0.0, 1.0])
    ensures forall i :: 0 <= i < |y| ==> (y[i] <= threshold <==> m.rows[i] == [1.0, 0.0])
  {
    BinaryToMultilabel(Above(y, threshold))
  }

  /** The task-dependent step of `_prepare_metadata_features_and_labels`:
      regression labels are cut at `getThreshold` of the split's own labels,
      binary labels are expanded, every other task passes through. */
  function NormalizeLabels(task: string, y: RawLabels, getThreshold: seq<real> -> real): (m: Matrix)
    requires (task == "regression" || task == "binary.classification") <==> y.Scalars?
    requires y.Table? ==> y.matrix.Valid()
    ensures m.Valid() && |m.rows| == y.Count()
    ensures y.Scalars? ==> m.width == 2
    ensures task == "binary.classification" ==>
      forall i :: 0 <= i < |m.rows| ==> m.rows[i] == [1.0 - y.values[i], y.values[i]]
    ensures task == "regression" ==>
      forall i :: 0 <= i < |m.rows| ==> (m.rows[i] == [0.0, 1.0] <==> y.values[i] > getThreshold(y.values))
    ensures task == "regression" ==>
      forall i :: 0 <= i < |m.rows| ==> (m.rows[i] == [1.0, 0.0] <==> y.values[i] <= getThreshold(y.values))
    ensures y.Table? ==> m == y.matrix
  {
    if task == "regression" then RegressionToMultilabel(y.values, getThreshold(y.values))
    else if task == "binary.classification" then BinaryToMultilabel(y.values)
    else y.matrix
  }

  /** Column 1 of the expanded binary labels gives back the labels, and each
      row sums to one. */
  lemma BinaryToMultilabelInverse(b: seq<real>)
    ensures var m := BinaryToMultilabel(b);
      && (forall i :: 0 <= i < |b| ==> m.rows[i][1] == b[i])
      && (forall i :: 0 <= i < |b| ==> m.rows[i][0] + m.rows[i][1] == 1.0)
  {
  }

  /** The indicator is monotone in the label: a larger value is never put
      below a smaller one. */
  lemma RegressionMonotone(y: seq<real>, threshold: real, i: nat, j: nat)
    requires i < |y| && j < |y| && y[i] <= y[j]
    ensures RegressionToMultilabel(y, threshold).rows[i][1] <= RegressionToMultilabel(y, threshold).rows[j][1]
  {
  }

  lemma BinaryExample()
    ensures BinaryToMultilabel([0.0, 1.0, 1.0, 0.0]).rows == [[1.0, 0.0], [0.0, 1.0], [0.0, 1.0], [1.0, 0.0]]
  {
  }

  /** Labels 1..5 cut at their median 3: the median itself is not above. */
  lemma RegressionExample()
    ensures RegressionToMultilabel([1.0, 2.0, 3.0, 4.0, 5.0], 3.0).rows
         == [[1.0, 0.0], [1.0, 0.0], [1.0, 0.0], [0.0, 1.0], [0.0, 1.0]]
  {
  }

  /** `indexes`/`scores` are the sparse encoding of `row`: the positions of
      its non-zero entries in increasing order, paired with their values. */
  predicate IsSparseLabel(row: seq<real>, indexes: seq<nat>, scores: seq<real>) {
    && |indexes| == |scores|
    && (forall j :: 0 <= j < |indexes| ==> indexes[j] < |row| && scores[j] == row[indexes[j]] && scores[j] != 0.0)
    && (forall j, k :: 0 <= j < k < |indexes| ==> indexes[j] < indexes[k])
    && (forall i :: 0 <= i < |row| && row[i] != 0.0 ==> i in indexes)
  }

  /** `dense_to_sparse_label` */
  method DenseToSparseLabel(row: seq<real>) returns (indexes: seq<nat>, scores: seq<real>)
    ensures IsSparseLabel(row, indexes, scores)
  {
    indexes, scores := [], [];
    for index := 0 to |row|
      invariant |indexes| == |scores|
      invariant forall j :: 0 <= j < |indexes| ==>
        indexes[j] < index && scores[j] == row[indexes[j]] && scores[j] != 0.0
      invariant forall j, k :: 0 <= j < k < |indexes| ==> indexes[j] < indexes[k]
      invariant forall i :: 0 <= i < index && row[i] != 0.0 ==> i in indexes
    {
      var value := row[index];
      if value != 0.0 {
        indexes := indexes + [index];
        scores := scores + [value];
      }
    }
  }

  /** Writes `scores[j]` at position `indexes[j]` of a zero row of length `width`. */
  function Scatter(width: nat, indexes: seq<nat>, scores: seq<real>): (r: seq<real>)
    requires |indexes| == |scores|
    requires forall j :: 0 <= j < |indexes| ==> indexes[j] < width
    ensures |r| == width
  {
    if indexes == [] then seq(width, _ => 0.0)
    else
      var n := |indexes| - 1;
      Scatter(width, indexes[..n], scores[..n])[indexes[n] := scores[n]]
  }

  lemma {:induction false} ScatterAt(width: nat, indexes: seq<nat>, scores: seq<real>, i: nat)
    requires |indexes| == |scores| && i < width
    requires forall j :: 0 <= j < |indexes| ==> indexes[j] < width
    requires forall j, k :: 0 <= j < k < |indexes| ==> indexes[j] != indexes[k]
    ensures i !in indexes ==> Scatter(width, indexes, scores)[i] == 0.0
    ensures forall j :: 0 <= j < |indexes| && indexes[j] == i ==> Scatter(width, indexes, scores)[i] == scores[j]
  {
    if indexes != [] {
      var n := |indexes| - 1;
      ScatterAt(width, indexes[..n], scores[..n], i);
      assert forall j :: 0 <= j < n ==> indexes[..n][j] == indexes[j];
      if i in indexes && i != indexes[n] {
        var j :| 0 <= j < |indexes| && indexes[j] == i;
        assert i in indexes[..n];
      }
    }
  }

  /** Scattering the sparse encoding back gives the dense label row. */
  lemma SparseLabelScatters(row: seq<real>, indexes: seq<nat>, scores: seq<real>)
    requires IsSparseLabel(row, indexes, scores)
    ensures Scatter(|row|, indexes, scores) == row
  {
    forall i | 0 <= i < |row|
      ensures Scatter(|row|, indexes, scores)[i] == row[i]
    {
      ScatterAt(|row|, indexes, scores, i);
    }
  }

  lemma {:induction false} IncreasingWithSameElements(a: seq<nat>, b: seq<nat>)
    requires forall j, k :: 0 <= j < k < |a| ==> a[j] < a[k]
    requires forall j, k :: 0 <= j < k < |b| ==> b[j] < b[k]
    requires forall x :: x in a <==> x in b
    ensures a == b
  {
    if a != [] && b != [] {
      assert a[0] in b && b[0] in a;
      assert a[0] == b[0];
      forall x ensures x in a[1..] <==> x in b[1..] {
        if x in a[1..] {
          assert x in b && x != b[0];
        }
        if x in b[1..] {
          assert x in a && x != a[0];
        }
      }
      IncreasingWithSameElements(a[1..], b[1..]);
      assert a == [a[0]] + a[1..] && b == [b[0]] + b[1..];
    } else {
      // one of them is empty, so the other has no elements either
      HeadIsElement(a);
      HeadIsElement(b);
    }
  }

  lemma HeadIsElement(s: seq<nat>)
    ensures |s| > 0 ==> s[0] in s
  {
  }

  /** A label row has exactly one sparse encoding, so the encoding written
      into a record is determined by the row. */
  lemma SparseLabelUnique(row: seq<real>, a: seq<nat>, s: seq<real>, b: seq<nat>, t: seq<real>)
    requires IsSparseLabel(row, a, s) && IsSparseLabel(row, b, t)
    ensures a == b && s == t
  {
    forall x ensures x in a <==> x in b {
      if x in a {
        var j :| 0 <= j < |a| && a[j] == x;
        assert row[x] != 0.0;
      }
      if x in b {
        var j :| 0 <= j < |b| && b[j] == x;
        assert row[x] != 0.0;
      }
    }
    IncreasingWithSameElements(a, b);
  }

  /** A 0/1 binary label expands to a one-hot row whose only index is the label. */
  lemma BinarySparseLabel(b: real)
    requires b == 0.0 || b == 1.0
    ensures IsSparseLabel([1.0 - b, b], [if b == 1.0 then 1 else 0], [1.0])
  {
  }
}
