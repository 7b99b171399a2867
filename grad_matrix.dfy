/**
  `compute_grad_matrix(x, fx)` of ASNet/ASModel.py: one backward pass per
  output class fills `jacobian[i]` with the input gradient for class `i`; the
  result stacks, for every sample in turn, its gradients for every class.
  The backward passes are given as a function `grad(i, s, f)`: the gradient of
  class `i`'s output with respect to feature `f` of sample `s`. The label
  broadcast of `get_AS_transform_input_smalldataset` is modelled here too.
 */
module GradMatrix {
  import opened Base

  /** The backward pass for class `i`, read at sample `s`, flattened feature `f`. */
  type Backward = (int, int, int) -> real

  /** `x.grad` after the backward pass for class `i`, at sample `s`. */
  function GradRow(grad: Backward, i: int, s: int, features: nat): (row: seq<real>)
    ensures |row| == features
  {
    seq(features, f => grad(i, s, f))
  }

  lemma MulMonotone(a: int, b: int, c: nat)
    requires a <= b
    ensures a * c <= b * c
  {
  }

  /** Euclidean division by `c > 0` has exactly one quotient and remainder. */
  lemma DivModUnique(k: int, c: nat, q: int, r: int)
    requires c > 0 && 0 <= r < c && k == q * c + r
    ensures k / c == q && k % c == r
  {
    var q1, r1 := k / c, k % c;
    if q1 < q {
      MulMonotone(q1 + 1, q, c);
      assert false;
    }
    if q < q1 {
      MulMonotone(q + 1, q1, c);
      assert false;
    }
  }

  /** Row `k` of an `(n × c)`-row matrix, read as sample `k / c`, class `k % c`. */
  lemma RowIndex(k: int, samples: nat, classes: nat)
    requires 0 <= k < samples * classes
    ensures classes > 0 && 0 <= k / classes < samples && 0 <= k % classes < classes
    ensures k == (k / classes) * classes + k % classes
  {
    if k / classes >= samples {
      MulMonotone(samples, k / classes, classes);
      assert false;
    }
  }

  /** Sample `s`, class `i` sits at row `s * c + i`, and nowhere else. */
  lemma RowOf(s: int, i: int, samples: nat, classes: nat)
    requires 0 <= s < samples && 0 <= i < classes
    ensures 0 <= s * classes + i < samples * classes
    ensures (s * classes + i) / classes == s && (s * classes + i) % classes == i
  {
    MulMonotone(s + 1, samples, classes);
    DivModUnique(s * classes + i, classes, s, i);
  }

  /**
    The value of `jacobian.transpose(0, 1).contiguous().view(n * c, -1)`:
    `n × c` rows of `features` entries, row `k` holding class `k % c` of
    sample `k / c`.
   */
  function Layout(grad: Backward, samples: nat, classes: nat, features: nat): (rows: seq<seq<real>>)
    ensures |rows| == samples * classes && HasWidth(rows, features)
  {
    seq(samples * classes, k requires 0 <= k < samples * classes =>
      RowIndex(k, samples, classes);
      GradRow(grad, k % classes, k / classes, features))
  }

  /**
    Row `s * c + i` of the gradient matrix is the input gradient of sample `s`
    for class `i`: the samples come in order, and within each the classes.
   */
  lemma LayoutRow(grad: Backward, samples: nat, classes: nat, features: nat, s: int, i: int)
    requires 0 <= s < samples && 0 <= i < classes
    ensures 0 <= s * classes + i < |Layout(grad, samples, classes, features)|
    ensures Layout(grad, samples, classes, features)[s * classes + i] == GradRow(grad, i, s, features)
  {
    RowOf(s, i, samples, classes);
  }

  /** Every row of the gradient matrix is the gradient of one sample for one class. */
  lemma LayoutCovers(grad: Backward, samples: nat, classes: nat, features: nat, k: int)
    requires 0 <= k < |Layout(grad, samples, classes, features)|
    ensures exists s, i ::
      && 0 <= s < samples && 0 <= i < classes && k == s * classes + i
      && Layout(grad, samples, classes, features)[k] == GradRow(grad, i, s, features)
  {
    RowIndex(k, samples, classes);
    var s, i := k / classes, k % classes;
    assert 0 <= s < samples && 0 <= i < classes && k == s * classes + i;
    assert Layout(grad, samples, classes, features)[k] == GradRow(grad, i, s, features);
  }

  /**
    `compute_grad_matrix(x, fx)` for `samples` inputs of `features` (flattened)
    entries and `classes` outputs: an AssertionError unless `x` tracks
    gradients; otherwise the loop of backward passes fills `jacobian`, and the
    final reshape is a RuntimeError when there are no rows to lay out.
   */
  method ComputeGradMatrix(requiresGrad: bool, samples: nat, classes: nat, features: nat, grad: Backward)
    returns (r: Result<seq<seq<real>>>)
    ensures !requiresGrad ==> r == Err(AssertionError)
    ensures requiresGrad && samples * classes == 0 ==> r == Err(RuntimeError)
    ensures requiresGrad && samples * classes > 0 ==> r == Ok(Layout(grad, samples, classes, features))
  {
    if !requiresGrad {
      return Err(AssertionError);
    }
    var jacobian := new real[classes, samples, features]((_, _, _) => 0.0);
    for i := 0 to classes
      invariant forall c, s, f :: 0 <= c < i && 0 <= s < samples && 0 <= f < features ==>
        jacobian[c, s, f] == grad(c, s, f)
    {
      forall s, f | 0 <= s < samples && 0 <= f < features {
        jacobian[i, s, f] := grad(i, s, f);
      }
    }
    if samples * classes == 0 {
      return Err(RuntimeError);
    }
    var rows := seq(samples * classes, k requires 0 <= k < samples * classes reads jacobian =>
      RowIndex(k, samples, classes);
      seq(features, f requires 0 <= f < features reads jacobian => jacobian[k % classes, k / classes, f]));
    assert rows == Layout(grad, samples, classes, features) by {
      forall k | 0 <= k < samples * classes
        ensures rows[k] == Layout(grad, samples, classes, features)[k]
      {
        RowIndex(k, samples, classes);
      }
    }
    r := Ok(rows);
  }

  /** `labels.repeat(n)` for a single label: `n` copies of it. */
  function Repeat(target: int, n: nat): (r: seq<int>)
    ensures |r| == n && forall j :: 0 <= j < n ==> r[j] == target
  {
    if n == 0 then [] else Repeat(target, n - 1) + [target]
  }

  /**
    A single label is repeated once per output row; any other label vector is
    used as given.
   */
  function BroadcastLabels(labels: seq<int>, batch: nat): (r: seq<int>)
    ensures |labels| == 1 ==> |r| == batch && forall j :: 0 <= j < batch ==> r[j] == labels[0]
    ensures |labels| != 1 ==> r == labels
  {
    if |labels| == 1 then Repeat(labels[0], batch) else labels
  }
}
