/**
  Shared vocabulary of the model: the exceptions the modelled code can raise,
  results that carry them, vectors of reals, captured gradient batches and the
  prefix length that Python's slice `[:stop]` keeps.
 */
module Base {

  /** The exceptions that the modelled code raises. */
  datatype Error =
    | IndexError     // `s[self.d - 1]` in FrequentDirections.__rotate__ is out of range
    | ValueError     // ASModel.change_r refuses a larger rank
    | AssertionError // compute_grad_matrix requires a gradient-tracked input
    | RuntimeError   // a tensor reshape torch cannot perform

  /** The value an operation returns, or the exception it raises. */
  datatype Result<T> = Ok(value: T) | Err(error: Error)

  /**
    The outcome of a loop whose body may raise: the state it ends in and, when an
    exception escaped it, that exception. Mutations made before the raise are kept
    in `state`, as Python keeps them.
   */
  datatype Step<T> = Done(state: T) | Raised(state: T, error: Error)

  function Min(a: int, b: int): int { if a <= b then a else b }

  function Max(a: int, b: int): int { if a <= b then b else a }

  /** `torch.nonzero(v).size(0) == 0`: the vector has no non-zero entry. */
  predicate IsZero(v: seq<real>)
  {
    forall i :: 0 <= i < |v| ==> v[i] == 0.0
  }

  function Zeros(n: nat): (v: seq<real>)
    ensures |v| == n && IsZero(v)
  {
    seq(n, _ => 0.0)
  }

  /** Every row of `rows` has exactly `width` entries. */
  predicate HasWidth(rows: seq<seq<real>>, width: nat)
  {
    forall i :: 0 <= i < |rows| ==> |rows[i]| == width
  }

  /**
    A gradient captured by a backward hook, flattened to `batch × cols`
    (`grad_out[0].view(bs, -1)`), or an input batch given to `forward`. The
    width is kept apart from the rows so that an empty batch still has one.
   */
  datatype Grad = Grad(cols: nat, rows: seq<seq<real>>)

  predicate WellFormed(g: Grad)
  {
    HasWidth(g.rows, g.cols)
  }

  /**
    The number of leading items that the Python slice `xs[:stop]` keeps from a
    sequence of `len` items: a negative `stop` counts from the end, and the
    result is clamped to `0..len`.
   */
  function SliceStop(stop: int, len: nat): (k: nat)
    ensures k <= len
    ensures 0 <= stop <= len ==> k == stop
    ensures len <= stop ==> k == len
  {
    if stop < 0 then Max(len + stop, 0) else Min(stop, len)
  }
}
