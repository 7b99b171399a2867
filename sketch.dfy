/**
  Value model of the Frequent Directions sketch (class FrequentDirections in
  ASNet/ASModel.py): a `2d × n` buffer of rows and the cursor `nextZeroRow`.
  The class in frequent_directions.dfy is proved against these functions.

  The randomized SVD of the buffer is not computed here: `Svd` gives, for any
  buffer contents, the singular values and right singular directions that
  `randomized_svd(self._sketch.t(), self.d)` returns, and the square root
  used by the shrink step. Two things about it are relied on: its shapes, and
  that it is one fixed function of the buffer, so equal buffers get equal
  SVDs.
 */
module Sketch {
  import opened Base

  /**
    What `randomized_svd(B.t(), d)` yields for buffer rows `B`, entry by entry:
    `values(B, i)` is `s[i]`, `directions(B, i, j)` is `Vt[i, j]` (after the
    transpose in `__rotate__` and `get`); `sqrt` is `torch.sqrt`.
   */
  datatype Svd = Svd(
    values: (seq<seq<real>>, int) -> real,
    directions: (seq<seq<real>>, int, int) -> real,
    sqrt: real -> real)

  /** The fields of a FrequentDirections object: `n`, `d`, `_sketch` and `nextZeroRow` (`m` is `2 * d`). */
  datatype SketchState = SketchState(n: nat, d: nat, rows: seq<seq<real>>, next: int)

  /** What `get` returns: a block of rows, or singular values with their directions. */
  datatype Extracted =
    | Block(rows: seq<seq<real>>)
    | Spectrum(values: seq<real>, directions: seq<seq<real>>)

  /**
    The buffer invariant: exactly `m == 2d` rows of `n` entries, the cursor
    within `0..m`, and every row from the cursor on all zero.
   */
  predicate Inv(s: SketchState)
  {
    && |s.rows| == 2 * s.d
    && HasWidth(s.rows, s.n)
    && 0 <= s.next <= |s.rows|
    && (forall i :: s.next <= i < |s.rows| ==> IsZero(s.rows[i]))
  }

  /** `__init__(n, d)`: an all-zero `2d × n` buffer and the cursor at row 0. */
  function Init(n: nat, d: nat): (s: SketchState)
    ensures Inv(s) && s.n == n && s.d == d && s.next == 0
    ensures forall i :: 0 <= i < |s.rows| ==> IsZero(s.rows[i])
  {
    SketchState(n, d, seq(2 * d, _ => Zeros(n)), 0)
  }

  /**
    The number of singular triples `randomized_svd(self._sketch.t(), d)` yields:
    the reduced QR of the `n × d` projection has `min(n, d)` columns.
   */
  function Rank(s: SketchState): nat
  {
    Min(s.n, s.d)
  }

  /**
    `__rotate__` reads `s[self.d - 1]`, which is out of range (an IndexError)
    unless the SVD yielded at least `d >= 1` singular values.
   */
  predicate RotateRaises(s: SketchState)
  {
    s.d == 0 || s.n < s.d
  }

  function Square(x: real): real { x * x }

  /** `sShrunk[i] = sqrt(s[i]^2 - s[d-1]^2)`, the shrunk `i`-th singular value. */
  function Shrunk(s: SketchState, svd: Svd, i: int): real
    requires 0 < s.d
  {
    svd.sqrt(Square(svd.values(s.rows, i)) - Square(svd.values(s.rows, s.d - 1)))
  }

  /** Row `i` of `torch.diag(sShrunk) @ Vt[:d, :]`. */
  function ShrunkRow(s: SketchState, svd: Svd, i: int): (row: seq<real>)
    requires 0 < s.d
    ensures |row| == s.n
  {
    seq(s.n, j => Shrunk(s, svd, i) * svd.directions(s.rows, i, j))
  }

  /** The buffer after a successful `__rotate__`. */
  function Rotated(s: SketchState, svd: Svd): (t: SketchState)
    requires !RotateRaises(s)
    ensures Inv(t) && t.n == s.n && t.d == s.d && t.next == s.d
    ensures forall i :: 0 <= i < s.d ==> t.rows[i] == ShrunkRow(s, svd, i)
    ensures forall i :: s.d <= i < 2 * s.d ==> IsZero(t.rows[i])
  {
    var rows := seq(2 * s.d, i => if i < s.d then ShrunkRow(s, svd, i) else Zeros(s.n));
    assert forall i :: s.d <= i < 2 * s.d ==> rows[i] == Zeros(s.n);
    s.(rows := rows, next := s.d)
  }

  /** `__rotate__`: raises before touching the buffer, or rotates it. */
  function Rotate(s: SketchState, svd: Svd): (r: Result<SketchState>)
    ensures r.Err? <==> s.d == 0 || s.n < s.d
    ensures r.Err? ==> r.error == IndexError
    ensures r.Ok? ==> Inv(r.value) && r.value.next == s.d && r.value.n == s.n && r.value.d == s.d
    ensures r.Ok? ==> forall i :: s.d <= i < 2 * s.d ==> IsZero(r.value.rows[i])
  {
    if RotateRaises(s) then Err(IndexError) else Ok(Rotated(s, svd))
  }

  /** `self._sketch[self.nextZeroRow, :] = vector; self.nextZeroRow += 1`. */
  function Write(s: SketchState, v: seq<real>): SketchState
    requires 0 <= s.next < |s.rows|
  {
    s.(rows := s.rows[s.next := v], next := s.next + 1)
  }

  /**
    `append(vector)`: skip an all-zero vector; rotate first when the buffer is
    full (`nextZeroRow >= m`); then write the vector at the cursor.
   */
  function Append(s: SketchState, v: seq<real>, svd: Svd): (r: Result<SketchState>)
    requires Inv(s) && |v| == s.n
    ensures r.Ok? ==> Inv(r.value) && r.value.n == s.n && r.value.d == s.d
    ensures r.Err? ==> r.error == IndexError
  {
    if IsZero(v) then Ok(s)
    else if s.next >= 2 * s.d then
      match Rotate(s, svd)
      case Err(e) => Err(e)
      case Ok(t) => Ok(Write(t, v))
    else Ok(Write(s, v))
  }

  /**
    `for row in rows: sketch.append(row)`: appends in order and stops at the
    first exception, keeping what was appended before it.
   */
  function AppendRows(s: SketchState, vs: seq<seq<real>>, svd: Svd): (r: Step<SketchState>)
    requires Inv(s) && HasWidth(vs, s.n)
    ensures Inv(r.state) && r.state.n == s.n && r.state.d == s.d
    ensures r.Raised? ==> r.error == IndexError
    decreases |vs|
  {
    if vs == [] then Done(s)
    else
      match Append(s, vs[0], svd)
      case Err(e) => Raised(s, e)
      case Ok(t) => AppendRows(t, vs[1..], svd)
  }

  /**
    `get(rotate, take_root)`: with `rotate`, the top singular values and
    directions of a fresh randomized SVD (or the directions scaled by the roots
    of the values, with `take_root`); without it, the first `d` buffer rows.
   */
  function Get(s: SketchState, rotate: bool, takeRoot: bool, svd: Svd): (r: Extracted)
    requires Inv(s)
    ensures !rotate ==> r.Block? && |r.rows| == s.d
    ensures rotate && takeRoot ==> r.Block? && |r.rows| == Rank(s)
    ensures rotate && !takeRoot ==> r.Spectrum? && |r.values| == |r.directions| == Rank(s)
    ensures r.Block? ==> HasWidth(r.rows, s.n)
    ensures r.Spectrum? ==> HasWidth(r.directions, s.n)
  {
    if rotate then
      var k := Rank(s);
      if takeRoot then
        Block(seq(k, i => seq(s.n, j => svd.sqrt(svd.values(s.rows, i)) * svd.directions(s.rows, i, j))))
      else
        Spectrum(seq(k, i => svd.values(s.rows, i)), seq(k, i => seq(s.n, j => svd.directions(s.rows, i, j))))
    else
      Block(s.rows[..s.d])
  }

  /** The non-zero vectors of a stream, in stream order. */
  function NonZero(vs: seq<seq<real>>): (r: seq<seq<real>>)
    ensures |r| <= |vs|
  {
    if vs == [] then [] else (if IsZero(vs[0]) then [] else [vs[0]]) + NonZero(vs[1..])
  }

  // ---------------------------------------------------------------------------
  // Properties of one append
  // ---------------------------------------------------------------------------

  /** An all-zero vector leaves buffer and cursor as they were. */
  lemma AppendZeroIsNoOp(s: SketchState, v: seq<real>, svd: Svd)
    requires Inv(s) && |v| == s.n && IsZero(v)
    ensures Append(s, v, svd) == Ok(s)
  {
  }

  /**
    A non-zero vector appended below capacity lands in row `nextZeroRow`, the
    cursor advances by exactly one, and every other row is unchanged.
   */
  lemma AppendBelowCapacity(s: SketchState, v: seq<real>, svd: Svd)
    requires Inv(s) && |v| == s.n && !IsZero(v) && s.next < 2 * s.d
    ensures Append(s, v, svd).Ok?
    ensures var t := Append(s, v, svd).value;
      && t.next == s.next + 1
      && |t.rows| == |s.rows|
      && t.rows[s.next] == v
      && (forall i :: 0 <= i < |s.rows| && i != s.next ==> t.rows[i] == s.rows[i])
  {
  }

  /**
    A non-zero vector appended to a full buffer rotates it first: the first `d`
    rows become the shrunk block, the vector sits in row `d`, the rows after it
    are zero and the cursor is `d + 1`.
   */
  lemma AppendToFullBuffer(s: SketchState, v: seq<real>, svd: Svd)
    requires Inv(s) && |v| == s.n && !IsZero(v) && s.next == 2 * s.d && !RotateRaises(s)
    ensures Append(s, v, svd).Ok?
    ensures var t := Append(s, v, svd).value;
      && t.next == s.d + 1
      && t.rows[s.d] == v
      && (forall i :: 0 <= i < s.d ==> t.rows[i] == ShrunkRow(s, svd, i))
      && (forall i :: s.d < i < 2 * s.d ==> IsZero(t.rows[i]))
  {
  }

  /** `append` raises exactly when a non-zero vector meets a full buffer whose SVD is too small. */
  lemma AppendRaisesIff(s: SketchState, v: seq<real>, svd: Svd)
    requires Inv(s) && |v| == s.n
    ensures Append(s, v, svd).Err? <==> !IsZero(v) && s.next == 2 * s.d && RotateRaises(s)
    ensures Append(s, v, svd).Err? ==> Append(s, v, svd).error == IndexError
  {
  }

  /**
    The shrink subtracts the square of the last kept singular value, so that
    row's scale is `sqrt(0)`: with `sqrt(0) == 0` the rotated buffer has row
    `d - 1` all zero as well.
   */
  lemma RotateZeroesLastKeptRow(s: SketchState, svd: Svd)
    requires Inv(s) && !RotateRaises(s) && svd.sqrt(0.0) == 0.0
    ensures IsZero(Rotated(s, svd).rows[s.d - 1])
  {
    var last := svd.values(s.rows, s.d - 1);
    assert Square(last) - Square(last) == 0.0;
    assert Shrunk(s, svd, s.d - 1) == 0.0;
  }

  // ---------------------------------------------------------------------------
  // Properties of a stream of appends
  // ---------------------------------------------------------------------------

  /**
    The memory bound: whatever the length of the stream, the buffer keeps
    exactly `2d` rows of `n` entries and the cursor stays within them.
   */
  lemma StreamKeepsBufferSize(s: SketchState, vs: seq<seq<real>>, svd: Svd)
    requires Inv(s) && HasWidth(vs, s.n)
    ensures var t := AppendRows(s, vs, svd).state;
      |t.rows| == 2 * s.d && 0 <= t.next <= 2 * s.d
  {
  }

  /** Any number of all-zero vectors leaves the sketch, and hence `get`, unchanged. */
  lemma {:induction false} ZeroStreamIsNoOp(s: SketchState, vs: seq<seq<real>>, svd: Svd)
    requires Inv(s) && HasWidth(vs, s.n)
    requires forall i :: 0 <= i < |vs| ==> IsZero(vs[i])
    ensures AppendRows(s, vs, svd) == Done(s)
    ensures forall rotate, takeRoot :: Get(AppendRows(s, vs, svd).state, rotate, takeRoot, svd) == Get(s, rotate, takeRoot, svd)
    decreases |vs|
  {
    if vs != [] {
      assert IsZero(vs[0]);
      ZeroStreamIsNoOp(s, vs[1..], svd);
    }
  }

  /**
    A stream appended to a buffer with enough free rows is written in order:
    its non-zero vectors fill the rows from the cursor on, the rows before the
    cursor are unchanged, and the cursor advances by their number.
   */
  lemma {:induction false} StreamFillsInOrder(s: SketchState, vs: seq<seq<real>>, svd: Svd)
    requires Inv(s) && HasWidth(vs, s.n)
    requires s.next + |NonZero(vs)| <= 2 * s.d
    ensures AppendRows(s, vs, svd).Done?
    ensures var t := AppendRows(s, vs, svd).state;
      && t.next == s.next + |NonZero(vs)|
      && t.rows[..s.next] == s.rows[..s.next]
      && t.rows[s.next..t.next] == NonZero(vs)
    decreases |vs|
  {
    if vs != [] {
      var v := vs[0];
      assert HasWidth(vs[1..], s.n);
      if IsZero(v) {
        assert NonZero(vs) == NonZero(vs[1..]);
        StreamFillsInOrder(s, vs[1..], svd);
      } else {
        assert NonZero(vs) == [v] + NonZero(vs[1..]);
        var u := Write(s, v);
        assert Append(s, v, svd) == Ok(u);
        StreamFillsInOrder(u, vs[1..], svd);
        var t := AppendRows(u, vs[1..], svd).state;
        assert t.rows[..u.next] == u.rows[..u.next];
        assert t.rows[..s.next] == t.rows[..u.next][..s.next];
        assert t.rows[s.next] == t.rows[..u.next][s.next] == v;
        assert t.rows[s.next..t.next] == [t.rows[s.next]] + t.rows[u.next..t.next];
      }
    }
  }

  /** Only a sketch whose SVD is too small (`d == 0` or `n < d`) can raise on a stream. */
  lemma {:induction false} StreamRaisesOnlyWhenDegenerate(s: SketchState, vs: seq<seq<real>>, svd: Svd)
    requires Inv(s) && HasWidth(vs, s.n) && !RotateRaises(s)
    ensures AppendRows(s, vs, svd).Done?
    decreases |vs|
  {
    if vs != [] {
      assert HasWidth(vs[1..], s.n);
      var r := Append(s, vs[0], svd);
      AppendRaisesIff(s, vs[0], svd);
      StreamRaisesOnlyWhenDegenerate(r.value, vs[1..], svd);
    }
  }

  /**
    Once the cursor has reached `d` (as it does after the first rotation), it
    stays in `d..2d` whatever is appended.
   */
  lemma {:induction false} CursorStaysAtLeastRank(s: SketchState, vs: seq<seq<real>>, svd: Svd)
    requires Inv(s) && HasWidth(vs, s.n) && s.d <= s.next
    ensures s.d <= AppendRows(s, vs, svd).state.next <= 2 * s.d
    decreases |vs|
  {
    if vs != [] {
      assert HasWidth(vs[1..], s.n);
      match Append(s, vs[0], svd)
      case Err(_) =>
      case Ok(t) => CursorStaysAtLeastRank(t, vs[1..], svd);
    }
  }
}
