/**
  The FrequentDirections class of ASNet/ASModel.py: a fixed `m × n` buffer
  (`m = 2d`) updated row by row in place, and the cursor `nextZeroRow`. Each
  method is proved to move the object's state as the value model in
  sketch.dfy says.
 */
module FrequentDirectionsBuffer {
  import opened Base
  import opened Sketch

  class FrequentDirections {
    const n: nat
    const d: nat
    const m: nat
    const sketch: array2<real>
    var nextZeroRow: int

    /** The buffer's rows, as values. */
    function Rows(): (rows: seq<seq<real>>)
      reads sketch
      ensures |rows| == sketch.Length0 && HasWidth(rows, sketch.Length1)
    {
      seq(sketch.Length0, i requires 0 <= i < sketch.Length0 reads sketch =>
        seq(sketch.Length1, j requires 0 <= j < sketch.Length1 reads sketch => sketch[i, j]))
    }

    /** The object's fields, as a value of the model. */
    function State(): (s: SketchState)
      reads this, sketch
    {
      SketchState(n, d, Rows(), nextZeroRow)
    }

    ghost predicate Valid()
      reads this, sketch
    {
      m == 2 * d && sketch.Length0 == m && sketch.Length1 == n && Inv(State())
    }

    /** `__init__(n, d)`: `torch.zeros((2d, n))` and the cursor at row 0. */
    constructor (n: nat, d: nat)
      ensures Valid() && fresh(sketch)
      ensures State() == Init(n, d)
    {
      this.n := n;
      this.d := d;
      this.m := 2 * d;
      this.sketch := new real[2 * d, n]((_, _) => 0.0);
      this.nextZeroRow := 0;
      new;
      assert Rows() == Init(n, d).rows by {
        forall i | 0 <= i < 2 * d
          ensures Rows()[i] == Init(n, d).rows[i]
        {
          assert Rows()[i] == Zeros(n);
        }
      }
    }

    /**
      `append(vector)`: nothing for an all-zero vector; otherwise rotate a full
      buffer first and write the vector at the cursor. An IndexError raised by
      the rotation leaves the object untouched.
     */
    method Append(v: seq<real>, svd: Svd) returns (raised: bool)
      requires Valid() && |v| == n
      modifies this, sketch
      ensures Valid()
      ensures Sketch.Append(old(State()), v, svd) == if raised then Err(IndexError) else Ok(State())
      ensures raised ==> State() == old(State())
    {
      raised := false;
      if IsZero(v) {
        return;
      }
      if nextZeroRow >= m {
        raised := Rotate(svd);
        if raised {
          return;
        }
      }
      WriteRow(v);
    }

    /** `self._sketch[self.nextZeroRow, :] = vector; self.nextZeroRow += 1`. */
    method WriteRow(v: seq<real>)
      requires Valid() && |v| == n && 0 <= nextZeroRow < m
      modifies this, sketch
      ensures State() == Write(old(State()), v)
    {
      ghost var before := State();
      var row := nextZeroRow;
      forall j | 0 <= j < n {
        sketch[row, j] := v[j];
      }
      nextZeroRow := nextZeroRow + 1;
      assert Rows() == before.rows[row := v] by {
        forall i | 0 <= i < m
          ensures Rows()[i] == before.rows[row := v][i]
        {
          if i == row {
            assert Rows()[i] == v;
          } else {
            assert Rows()[i] == before.rows[i];
          }
        }
      }
    }

    /**
      `__rotate__`: replace the first `d` rows with the shrunk SVD block, zero
      the rest and put the cursor back at `d`; or raise the IndexError of
      `s[self.d - 1]` before anything is written.
     */
    method Rotate(svd: Svd) returns (raised: bool)
      requires Valid()
      modifies this, sketch
      ensures Valid()
      ensures Sketch.Rotate(old(State()), svd) == if raised then Err(IndexError) else Ok(State())
      ensures raised ==> State() == old(State())
    {
      if d == 0 || n < d {
        return true;
      }
      raised := false;
      var before := State();
      var block := seq(d, i requires 0 <= i < d => ShrunkRow(before, svd, i));
      forall i, j | 0 <= i < d && 0 <= j < n {
        sketch[i, j] := block[i][j];
      }
      forall i, j | d <= i < m && 0 <= j < n {
        sketch[i, j] := 0.0;
      }
      nextZeroRow := d;
      ghost var after := Rotated(before, svd);
      assert Rows() == after.rows by {
        forall i | 0 <= i < m
          ensures Rows()[i] == after.rows[i]
        {
          if i < d {
            assert Rows()[i] == block[i];
          } else {
            assert Rows()[i] == Zeros(n);
          }
        }
      }
    }

    /**
      `get(rotate, take_root)`: reads the buffer and changes nothing. Without
      `rotate` it returns exactly the first `d` rows.
     */
    method Get(rotate: bool, takeRoot: bool, svd: Svd) returns (r: Extracted)
      requires Valid()
      ensures r == Sketch.Get(State(), rotate, takeRoot, svd)
      ensures !rotate ==> r == Block(Rows()[..d])
    {
      r := Sketch.Get(State(), rotate, takeRoot, svd);
    }
  }
}
