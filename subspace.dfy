/**
  The ASModel class of ASNet/ASModel.py: a projection onto the leading
  columns of a basis `V_full` (`features × r_max`), whose rank `r` can only be
  lowered by `change_r`. The basis is kept as its sequence of columns, so
  `r_max` is the number of columns even when there are no features.
 */
module Subspace {
  import opened Base

  function Dot(u: seq<real>, v: seq<real>): real
    requires |u| == |v|
    decreases |u|
  {
    if u == [] then 0.0 else u[0] * v[0] + Dot(u[1..], v[1..])
  }

  /** `x @ V` where `V` has the columns `cols`, all of length `features`. */
  function Project(x: seq<seq<real>>, cols: seq<seq<real>>, features: nat): (y: seq<seq<real>>)
    requires HasWidth(x, features) && HasWidth(cols, features)
    ensures |y| == |x| && HasWidth(y, |cols|)
  {
    seq(|x|, b requires 0 <= b < |x| => seq(|cols|, j requires 0 <= j < |cols| => Dot(x[b], cols[j])))
  }

  /**
    Keeping only the first `k` columns keeps the first `k` coordinates of
    every projected sample: lowering the rank truncates the embedding.
   */
  lemma ProjectPrefix(x: seq<seq<real>>, cols: seq<seq<real>>, features: nat, k: nat)
    requires HasWidth(x, features) && HasWidth(cols, features) && k <= |cols|
    ensures HasWidth(cols[..k], features)
    ensures forall b :: 0 <= b < |x| ==>
      Project(x, cols[..k], features)[b] == Project(x, cols, features)[b][..k]
  {
    assert HasWidth(cols[..k], features) by {
      forall j | 0 <= j < k
        ensures |cols[..k][j]| == features
      {
        assert cols[..k][j] == cols[j];
      }
    }
    forall b | 0 <= b < |x|
      ensures Project(x, cols[..k], features)[b] == Project(x, cols, features)[b][..k]
    {
      var lhs := Project(x, cols[..k], features)[b];
      var rhs := Project(x, cols, features)[b][..k];
      assert |lhs| == k == |rhs|;
      forall j | 0 <= j < k
        ensures lhs[j] == rhs[j]
      {
        assert cols[..k][j] == cols[j];
      }
    }
  }

  /** `change_r(r_new)` on a model of rank `r`: the new rank, or the ValueError. */
  function ChangeRank(r: int, rNew: int): (res: Result<int>)
    ensures res.Ok? <==> rNew <= r
    ensures res.Ok? ==> res.value == rNew
    ensures res.Err? ==> res.error == ValueError
  {
    if rNew > r then Err(ValueError) else Ok(rNew)
  }

  /** A sequence of `change_r` calls from rank `r`; the first ValueError ends it. */
  function ChangeRanks(r: int, rs: seq<int>): (res: Result<int>)
    ensures res.Ok? ==> res.value <= r
    ensures res.Err? ==> res.error == ValueError
    decreases |rs|
  {
    if rs == [] then Ok(r)
    else
      match ChangeRank(r, rs[0])
      case Err(e) => Err(e)
      case Ok(r1) => ChangeRanks(r1, rs[1..])
  }

  /** Each requested rank is at most the one before it, the first at most `r`. */
  predicate NonIncreasingFrom(r: int, rs: seq<int>)
  {
    && (|rs| > 0 ==> rs[0] <= r)
    && (forall i :: 0 < i < |rs| ==> rs[i] <= rs[i - 1])
  }

  /**
    A sequence of `change_r` calls succeeds exactly when the requested ranks
    never go up, and it ends at the last one requested: the rank of an
    ASModel can only be lowered.
   */
  lemma {:induction false} ChangeRanksSucceedIff(r: int, rs: seq<int>)
    ensures ChangeRanks(r, rs).Ok? <==> NonIncreasingFrom(r, rs)
    ensures ChangeRanks(r, rs).Ok? ==> ChangeRanks(r, rs).value == if rs == [] then r else rs[|rs| - 1]
    ensures ChangeRanks(r, rs).Err? ==> ChangeRanks(r, rs).error == ValueError
    decreases |rs|
  {
    if rs != [] {
      if rs[0] <= r {
        ChangeRanksSucceedIff(rs[0], rs[1..]);
        assert NonIncreasingFrom(r, rs) <==> NonIncreasingFrom(rs[0], rs[1..]) by {
          if NonIncreasingFrom(rs[0], rs[1..]) {
            forall i | 1 < i < |rs|
              ensures rs[i] <= rs[i - 1]
            {
              assert rs[1..][i - 1] == rs[i] && rs[1..][i - 2] == rs[i - 1];
            }
          }
          if NonIncreasingFrom(r, rs) {
            forall i | 0 < i < |rs[1..]|
              ensures rs[1..][i] <= rs[1..][i - 1]
            {
              assert rs[1..][i] == rs[i + 1];
            }
          }
        }
      }
    }
  }

  /**
    After successful `change_r` calls, every rank on the way, and the final
    one, is at most the starting rank.
   */
  lemma {:induction false} ChangeRanksOnlyLower(r: int, rs: seq<int>)
    requires ChangeRanks(r, rs).Ok?
    ensures ChangeRanks(r, rs).value <= r
    ensures forall i :: 0 <= i < |rs| ==> rs[i] <= r
    decreases |rs|
  {
    if rs != [] {
      ChangeRanksOnlyLower(rs[0], rs[1..]);
      forall i | 0 <= i < |rs|
        ensures rs[i] <= r
      {
        if i > 0 {
          assert rs[1..][i - 1] == rs[i];
        }
      }
    }
  }

  class ASModel {
    /** `V_full`, as its `r_max` columns, each of length `features`. */
    const basis: seq<seq<real>>
    const features: nat
    /** `r_max = V.shape[1]`. */
    const rMax: nat
    var r: int
    /** `V`: the leading columns of `V_full` in use. */
    var active: seq<seq<real>>

    ghost predicate Valid()
      reads this
    {
      && rMax == |basis|
      && HasWidth(basis, features)
      && |active| <= rMax
      && active == basis[..|active|]
      && HasWidth(active, features)
    }

    /**
      `__init__(V, r)`: `r_max` is the number of columns of `V`, the rank `r`
      starts at `r_max`, and only `V[:, :r]` is in use.
     */
    constructor (basis: seq<seq<real>>, features: nat, r: int)
      requires HasWidth(basis, features)
      ensures Valid()
      ensures this.basis == basis && this.features == features
      ensures this.rMax == |basis| && this.r == |basis|
      ensures active == basis[..SliceStop(r, |basis|)]
    {
      this.basis := basis;
      this.features := features;
      this.rMax := |basis|;
      this.r := |basis|;
      this.active := basis[..SliceStop(r, |basis|)];
    }

    /**
      `change_r(r_new)`: a ValueError when `r_new` exceeds the current rank,
      leaving the model as it was; otherwise the rank becomes `r_new` and
      `V_full[:, :r_new]` is in use.
     */
    method ChangeR(rNew: int) returns (raised: bool)
      requires Valid()
      modifies this
      ensures Valid()
      ensures ChangeRank(old(r), rNew) == if raised then Err(ValueError) else Ok(r)
      ensures raised ==> r == old(r) && active == old(active)
      ensures !raised ==> active == basis[..SliceStop(rNew, rMax)]
    {
      if rNew > r {
        return true;
      }
      raised := false;
      r := rNew;
      active := basis[..SliceStop(rNew, rMax)];
    }

    /**
      `forward(x)` on `x` already flattened to `batch × cols`: `x @ V`, one row
      of `|V|` coordinates per sample. The reshape of an empty batch and a
      width that does not match `V` are RuntimeErrors.
     */
    function Forward(x: Grad): (y: Result<seq<seq<real>>>)
      requires Valid() && WellFormed(x)
      reads this
      ensures y.Err? ==> y.error == RuntimeError
      ensures y.Ok? ==> |y.value| == |x.rows| > 0 && HasWidth(y.value, |active|)
      ensures x.cols == features && |x.rows| > 0 ==> y.Ok?
      ensures x.cols != features || |x.rows| == 0 ==> y == Err(RuntimeError)
    {
      if |x.rows| == 0 || x.cols != features then Err(RuntimeError)
      else Ok(Project(x.rows, active, features))
    }
  }
}
