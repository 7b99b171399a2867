/**
  The streamASEmbedding class of ASNet/ASModel.py: the dictionaries
  `activations` and `fds` (one FrequentDirections object per hooked layer),
  updated in place by `save_activation`, `fd_step` and `forward_backward`.
  Each method is proved to move the object's state as streaming.dfy says.
 */
module StreamCapture {
  import opened Base
  import opened Sketch
  import opened Streaming
  import opened FrequentDirectionsBuffer

  class StreamEmbedding {
    /** `batch_count`: the batch number after which the loop stops. */
    const batchCount: int
    /** The output width of each hooked layer, fixed by the network. */
    ghost const widths: map<int, nat>

    var activations: map<int, Grad>
    /** The keys of `activations` in insertion order, the order Python's dict iterates them. */
    var order: seq<int>
    var fds: map<int, FrequentDirections>

    /** The sketch objects of the table and their buffers. */
    ghost var Repr: set<object>

    /** Every sketch of the table and its buffer belong to `Repr`, and no two sketches share either. */
    ghost predicate Owns()
      reads this`fds, this`Repr
    {
      && (forall k :: k in fds ==> fds[k] in Repr && fds[k].sketch in Repr)
      && (forall k1, k2 :: k1 in fds && k2 in fds && k1 != k2 ==>
            fds[k1] != fds[k2] && fds[k1].sketch != fds[k2].sketch)
    }

    /** The table's sketches, as values. */
    ghost function Sketches(): map<int, SketchState>
      requires Owns()
      reads this`fds, this`Repr, Repr
    {
      map k | k in fds :: fds[k].State()
    }

    ghost function View(): Embedding
      requires Owns()
      reads this, Repr
    {
      Embedding(activations, order, Sketches())
    }

    /** Every sketch is valid; the dictionaries fit the layers' widths. */
    ghost predicate Valid()
      reads this, Repr
    {
      && Owns()
      && (forall k :: k in fds ==> fds[k].Valid())
      && Fit(View(), widths)
    }

    /** `__init__`: empty `activations` and `fds`. */
    constructor (batchCount: int, ghost widths: map<int, nat>)
      ensures Valid() && fresh(Repr)
      ensures this.batchCount == batchCount && this.widths == widths
      ensures View() == Empty()
    {
      this.batchCount := batchCount;
      this.widths := widths;
      activations := map[];
      order := [];
      fds := map[];
      Repr := {};
    }

    /**
      `save_activation(name, ...)`: the hook stores the layer's flattened
      gradient, replacing any earlier capture of that layer.
     */
    method SaveActivation(name: int, grad: Grad)
      requires Valid() && Fits(Capture(name, grad), widths)
      modifies this
      ensures Valid() && fds == old(fds) && Repr == old(Repr)
      ensures View() == Save(old(View()), Capture(name, grad))
    {
      ghost var e := View();
      SaveFits(e, Capture(name, grad), widths);
      if name !in activations {
        order := order + [name];
      }
      activations := activations[name := grad];
      assert Sketches() == e.table;
      assert View() == Save(e, Capture(name, grad));
    }

    /**
      `fd_step()`: for each captured layer, in insertion order, create its
      sketch on first sight or append every captured row to it. An IndexError
      from a sketch ends the step and is reported in `raised`.
     */
    method FdStep(svd: Svd) returns (raised: bool)
      requires Valid()
      modifies this, Repr
      ensures Valid() && fresh(Repr - old(Repr))
      ensures activations == old(activations) && order == old(order)
      ensures Streaming.FdStep(old(View()), svd, widths) == if raised then Raised(View(), IndexError) else Done(View())
    {
      ghost var t0 := Sketches();
      raised := false;
      var idx := 0;
      while idx < |order|
        invariant 0 <= idx <= |order|
        invariant Valid() && fresh(Repr - old(Repr))
        invariant activations == old(activations) && order == old(order)
        invariant StepKeys(t0, order, activations, svd, widths)
               == StepKeys(Sketches(), order[idx..], activations, svd, widths)
      {
        raised := StepLayer(idx, svd);
        if raised {
          return;
        }
        idx := idx + 1;
      }
      assert order[idx..] == [];
    }

    /**
      One turn of the loop of `fd_step`, for the layer `order[idx]`: create
      its sketch on first sight, otherwise append its captured rows.
     */
    method StepLayer(idx: int, svd: Svd) returns (raised: bool)
      requires Valid() && 0 <= idx < |order|
      modifies this, Repr
      ensures Valid() && fresh(Repr - old(Repr))
      ensures activations == old(activations) && order == old(order)
      ensures var r := StepKeys(old(Sketches()), order[idx..], activations, svd, widths);
        if raised then r == Raised(Sketches(), IndexError)
        else r == StepKeys(Sketches(), order[idx + 1..], activations, svd, widths)
    {
      ghost var t := Sketches();
      var key := order[idx];
      var grad := activations[key];
      assert order[idx..][0] == key && order[idx..][1..] == order[idx + 1..];
      assert Fits(Capture(key, grad), widths);
      raised := false;
      if key !in fds {
        var fd := new FrequentDirections(grad.cols, TargetRank(grad.cols));
        fds := fds[key := fd];
        Repr := Repr + {fd, fd.sketch};
        SketchAdded(key);
        assert Sketches() == t[key := Init(grad.cols, TargetRank(grad.cols))];
      } else {
        raised := AppendAll(key, grad.rows, svd);
        assert Sketches() == t[key := AppendRows(t[key], grad.rows, svd).state];
      }
    }

    /**
      `for row in rows: self.fds[key].append(row)`: the inner loop of
      `fd_step` for one layer's sketch; no other sketch changes.
     */
    method AppendAll(key: int, rows: seq<seq<real>>, svd: Svd) returns (raised: bool)
      requires Valid() && key in fds && HasWidth(rows, fds[key].n)
      modifies fds[key], fds[key].sketch
      ensures Valid() && fds == old(fds) && Repr == old(Repr)
      ensures var r := AppendRows(old(Sketches())[key], rows, svd);
        && Sketches() == old(Sketches())[key := r.state]
        && raised == r.Raised?
        && (r.Raised? ==> r.error == IndexError)
    {
      var fd := fds[key];
      raised := false;
      var j := 0;
      while j < |rows|
        invariant 0 <= j <= |rows|
        invariant Valid()
        invariant Sketches() == old(Sketches())[key := fd.State()]
        invariant AppendRows(old(Sketches())[key], rows, svd) == AppendRows(fd.State(), rows[j..], svd)
      {
        raised := fd.Append(rows[j], svd);
        OneSketchMoved(key);
        if raised {
          return;
        }
        j := j + 1;
      }
    }

    /**
      The backward pass of one batch: its hooks fire in order, each a
      `save_activation`; no sketch changes.
     */
    method Backward(batch: Batch)
      requires Valid() && BatchFits(batch, widths)
      modifies this
      ensures Valid() && fds == old(fds) && Repr == old(Repr)
      ensures View() == SaveAll(old(View()), batch)
    {
      for c := 0 to |batch|
        invariant Valid() && fds == old(fds) && Repr == old(Repr)
        invariant View() == SaveAll(old(View()), batch[..c])
      {
        assert Fits(batch[c], widths);
        SaveActivation(batch[c].key, batch[c].grad);
        assert batch[..c + 1][..c] == batch[..c];
      }
      assert batch[..|batch|] == batch;
    }

    /**
      `forward_backward`: for each batch of the loader, its backward pass fires
      the hooks, then `fd_step` runs, and only then does
      `batch_idx >= batch_count` end the loop.
     */
    method ForwardBackward(batches: seq<Batch>, svd: Svd) returns (raised: bool)
      requires Valid() && BatchesFit(batches, widths)
      modifies this, Repr
      ensures Valid() && fresh(Repr - old(Repr))
      ensures Run(old(View()), batches, 0, batchCount, svd, widths) == if raised then Raised(View(), IndexError) else Done(View())
    {
      ghost var e0 := View();
      raised := false;
      var batchIdx := 0;
      while batchIdx < |batches|
        invariant 0 <= batchIdx <= |batches|
        invariant Valid() && fresh(Repr - old(Repr))
        invariant Run(e0, batches, 0, batchCount, svd, widths)
               == Run(View(), batches[batchIdx..], batchIdx, batchCount, svd, widths)
      {
        var batch := batches[batchIdx];
        assert batches[batchIdx..][0] == batch && batches[batchIdx..][1..] == batches[batchIdx + 1..];
        assert BatchFits(batch, widths);
        RunUnfold(View(), batches[batchIdx..], batchIdx, batchCount, svd, widths);
        Backward(batch);
        raised := FdStep(svd);
        if raised {
          return;
        }
        if batchIdx >= batchCount {
          return;
        }
        batchIdx := batchIdx + 1;
      }
      assert batches[batchIdx..] == [];
    }

    /**
      Frame lemma: when one sketch object and its buffer are all that changed,
      the table's value changes at that key only and the object stays valid.
     */
    twostate lemma OneSketchMoved(key: int)
      requires old(Valid()) && key in old(fds)
      requires unchanged(this)
      requires forall k :: k in fds && k != key ==> unchanged(fds[k], fds[k].sketch)
      requires fds[key].Valid()
      ensures Valid()
      ensures Sketches() == old(Sketches())[key := fds[key].State()]
    {
      forall k | k in fds && k != key
        ensures fds[k].State() == old(fds[k].State()) && fds[k].Valid()
      {
      }
      assert Sketches() == old(Sketches())[key := fds[key].State()];
    }

    /**
      Frame lemma: adding a fresh, valid sketch of the layer's width and rank
      under a captured key that had none keeps the object valid.
     */
    twostate lemma SketchAdded(key: int)
      requires old(Valid()) && key !in old(fds) && key in activations
      requires activations == old(activations) && order == old(order)
      requires key in fds && fds == old(fds)[key := fds[key]]
      requires fresh(fds[key]) && fresh(fds[key].sketch) && fds[key].Valid()
      requires fds[key].State() == Init(activations[key].cols, TargetRank(activations[key].cols))
      requires Repr == old(Repr) + {fds[key], fds[key].sketch}
      requires forall k :: k in old(fds) ==> unchanged(old(fds)[k], old(fds)[k].sketch)
      ensures Valid()
      ensures Sketches() == old(Sketches())[key := fds[key].State()]
    {
      var fd := fds[key];
      forall k | k in fds && k != key
        ensures fds[k].State() == old(fds[k].State()) && fds[k].Valid()
        ensures fds[k] != fd && fds[k].sketch != fd.sketch
      {
      }
      var table := Sketches();
      assert table == old(Sketches())[key := fd.State()];
      assert Fits(Capture(key, activations[key]), widths);
      assert TableFits(table, widths);
      assert Fit(Embedding(activations, order, table), widths);
    }
  }
}
