/**
  Value model of streamASEmbedding in ASNet/ASModel.py: the captured
  gradients (`activations`), the per-layer sketch table (`fds`), the
  `fd_step` update and the `forward_backward` batch loop. The class in
  stream_embedding.dfy is proved against these functions.

  The backward pass itself is not modelled: each batch of the loader is given
  as the list of hook firings it causes, in firing order, each carrying the
  layer key and the gradient already flattened to `batch × width`.
 */
module Streaming {
  import opened Base
  import opened Sketch

  /** `minrank`, the global cap on a sketch's rank. */
  const MinRank: nat := 400

  /**
    `min(minrank, int(n_features * d_rate))` with `d_rate = 0.8`. The product
    is truncated toward zero, so it is `4 * width / 5` (exactly so in floating
    point for every width below 2^49).
   */
  function TargetRank(width: nat): (d: nat)
    ensures d <= width && d <= MinRank
    ensures d == 0 <==> width <= 1
    ensures width <= 500 ==> d == width * 4 / 5
    ensures 500 <= width ==> d == MinRank
  {
    Min(MinRank, width * 4 / 5)
  }

  /** One firing of a backward hook: `save_activation(key, mod, grad_inp, grad_out)`. */
  datatype Capture = Capture(key: int, grad: Grad)

  /** The hook firings of one batch's backward pass, in firing order. */
  type Batch = seq<Capture>

  /**
    The object's fields: `activations` (with `order`, its keys in insertion
    order, which is the order `for key in self.activations` visits them) and
    the sketch table `fds`.
   */
  datatype Embedding = Embedding(acts: map<int, Grad>, order: seq<int>, table: map<int, SketchState>)

  /** The empty dictionaries of `__init__`. */
  function Empty(): Embedding
  {
    Embedding(map[], [], map[])
  }

  /**
    A captured gradient of a hooked layer has that layer's fixed width and at
    least one row: `grad_out[0].view(bs, -1)` cannot reshape an empty batch.
   */
  predicate Fits(c: Capture, widths: map<int, nat>)
  {
    c.key in widths && WellFormed(c.grad) && c.grad.cols == widths[c.key] && |c.grad.rows| > 0
  }

  predicate BatchFits(batch: Batch, widths: map<int, nat>)
  {
    forall j :: 0 <= j < |batch| ==> Fits(batch[j], widths)
  }

  predicate BatchesFit(batches: seq<Batch>, widths: map<int, nat>)
  {
    forall i :: 0 <= i < |batches| ==> BatchFits(batches[i], widths)
  }

  predicate Distinct(keys: seq<int>)
  {
    forall i, j :: 0 <= i < j < |keys| ==> keys[i] != keys[j]
  }

  /** Every captured gradient has its layer's width. */
  predicate ActsFit(acts: map<int, Grad>, widths: map<int, nat>)
  {
    forall k :: k in acts ==> Fits(Capture(k, acts[k]), widths)
  }

  /**
    Every sketch satisfies the buffer invariant, has its layer's width and the
    rank `fd_step` gives that width.
   */
  predicate TableFits(table: map<int, SketchState>, widths: map<int, nat>)
  {
    forall k :: k in table ==>
      && k in widths
      && Inv(table[k])
      && table[k].n == widths[k]
      && table[k].d == TargetRank(widths[k])
  }

  /** The invariant of a streamASEmbedding object. */
  ghost predicate Fit(e: Embedding, widths: map<int, nat>)
  {
    && ActsFit(e.acts, widths)
    && Distinct(e.order)
    && (forall i :: 0 <= i < |e.order| ==> e.order[i] in e.acts)
    && (forall k :: k in e.acts ==> k in e.order)
    && e.table.Keys <= e.acts.Keys
    && TableFits(e.table, widths)
  }

  /**
    `save_activation`: `self.activations[name] = [grad]` overwrites what was
    captured before for that layer; a new key goes to the end of the order.
   */
  function Save(e: Embedding, c: Capture): (r: Embedding)
    ensures r.acts.Keys == e.acts.Keys + {c.key} && r.acts[c.key] == c.grad
    ensures forall k :: k in e.acts && k != c.key ==> r.acts[k] == e.acts[k]
    ensures c.key in e.acts ==> r.order == e.order
    ensures c.key !in e.acts ==> r.order == e.order + [c.key]
    ensures r.table == e.table
  {
    e.(acts := e.acts[c.key := c.grad], order := if c.key in e.acts then e.order else e.order + [c.key])
  }

  /** The hook firings of one backward pass, in order. */
  function SaveAll(e: Embedding, batch: Batch): (r: Embedding)
    ensures r.table == e.table
    decreases |batch|
  {
    if batch == [] then e else Save(SaveAll(e, batch[..|batch| - 1]), batch[|batch| - 1])
  }

  /**
    The body of `fd_step` for the keys `keys`, in order: a key without a
    sketch gets a new one sized from its captured width (and none of its rows);
    a key with one has every captured row appended, in order. An exception
    ends the step, keeping what was done before it.
   */
  function StepKeys(t: map<int, SketchState>, keys: seq<int>, acts: map<int, Grad>, svd: Svd, ghost widths: map<int, nat>): (r: Step<map<int, SketchState>>)
    requires TableFits(t, widths) && ActsFit(acts, widths)
    requires forall i :: 0 <= i < |keys| ==> keys[i] in acts
    ensures TableFits(r.state, widths)
    ensures t.Keys <= r.state.Keys <= t.Keys + set i | 0 <= i < |keys| :: keys[i]
    ensures r.Done? ==> r.state.Keys == t.Keys + set i | 0 <= i < |keys| :: keys[i]
    ensures r.Raised? ==> r.error == IndexError
    decreases |keys|
  {
    if keys == [] then Done(t)
    else
      var key := keys[0];
      var g := acts[key];
      assert Fits(Capture(key, g), widths);
      if key !in t then
        StepKeys(t[key := Init(g.cols, TargetRank(g.cols))], keys[1..], acts, svd, widths)
      else
        match AppendRows(t[key], g.rows, svd)
        case Done(s) => StepKeys(t[key := s], keys[1..], acts, svd, widths)
        case Raised(s, err) => Raised(t[key := s], err)
  }

  /** `fd_step()`: one pass over the captured layers. */
  function FdStep(e: Embedding, svd: Svd, ghost widths: map<int, nat>): (r: Step<Embedding>)
    requires Fit(e, widths)
    ensures Fit(r.state, widths)
    ensures r.state.acts == e.acts && r.state.order == e.order
    ensures r.Raised? ==> r.error == IndexError
  {
    match StepKeys(e.table, e.order, e.acts, svd, widths)
    case Done(t) => Done(e.(table := t))
    case Raised(t, err) => Raised(e.(table := t), err)
  }

  /**
    The loop of `forward_backward`, from batch number `batchIdx` on: the
    backward pass fires the hooks, `fd_step` runs, and only then is
    `batch_idx >= batch_count` tested.
   */
  function Run(e: Embedding, batches: seq<Batch>, batchIdx: int, batchCount: int, svd: Svd, ghost widths: map<int, nat>): (r: Step<Embedding>)
    requires Fit(e, widths) && BatchesFit(batches, widths)
    ensures Fit(r.state, widths)
    ensures r.Raised? ==> r.error == IndexError
    decreases |batches|
  {
    if batches == [] then Done(e)
    else
      SaveAllFits(e, batches[0], widths);
      match FdStep(SaveAll(e, batches[0]), svd, widths)
      case Raised(p, err) => Raised(p, err)
      case Done(next) =>
        if batchIdx >= batchCount then Done(next)
        else Run(next, batches[1..], batchIdx + 1, batchCount, svd, widths)
  }

  /** The same loop without its early exit: every batch is processed. */
  function RunAll(e: Embedding, batches: seq<Batch>, svd: Svd, ghost widths: map<int, nat>): (r: Step<Embedding>)
    requires Fit(e, widths) && BatchesFit(batches, widths)
    ensures Fit(r.state, widths)
    decreases |batches|
  {
    if batches == [] then Done(e)
    else
      SaveAllFits(e, batches[0], widths);
      match FdStep(SaveAll(e, batches[0]), svd, widths)
      case Raised(p, err) => Raised(p, err)
      case Done(next) => RunAll(next, batches[1..], svd, widths)
  }

  /**
    How many of `len` remaining batches the loop consumes when the first of
    them is number `batchIdx`: it stops after the batch whose number reaches
    `batchCount`, so up to `batchCount + 1` batches in all.
   */
  function Consumed(len: nat, batchIdx: int, batchCount: int): (k: nat)
    ensures k <= len
  {
    if len == 0 then 0 else Min(len, Max(batchCount - batchIdx, 0) + 1)
  }

  /** The captured rows of layer `key` in a batch: the last firing for that key wins. */
  function LastCapture(batch: Batch, key: int): (r: Option<Grad>)
    decreases |batch|
  {
    if batch == [] then None
    else if batch[|batch| - 1].key == key then Some(batch[|batch| - 1].grad)
    else LastCapture(batch[..|batch| - 1], key)
  }

  datatype Option<T> = None | Some(value: T)

  /**
    The rows of layer `key` that the batches feed its sketch, in stream order:
    for each batch, the rows of its last capture of that layer.
   */
  function StreamOf(batches: seq<Batch>, key: int): seq<seq<real>>
    requires forall i :: 0 <= i < |batches| ==> LastCapture(batches[i], key).Some?
    decreases |batches|
  {
    if batches == [] then [] else LastCapture(batches[0], key).value.rows + StreamOf(batches[1..], key)
  }

  // ---------------------------------------------------------------------------
  // Lemmas
  // ---------------------------------------------------------------------------

  /** One turn of the loop of `forward_backward`: the first batch, then the rest. */
  lemma RunUnfold(e: Embedding, batches: seq<Batch>, batchIdx: int, batchCount: int, svd: Svd, widths: map<int, nat>)
    requires Fit(e, widths) && BatchesFit(batches, widths) && batches != []
    ensures Fit(SaveAll(e, batches[0]), widths) && BatchesFit(batches[1..], widths)
    ensures var step := FdStep(SaveAll(e, batches[0]), svd, widths);
      Run(e, batches, batchIdx, batchCount, svd, widths) ==
        if step.Raised? || batchIdx >= batchCount then step
        else Run(step.state, batches[1..], batchIdx + 1, batchCount, svd, widths)
    ensures var step := FdStep(SaveAll(e, batches[0]), svd, widths);
      RunAll(e, batches, svd, widths) ==
        if step.Raised? then step else RunAll(step.state, batches[1..], svd, widths)
  {
    SaveAllFits(e, batches[0], widths);
    assert BatchesFit(batches[1..], widths);
  }

  /** Saving one capture of a layer's width keeps the object invariant. */
  lemma SaveFits(e: Embedding, c: Capture, widths: map<int, nat>)
    requires Fit(e, widths) && Fits(c, widths)
    ensures Fit(Save(e, c), widths)
  {
    var e2 := Save(e, c);
    if c.key !in e.acts {
      forall i, j | 0 <= i < j < |e2.order|
        ensures e2.order[i] != e2.order[j]
      {
        if j == |e.order| {
          assert e.order[i] in e.acts;
        }
      }
    }
  }

  /** Saving a batch's captures keeps the object invariant. */
  lemma {:induction false} SaveAllFits(e: Embedding, batch: Batch, widths: map<int, nat>)
    requires Fit(e, widths) && BatchFits(batch, widths)
    ensures Fit(SaveAll(e, batch), widths)
    decreases |batch|
  {
    if batch != [] {
      var init := batch[..|batch| - 1];
      assert BatchFits(init, widths);
      SaveAllFits(e, init, widths);
      assert Fits(batch[|batch| - 1], widths);
      SaveFits(SaveAll(e, init), batch[|batch| - 1], widths);
    }
  }

  /**
    After a backward pass a layer's captured gradient is that of its last hook
    firing in the batch (earlier captures are overwritten, not accumulated);
    a layer with no firing keeps its previous capture.
   */
  lemma {:induction false} SaveAllKeepsLastCapture(e: Embedding, batch: Batch, key: int)
    ensures LastCapture(batch, key).Some? ==>
      key in SaveAll(e, batch).acts && SaveAll(e, batch).acts[key] == LastCapture(batch, key).value
    ensures LastCapture(batch, key).None? ==>
      (key in SaveAll(e, batch).acts <==> key in e.acts) &&
      (key in e.acts ==> SaveAll(e, batch).acts[key] == e.acts[key])
    decreases |batch|
  {
    if batch != [] {
      SaveAllKeepsLastCapture(e, batch[..|batch| - 1], key);
    }
  }

  /**
    What `fd_step` does to one sketch, key by key: a key it visits that had no
    sketch gets a fresh one of its captured width and rank `TargetRank`, with
    none of the batch's rows; a key that had one gets every captured row
    appended in order; every other sketch is unchanged.
   */
  lemma {:induction false} StepKeysPerKey(t: map<int, SketchState>, keys: seq<int>, acts: map<int, Grad>, svd: Svd, widths: map<int, nat>, key: int)
    requires TableFits(t, widths) && ActsFit(acts, widths)
    requires forall i :: 0 <= i < |keys| ==> keys[i] in acts
    requires Distinct(keys)
    requires StepKeys(t, keys, acts, svd, widths).Done?
    ensures var r := StepKeys(t, keys, acts, svd, widths).state;
      && (key in keys && key !in t ==>
            key in r && r[key] == Init(acts[key].cols, TargetRank(acts[key].cols)))
      && (key in keys && key in t ==>
            key in r && r[key] == AppendRows(t[key], acts[key].rows, svd).state
            && AppendRows(t[key], acts[key].rows, svd).Done?)
      && (key !in keys && key in t ==> key in r && r[key] == t[key])
      && (key !in keys && key !in t ==> key !in r)
    decreases |keys|
  {
    if keys != [] {
      var k0 := keys[0];
      var g := acts[k0];
      assert Fits(Capture(k0, g), widths);
      assert Distinct(keys[1..]);
      assert forall i :: 0 <= i < |keys[1..]| ==> keys[1..][i] != k0;
      assert key in keys && key != k0 ==> key in keys[1..];
      if k0 !in t {
        StepKeysPerKey(t[k0 := Init(g.cols, TargetRank(g.cols))], keys[1..], acts, svd, widths, key);
      } else {
        var a := AppendRows(t[k0], g.rows, svd);
        assert a.Done?;
        StepKeysPerKey(t[k0 := a.state], keys[1..], acts, svd, widths, key);
      }
    }
  }

  /**
    The loop stops after the batch whose number reaches `batch_count`: it
    processes exactly the first `Consumed` batches (`batch_count + 1` of them
    when the loader has that many), as if it had no early exit.
   */
  lemma {:induction false} RunConsumesPrefix(e: Embedding, batches: seq<Batch>, batchIdx: int, batchCount: int, svd: Svd, widths: map<int, nat>)
    requires Fit(e, widths) && BatchesFit(batches, widths)
    ensures var k := Consumed(|batches|, batchIdx, batchCount);
      BatchesFit(batches[..k], widths) &&
      Run(e, batches, batchIdx, batchCount, svd, widths) == RunAll(e, batches[..k], svd, widths)
    decreases |batches|
  {
    var k := Consumed(|batches|, batchIdx, batchCount);
    assert BatchesFit(batches[..k], widths);
    if batches != [] {
      var prefix := batches[..k];
      assert prefix[0] == batches[0];
      RunUnfold(e, batches, batchIdx, batchCount, svd, widths);
      RunUnfold(e, prefix, batchIdx, batchCount, svd, widths);
      var step := FdStep(SaveAll(e, batches[0]), svd, widths);
      if step.Done? {
        if batchIdx >= batchCount {
          assert k == 1;
          assert prefix[1..] == [];
        } else {
          RunConsumesPrefix(step.state, batches[1..], batchIdx + 1, batchCount, svd, widths);
          assert prefix[1..] == batches[1..][..Consumed(|batches| - 1, batchIdx + 1, batchCount)];
        }
      }
    }
  }

  /** Appending two streams one after the other is appending their concatenation. */
  lemma {:induction false} AppendRowsConcat(s: SketchState, a: seq<seq<real>>, b: seq<seq<real>>, svd: Svd)
    requires Inv(s) && HasWidth(a, s.n) && HasWidth(b, s.n)
    requires AppendRows(s, a, svd).Done?
    ensures HasWidth(a + b, s.n)
    ensures AppendRows(s, a + b, svd) == AppendRows(AppendRows(s, a, svd).state, b, svd)
    decreases |a|
  {
    assert HasWidth(a + b, s.n);
    if a != [] {
      assert (a + b)[0] == a[0] && (a + b)[1..] == a[1..] + b;
      assert HasWidth(a[1..], s.n);
      var t := Append(s, a[0], svd);
      assert t.Ok?;
      assert AppendRows(s, a, svd) == AppendRows(t.value, a[1..], svd);
      assert AppendRows(s, a + b, svd) == AppendRows(t.value, a[1..] + b, svd);
      AppendRowsConcat(t.value, a[1..], b, svd);
    } else {
      assert a + b == b;
    }
  }

  /**
    Over a run with no exception, the sketch of a layer that already has one
    and is captured in every batch receives exactly that layer's captured
    rows, batch after batch, in order.
   */
  lemma {:induction false} RunAllFeedsStream(e: Embedding, batches: seq<Batch>, svd: Svd, widths: map<int, nat>, key: int)
    requires Fit(e, widths) && BatchesFit(batches, widths)
    requires key in e.table
    requires forall i :: 0 <= i < |batches| ==> LastCapture(batches[i], key).Some?
    requires RunAll(e, batches, svd, widths).Done?
    ensures HasWidth(StreamOf(batches, key), e.table[key].n)
    ensures var r := RunAll(e, batches, svd, widths).state;
      && key in r.table
      && AppendRows(e.table[key], StreamOf(batches, key), svd) == Done(r.table[key])
    decreases |batches|
  {
    StreamOfFits(batches, widths, key);
    if batches != [] {
      SaveAllFits(e, batches[0], widths);
      var saved := SaveAll(e, batches[0]);
      SaveAllKeepsLastCapture(e, batches[0], key);
      var g := LastCapture(batches[0], key).value;
      assert saved.acts[key] == g;
      var step := FdStep(saved, svd, widths);
      assert step.Done?;
      var next := step.state;
      StepKeysPerKey(saved.table, saved.order, saved.acts, svd, widths, key);
      assert key in saved.order;
      var s := e.table[key];
      assert next.table[key] == AppendRows(s, g.rows, svd).state;
      assert BatchesFit(batches[1..], widths);
      assert forall i :: 0 <= i < |batches[1..]| ==> LastCapture(batches[1..][i], key).Some?;
      RunAllFeedsStream(next, batches[1..], svd, widths, key);
      assert StreamOf(batches, key) == g.rows + StreamOf(batches[1..], key);
      StreamOfFits(batches[1..], widths, key);
      AppendRowsConcat(s, g.rows, StreamOf(batches[1..], key), svd);
    }
  }

  /** The rows a layer's captures contribute all have that layer's width. */
  lemma {:induction false} StreamOfFits(batches: seq<Batch>, widths: map<int, nat>, key: int)
    requires BatchesFit(batches, widths)
    requires forall i :: 0 <= i < |batches| ==> LastCapture(batches[i], key).Some?
    ensures |batches| > 0 ==> key in widths && HasWidth(StreamOf(batches, key), widths[key])
    decreases |batches|
  {
    if batches != [] {
      LastCaptureFits(batches[0], widths, key);
      assert BatchesFit(batches[1..], widths);
      assert forall i :: 0 <= i < |batches[1..]| ==> LastCapture(batches[1..][i], key).Some?;
      StreamOfFits(batches[1..], widths, key);
    }
  }

  lemma {:induction false} LastCaptureFits(batch: Batch, widths: map<int, nat>, key: int)
    requires BatchFits(batch, widths) && LastCapture(batch, key).Some?
    ensures Fits(Capture(key, LastCapture(batch, key).value), widths)
    decreases |batch|
  {
    if batch[|batch| - 1].key != key {
      assert BatchFits(batch[..|batch| - 1], widths);
      LastCaptureFits(batch[..|batch| - 1], widths, key);
    } else {
      assert Fits(batch[|batch| - 1], widths);
    }
  }

  /**
    End to end: starting from empty dictionaries, when the loop raises no
    exception and a layer is captured in every consumed batch, its sketch has
    that layer's width, rank `TargetRank(width)`, and holds exactly the
    captured rows of batches 1 to `Consumed - 1`: the first batch only creates
    the sketch and its rows never reach it.
   */
  lemma {:induction false} SketchOfLayer(batches: seq<Batch>, batchCount: int, svd: Svd, widths: map<int, nat>, key: int)
    requires BatchesFit(batches, widths)
    requires Run(Empty(), batches, 0, batchCount, svd, widths).Done?
    requires 0 < |batches|
    requires forall i :: 0 <= i < Consumed(|batches|, 0, batchCount) ==> LastCapture(batches[i], key).Some?
    ensures var k := Consumed(|batches|, 0, batchCount);
      var r := Run(Empty(), batches, 0, batchCount, svd, widths).state;
      && key in widths && key in r.table
      && HasWidth(StreamOf(batches[1..k], key), widths[key])
      && AppendRows(Init(widths[key], TargetRank(widths[key])), StreamOf(batches[1..k], key), svd) == Done(r.table[key])
  {
    var k := Consumed(|batches|, 0, batchCount);
    RunConsumesPrefix(Empty(), batches, 0, batchCount, svd, widths);
    var prefix := batches[..k];
    assert prefix[0] == batches[0] && prefix[1..] == batches[1..k];
    assert BatchesFit(prefix, widths);
    RunUnfold(Empty(), prefix, 0, batchCount, svd, widths);
    var step := FdStep(SaveAll(Empty(), batches[0]), svd, widths);
    FirstBatchCreatesSketch(batches[0], svd, widths, key);
    assert BatchesFit(batches[1..k], widths);
    assert forall i :: 0 <= i < |batches[1..k]| ==> LastCapture(batches[1..k][i], key).Some?;
    RunAllFeedsStream(step.state, batches[1..k], svd, widths, key);
  }

  /**
    The hypotheses of `SketchOfLayer` can be met: one batch holding one
    non-empty capture of a 3-wide layer, with `batch_count = 0`.
   */
  lemma SketchOfLayerApplies(svd: Svd)
    ensures var batches := [[Capture(7, Grad(3, [[1.0, 0.0, 0.0]]))]];
      var widths := map[7 := 3];
      && BatchesFit(batches, widths)
      && Run(Empty(), batches, 0, 0, svd, widths).Done?
      && forall i :: 0 <= i < Consumed(|batches|, 0, 0) ==> LastCapture(batches[i], 7).Some?
  {
    var batches := [[Capture(7, Grad(3, [[1.0, 0.0, 0.0]]))]];
    var widths := map[7 := 3];
    assert Fits(batches[0][0], widths);
    assert BatchesFit(batches, widths);
    WideLayersNeverRaise(Empty(), batches, 0, 0, svd, widths);
    assert LastCapture(batches[0], 7).Some?;
  }

  /**
    The first batch in which a layer fires creates its sketch, of the layer's
    width and rank `TargetRank`, with none of that batch's rows.
   */
  lemma FirstBatchCreatesSketch(batch: Batch, svd: Svd, widths: map<int, nat>, key: int)
    requires BatchFits(batch, widths) && LastCapture(batch, key).Some?
    requires Fit(SaveAll(Empty(), batch), widths)
    requires FdStep(SaveAll(Empty(), batch), svd, widths).Done?
    ensures key in widths
    ensures var r := FdStep(SaveAll(Empty(), batch), svd, widths).state;
      key in r.table && r.table[key] == Init(widths[key], TargetRank(widths[key]))
  {
    LastCaptureFits(batch, widths, key);
    var saved := SaveAll(Empty(), batch);
    SaveAllKeepsLastCapture(Empty(), batch, key);
    StepKeysPerKey(saved.table, saved.order, saved.acts, svd, widths, key);
    assert key in saved.order;
  }

  /**
    The memory bound of the whole table: every sketch keeps `2 * TargetRank`
    rows, never more than `2 * minrank`, however many batches were streamed.
   */
  lemma TableMemoryBound(e: Embedding, widths: map<int, nat>)
    requires Fit(e, widths)
    ensures forall k :: k in e.table ==> |e.table[k].rows| <= 2 * MinRank
  {
  }

  /**
    Only a layer of width 0 or 1 (whose sketch gets rank 0) can make
    `forward_backward` raise: with every hooked layer at least 2 wide, the loop
    never raises.
   */
  lemma {:induction false} WideLayersNeverRaise(e: Embedding, batches: seq<Batch>, batchIdx: int, batchCount: int, svd: Svd, widths: map<int, nat>)
    requires Fit(e, widths) && BatchesFit(batches, widths)
    requires forall k :: k in widths ==> widths[k] >= 2
    ensures Run(e, batches, batchIdx, batchCount, svd, widths).Done?
    decreases |batches|
  {
    if batches != [] {
      SaveAllFits(e, batches[0], widths);
      var saved := SaveAll(e, batches[0]);
      StepKeysNeverRaise(saved.table, saved.order, saved.acts, svd, widths);
      var next := FdStep(saved, svd, widths).state;
      assert BatchesFit(batches[1..], widths);
      WideLayersNeverRaise(next, batches[1..], batchIdx + 1, batchCount, svd, widths);
    }
  }

  lemma {:induction false} StepKeysNeverRaise(t: map<int, SketchState>, keys: seq<int>, acts: map<int, Grad>, svd: Svd, widths: map<int, nat>)
    requires TableFits(t, widths) && ActsFit(acts, widths)
    requires forall i :: 0 <= i < |keys| ==> keys[i] in acts
    requires forall k :: k in widths ==> widths[k] >= 2
    ensures StepKeys(t, keys, acts, svd, widths).Done?
    decreases |keys|
  {
    if keys != [] {
      var key := keys[0];
      var g := acts[key];
      assert Fits(Capture(key, g), widths);
      if key !in t {
        StepKeysNeverRaise(t[key := Init(g.cols, TargetRank(g.cols))], keys[1..], acts, svd, widths);
      } else {
        StreamRaisesOnlyWhenDegenerate(t[key], g.rows, svd);
        StepKeysNeverRaise(t[key := AppendRows(t[key], g.rows, svd).state], keys[1..], acts, svd, widths);
      }
    }
  }
}
