/**
  `get_ASModel_FD` of ASNet/ASModel.py: stream the loader through a
  streamASEmbedding, then build, for every layer that got a sketch, an ASModel
  over the sketch's top right singular directions, and keep its singular
  values alongside.
 */
module BuildModels {
  import opened Base
  import opened Sketch
  import opened Streaming
  import opened FrequentDirectionsBuffer
  import opened StreamCapture
  import opened Subspace

  /**
    `s, Vt = fd.get()`: the sketch's top singular values and directions
    (`get` with `rotate` and without `take_root`). A sketch sized by
    `fd_step` has rank `d`, so both have exactly `d` entries.
   */
  lemma LayerSpectrumShape(s: SketchState, svd: Svd)
    requires Inv(s) && s.d == TargetRank(s.n)
    ensures Get(s, true, false, svd).Spectrum?
    ensures |Get(s, true, false, svd).values| == |Get(s, true, false, svd).directions| == s.d
    ensures HasWidth(Get(s, true, false, svd).directions, s.n)
  {
  }

  /**
    `ASlayers[key] = ASModel(Vt.t(), r_max)` and `Sigmas[key] = s` for the
    sketch `s`: the model's basis is the sketch's top directions, its `r_max`
    and starting rank are the sketch's `d`, and `V` holds the first `rMax` of
    the directions.
   */
  ghost predicate BuiltFrom(m: ASModel, sigma: seq<real>, s: SketchState, rMax: int, svd: Svd)
    requires Inv(s)
    reads m
  {
    var got := Get(s, true, false, svd);
    && got.Spectrum?
    && sigma == got.values
    && m.Valid()
    && m.basis == got.directions && m.features == s.n
    && m.rMax == m.r == s.d
    && m.active == got.directions[..SliceStop(rMax, s.d)]
  }

  /**
    `get_ASModel_FD(model, loader, cut_layer, max_batch, r_max)` on the
    captured gradient batches `batches` (`widths` holds each hooked layer's
    width): the IndexError of a degenerate sketch propagates; otherwise
    `ASlayers` and `Sigmas` have one entry per sketched layer, built from
    that layer's final sketch.
   */
  method GetASModelFD(batches: seq<Batch>, maxBatch: int, rMax: int, svd: Svd, ghost widths: map<int, nat>)
    returns (raised: bool, layers: map<int, ASModel>, sigmas: map<int, seq<real>>)
    requires BatchesFit(batches, widths)
    ensures var run := Run(Empty(), batches, 0, maxBatch, svd, widths);
      && raised == run.Raised?
      && (raised ==> layers == map[] && sigmas == map[])
      && (!raised ==> layers.Keys == sigmas.Keys == run.state.table.Keys)
      && (!raised ==> forall k :: k in layers ==>
            fresh(layers[k]) && BuiltFrom(layers[k], sigmas[k], run.state.table[k], rMax, svd))
  {
    layers, sigmas := map[], map[];
    var emb := new StreamEmbedding(maxBatch, widths);
    assert emb.View() == Empty();
    raised := emb.ForwardBackward(batches, svd);
    if raised {
      return;
    }
    assert Run(Empty(), batches, 0, maxBatch, svd, widths).state.table == emb.Sketches();
    layers, sigmas := BuildLayers(emb, rMax, svd);
  }

  /** The loop of `get_ASModel_FD` over the keys of `fds`; no sketch changes. */
  method BuildLayers(emb: StreamEmbedding, rMax: int, svd: Svd)
    returns (layers: map<int, ASModel>, sigmas: map<int, seq<real>>)
    requires emb.Valid()
    ensures layers.Keys == sigmas.Keys == emb.fds.Keys
    ensures forall k :: k in layers ==>
      fresh(layers[k]) && BuiltFrom(layers[k], sigmas[k], emb.Sketches()[k], rMax, svd)
  {
    layers, sigmas := map[], map[];
    ghost var table := emb.Sketches();
    ghost var e := emb.View();
    // The keys of `fds` are visited in the order of `activations`, which holds them all.
    var order := emb.order;
    for i := 0 to |order|
      invariant layers.Keys == sigmas.Keys
      invariant forall k :: k in layers <==> k in table && k in order[..i]
      invariant forall k :: k in layers ==>
        fresh(layers[k]) && BuiltFrom(layers[k], sigmas[k], table[k], rMax, svd)
    {
      var key := order[i];
      if key in emb.fds {
        var fd := emb.fds[key];
        assert fd.State() == table[key];
        var model, sigma := BuildLayer(fd, rMax, svd);
        layers := layers[key := model];
        sigmas := sigmas[key := sigma];
      }
      assert order[..i + 1] == order[..i] + [key];
    }
    assert order[..|order|] == order;
    OrderCoversTable(e, emb.widths);
    assert e.table == table && e.order == order;
    forall k
      ensures k in layers.Keys <==> k in table.Keys
    {
      if k in table {
        assert k in order[..|order|];
      }
    }
    assert layers.Keys == table.Keys;
    assert table.Keys == emb.fds.Keys;
  }

  /** The body of that loop for one sketch `fd`: `s, Vt = fd.get()` and the ASModel over `Vt.t()`. */
  method BuildLayer(fd: FrequentDirections, rMax: int, svd: Svd) returns (model: ASModel, sigma: seq<real>)
    requires fd.Valid() && fd.d == TargetRank(fd.n)
    ensures fresh(model) && BuiltFrom(model, sigma, fd.State(), rMax, svd)
  {
    LayerSpectrumShape(fd.State(), svd);
    var got := fd.Get(true, false, svd);
    model := new ASModel(got.directions, fd.n, rMax);
    sigma := got.values;
  }

  /** Every sketched layer appears in the order of the captured layers. */
  lemma OrderCoversTable(e: Embedding, widths: map<int, nat>)
    requires Fit(e, widths)
    ensures forall k :: k in e.table ==> k in e.order
  {
  }
}
