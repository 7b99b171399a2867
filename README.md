# Active-subspace embeddings from streamed gradients

This project models the core of `ASNet/ASModel.py`. That code builds low-rank
"active subspace" projections of a network's layers. During backpropagation,
backward hooks capture each layer's output gradients. A Frequent Directions
sketch per layer summarises those gradients in a fixed `2d × n` buffer. The
top right singular directions of each sketch then become the basis of an
`ASModel`, a linear projection whose rank can be lowered afterwards. The
model also covers the exact Jacobian path: `compute_grad_matrix` stacks
per-class input gradients into a matrix, and a single label is broadcast over
a batch.

The modules are:

- `Base` (base.dfy): exceptions, `Result`, `Step` (the state a loop ended in,
  plus the exception that escaped, if any), vectors, captured gradients, and
  the prefix length kept by a Python slice `[:stop]`.
- `Sketch` (sketch.dfy): the Frequent Directions sketch as a value. It covers
  `append`, `__rotate__` and `get`, and the lemmas about single appends and
  about streams of appends.
- `FrequentDirectionsBuffer` (frequent_directions.dfy): class
  `FrequentDirections` over a mutable `array2<real>` buffer. Each method is
  proved to move the object exactly as the value functions of `Sketch` say.
- `Streaming` (streaming.dfy): `streamASEmbedding` as a value. It covers
  `save_activation`, `fd_step`, the `forward_backward` batch loop with its
  early exit, and the lemmas about which rows reach which sketch.
- `StreamCapture` (stream_embedding.dfy): class `StreamEmbedding`, whose
  dictionaries `activations` and `fds` (a map of `FrequentDirections`
  objects) are updated in place. Each method is proved against `Streaming`.
- `Subspace` (subspace.dfy): class `ASModel`, with `change_r` and `forward`,
  and the lemmas about sequences of rank changes.
- `BuildModels` (build.dfy): `get_ASModel_FD`, which streams the batches and
  builds one `ASModel` and one singular-value vector per sketched layer.
- `GradMatrix` (grad_matrix.dfy): `compute_grad_matrix` and the label
  broadcast of `get_AS_transform_input_smalldataset`.

The randomized SVD is an oracle, `Sketch.Svd`. For any buffer contents it
gives the singular values, the right singular directions and the square root
that the code would use. The model relies on two things about it. The first
is its shape: the reduced QR inside `randomized_svd(A.t(), d)` yields
`min(n, d)` singular triples. The second is that it is one fixed function of
the buffer contents, so two SVDs of equal buffers agree. So `__rotate__`
raises an IndexError at `s[self.d - 1]` exactly when `d == 0` or `n < d`. A
sketch sized by `fd_step` has `d = min(400, int(0.8 n)) <= n`. It can
therefore raise only when its layer is 0 or 1 wide, provided every capture of
a layer keeps the width that layer's sketch was created with and has at least
one row.

Where the code and its documentation disagree, the model follows the code:

- `change_r` compares the new rank with the current rank `self.r`, not with
  `r_max`. A rank, once lowered, can never be raised again, even up to `r_max`.
- `ASModel.__init__` sets `self.r = r_max` whatever `r` it is given. Only the
  active columns `V = V_full[:, :r]` depend on `r`.
- The sketch rank is `int(n * 0.8)`, which truncates. It is not rounded.

## Model

| member | source | states |
|---|---|---|
| Base.SliceStop | ASNet/ASModel.py:162 | `V_full[:, :r]` keeps exactly `r` columns when `0 <= r <= r_max`, all of them when `r >= r_max`, and never more than there are |
| Sketch.Init | ASNet/ASModel.py:42-48 | a new sketch has `2d` all-zero rows of width `n`, its cursor at 0, and satisfies the buffer invariant |
| Sketch.Rotate | ASNet/ASModel.py:60-66 | `__rotate__` raises exactly when `d == 0` or `n < d`, and then raises IndexError; otherwise the buffer keeps its invariant, rows `d..2d-1` are zero and the cursor is `d` |
| Sketch.Rotated | ASNet/ASModel.py:60-66 | after a rotation, the first `d` rows are the shrunk singular directions, rows `d..2d-1` are zero, the cursor is `d`, and the invariant holds |
| Sketch.Append | ASNet/ASModel.py:50-58 | `append` keeps the buffer invariant, `n` and `d`, and its only exception is IndexError |
| Sketch.AppendRows | ASNet/ASModel.py:135-136 | a stream of appends keeps the invariant, `n` and `d` (even when it stops early), and raises only IndexError |
| Sketch.Get | ASNet/ASModel.py:68-79 | `get(rotate=False)` is `d` rows of width `n`; `get()` is `min(n, d)` values with as many directions of width `n`; with `take_root` it is `min(n, d)` rows of width `n` |
| Sketch.AppendZeroIsNoOp | ASNet/ASModel.py:50-52 | appending an all-zero vector changes neither the buffer nor the cursor |
| Sketch.AppendBelowCapacity | ASNet/ASModel.py:54-58 | below capacity, a non-zero vector lands in row `nextZeroRow`, the cursor advances by one, and every other row is unchanged |
| Sketch.AppendToFullBuffer | ASNet/ASModel.py:54-66 | on a full buffer, the rotation runs first: the shrunk block fills rows `0..d-1`, the vector sits in row `d`, the rows after it are zero, and the cursor is `d + 1` |
| Sketch.AppendRaisesIff | ASNet/ASModel.py:50-63 | `append` raises exactly when a non-zero vector meets a full buffer whose SVD has fewer than `d >= 1` values, and then it raises IndexError |
| Sketch.RotateZeroesLastKeptRow | ASNet/ASModel.py:63-64 | the shrink subtracts the last kept value's square, so row `d - 1` of a rotated buffer is zero |
| Sketch.StreamKeepsBufferSize | ASNet/ASModel.py:45-58 | however long the stream, the buffer keeps exactly `2d` rows and the cursor stays within them |
| Sketch.ZeroStreamIsNoOp | ASNet/ASModel.py:50-52 | a stream of all-zero vectors leaves the sketch, and every `get`, unchanged |
| Sketch.StreamFillsInOrder | ASNet/ASModel.py:54-58 | with room for its non-zero vectors, a stream writes exactly them, in order, from the cursor on; the rows before the cursor are unchanged and the cursor advances by their count |
| Sketch.StreamRaisesOnlyWhenDegenerate | ASNet/ASModel.py:60-63 | a sketch with `1 <= d <= n` never raises, whatever it is fed |
| Sketch.CursorStaysAtLeastRank | ASNet/ASModel.py:54-66 | once the cursor has reached `d`, it stays within `d..2d` |
| FrequentDirectionsBuffer.FrequentDirections.constructor | ASNet/ASModel.py:42-48 | the new object's buffer and cursor are `Sketch.Init(n, d)` |
| FrequentDirectionsBuffer.FrequentDirections.WriteRow | ASNet/ASModel.py:57-58 | writing the vector into the array row at the cursor and advancing the cursor moves the object to `Sketch.Write` of its old state |
| FrequentDirectionsBuffer.FrequentDirections.Append | ASNet/ASModel.py:50-58 | the in-place `append` moves the object to `Sketch.Append` of its old state, and reports the IndexError exactly when that raises, leaving the object unchanged |
| FrequentDirectionsBuffer.FrequentDirections.Rotate | ASNet/ASModel.py:60-66 | the in-place rotation writes `Sketch.Rotated` of the old state into the array, or raises IndexError with nothing changed |
| FrequentDirectionsBuffer.FrequentDirections.Get | ASNet/ASModel.py:68-79 | `get` changes nothing and returns `Sketch.Get` of the current state; without `rotate`, that is the first `d` rows of the array |
| Streaming.TargetRank | ASNet/ASModel.py:132-133 | a layer's sketch rank is at most its width and at most 400; it is 0 exactly for widths 0 and 1; up to width 500 it is `4 * width / 5` truncated, and from 500 on it is 400 |
| Streaming.Save | ASNet/ASModel.py:147-148 | `save_activation` overwrites the layer's capture with the new gradient, leaves every other layer's capture as it was, appends a new layer to the end of the order, and does not touch the sketch table |
| Streaming.SaveAll | ASNet/ASModel.py:140-148 | capturing gradients never touches the sketch table |
| Streaming.StepKeys | ASNet/ASModel.py:127-136 | the loop of `fd_step` keeps every sketch sized to its layer, only adds sketches for visited keys, adds all of them when it completes, and raises only IndexError |
| Streaming.FdStep | ASNet/ASModel.py:127-136 | `fd_step` leaves the captured gradients and their order unchanged, keeps the table fitted to the layers' widths, and raises only IndexError |
| Streaming.Run | ASNet/ASModel.py:110-125 | on non-empty captures of fixed widths, the batch loop keeps the embedding fitted to the layers' widths and raises only IndexError |
| Streaming.SaveFits | ASNet/ASModel.py:147-148 | a capture of the right width keeps the embedding fitted: one entry per layer, each key once in the order |
| Streaming.SaveAllFits | ASNet/ASModel.py:140-148 | a whole backward pass of captures keeps the embedding fitted |
| Streaming.SaveAllKeepsLastCapture | ASNet/ASModel.py:148 | after a backward pass, a layer holds the gradient of its last firing (earlier ones are overwritten, not accumulated); a layer that did not fire keeps its old capture |
| Streaming.StepKeysPerKey | ASNet/ASModel.py:127-136 | per key, `fd_step` gives a newly seen layer a fresh sketch of its width and rank `TargetRank` without its rows, appends every captured row of a known layer in order, and leaves every other sketch unchanged |
| Streaming.RunConsumesPrefix | ASNet/ASModel.py:110-125 | the early exit after `fd_step` means the loop processes exactly the first `Consumed` batches (`batch_count + 1` when the loader has them), as if it had no exit |
| Streaming.AppendRowsConcat | ASNet/ASModel.py:135-136 | appending two streams one after the other is appending their concatenation |
| Streaming.RunAllFeedsStream | ASNet/ASModel.py:122-136 | for a layer that already has a sketch and fires in every batch, the loop appends that layer's rows from all batches, in batch order, to its sketch |
| Streaming.SketchOfLayer | ASNet/ASModel.py:110-136 | after `forward_backward`, the sketch of a layer that fired in every consumed batch is a fresh sketch of its width and `TargetRank`, fed the layer's rows from the second through the last consumed batch; the first batch's rows are dropped |
| Streaming.FirstBatchCreatesSketch | ASNet/ASModel.py:128-133 | the first batch of a run, when the layer fires in it, creates the layer's sketch, of its width and `TargetRank`, holding none of that batch's rows |
| Streaming.TableMemoryBound | ASNet/ASModel.py:132-133 | whatever was streamed, no sketch holds more than `2 * 400` rows |
| Streaming.WideLayersNeverRaise | ASNet/ASModel.py:110-136 | when every hooked layer is at least 2 wide and keeps its width, and no capture is empty, `forward_backward` never raises |
| Streaming.StepKeysNeverRaise | ASNet/ASModel.py:127-136 | when every hooked layer is at least 2 wide and keeps its width, `fd_step` never raises |
| StreamCapture.StreamEmbedding.constructor | ASNet/ASModel.py:83-94 | a new embedding has empty `activations` and `fds` |
| StreamCapture.StreamEmbedding.SaveActivation | ASNet/ASModel.py:140-148 | the hook changes only `activations`, as `Streaming.Save` says; no sketch object changes |
| StreamCapture.StreamEmbedding.Backward | ASNet/ASModel.py:116-119 | a batch's hook firings change the object as `Streaming.SaveAll` says, and no sketch changes |
| StreamCapture.StreamEmbedding.FdStep | ASNet/ASModel.py:127-136 | the in-place `fd_step` moves the sketch objects to `Streaming.FdStep` of the old state, reporting its IndexError; any new sketch object is freshly allocated |
| StreamCapture.StreamEmbedding.StepLayer | ASNet/ASModel.py:128-136 | one turn of `fd_step`'s loop advances the sketch table by exactly one key of `StepKeys` |
| StreamCapture.StreamEmbedding.AppendAll | ASNet/ASModel.py:135-136 | appending a layer's rows to its sketch object changes that sketch only, as `AppendRows` says |
| StreamCapture.StreamEmbedding.ForwardBackward | ASNet/ASModel.py:110-125 | the in-place batch loop, with its exit after `fd_step`, ends in the state `Streaming.Run` gives and raises exactly when it raises |
| Subspace.Project | ASNet/ASModel.py:168-171 | `x @ V` has one row per sample and one coordinate per active column |
| Subspace.ProjectPrefix | ASNet/ASModel.py:163-171 | keeping the first `k` columns keeps the first `k` coordinates of every projected sample |
| Subspace.ChangeRank | ASNet/ASModel.py:164-167 | `change_r` succeeds exactly when the new rank is at most the current one, and then yields the new rank; otherwise it raises ValueError |
| Subspace.ChangeRanks | ASNet/ASModel.py:163-167 | a sequence of `change_r` calls that succeeds ends at a rank no higher than where it started; one that fails raises ValueError |
| Subspace.ChangeRanksSucceedIff | ASNet/ASModel.py:163-167 | a sequence of `change_r` calls succeeds exactly when the requested ranks never go up, and then ends at the last one; otherwise it raises ValueError |
| Subspace.ChangeRanksOnlyLower | ASNet/ASModel.py:163-167 | after successful `change_r` calls, every rank requested, and the final one, is at most the starting rank |
| Subspace.ASModel.constructor | ASNet/ASModel.py:153-162 | `r_max` is the number of basis columns, `r` starts at `r_max`, and `V` is the first `r` columns (Python slice semantics) |
| Subspace.ASModel.ChangeR | ASNet/ASModel.py:163-167 | a rank above the current one raises ValueError and changes nothing; otherwise the rank is the new one and `V` is `V_full[:, :r_new]` |
| Subspace.ASModel.Forward | ASNet/ASModel.py:168-171 | an empty batch or a width other than the feature count is a RuntimeError; otherwise one row per sample with one coordinate per active column |
| BuildModels.LayerSpectrumShape | ASNet/ASModel.py:179-183 | `get()` on a sketch sized by `fd_step` gives exactly `d` singular values and `d` directions of the layer's width |
| BuildModels.GetASModelFD | ASNet/ASModel.py:173-185 | an IndexError from streaming propagates; otherwise there is one `ASModel` and one singular-value vector for each sketched layer, each built from that layer's final sketch |
| BuildModels.BuildLayers | ASNet/ASModel.py:179-184 | the loop builds exactly one model and one value vector per key of `fds` |
| BuildModels.BuildLayer | ASNet/ASModel.py:181-183 | a layer's model has the sketch's top directions as its basis, `r = r_max = d`, and `V` is the first `r_max` of them; `Sigmas` holds the sketch's values |
| GradMatrix.Layout | ASNet/ASModel.py:202-205 | the reshaped Jacobian has `n_samples * n_classes` rows, each with one entry per feature |
| GradMatrix.LayoutRow | ASNet/ASModel.py:195-205 | row `s * C + i` of the gradient matrix is sample `s`'s input gradient for class `i` |
| GradMatrix.LayoutCovers | ASNet/ASModel.py:195-205 | every row of the gradient matrix is one sample's input gradient for one class |
| GradMatrix.ComputeGradMatrix | ASNet/ASModel.py:189-205 | an input without gradients is an AssertionError; no rows to reshape is a RuntimeError; otherwise the per-class gradient loop yields the matrix `Layout` describes |
| GradMatrix.Repeat | ASNet/ASModel.py:234 | `labels.repeat(n)` on a single label is `n` copies of it |
| GradMatrix.BroadcastLabels | ASNet/ASModel.py:233-234 | a single label is repeated once per output row; any other label vector is used unchanged |

## Left out

- `randomized_svd`: Gaussian sampling, QR and the SVD are not modelled. `Sketch.Svd` stands in for their output, and the model assumes only its shape, `min(n, d)` singular triples.
- The SVD oracle is one fixed function of the buffer for the whole run. Each real `randomized_svd` call draws a fresh Gaussian `Omega` (ASNet/ASModel.py:30), so two SVDs of equal buffers may differ in the code. `Sketch.ZeroStreamIsNoOp` ("every `get` unchanged") and `Streaming.SketchOfLayer` (equality with a replay from a fresh sketch) hold for one fixed draw, not across draws.
- Layer widths are fixed. Every capture of a layer is taken to have the width its sketch was created with (`Streaming.Fits`, and `|v| == n` on `append`). The code does not check this. A later non-zero row of another length written into `_sketch` (ASNet/ASModel.py:57) raises a RuntimeError, and on a full buffer it does so only after `__rotate__` has already rewritten the buffer. A 1-entry row is broadcast across the whole row. Neither behaviour is modelled.
- Streaming.Save: an empty capture is not modelled. `Streaming.Fits` requires at least one row, because `grad_out[0].view(bs, -1)` raises a RuntimeError inside the hook when `bs == 0` (ASNet/ASModel.py:147-148).
- Streaming.Run: "raises only IndexError" holds only under fixed layer widths and non-empty captures. A change of width, or an empty capture, would raise RuntimeError in the code.
- Streaming.WideLayersNeverRaise: "never raises" holds only under fixed layer widths and non-empty captures.
- Streaming.StepKeysNeverRaise: "never raises" holds only under fixed layer widths.
- Floating point: values are `real`. `torch.sqrt` is the oracle's `sqrt`, so the NaN of a negative radicand is not modelled. `float32` rounding is not modelled either.
- Streaming.TargetRank: `int(n_features * 0.8)` is taken to be `4 * n / 5`. That holds for every width below 2^49; larger widths are not modelled.
- Hook registration, the forward pass, `nll_loss`, `loss.backward()`, `model.train()`, `model.eval()` and device moves are not modelled. Each batch is given as the sequence of hook firings its backward pass causes.
- The shape of each capture is not computed from a tensor. `grad_out[0].view(bs, -1)` becomes the `Grad` value, already flattened.
- `torch.cat` of a capture list is the capture itself: `save_activation` always stores a one-element list.
- Subspace.ASModel.Forward: the flattening `x.view(x.size(0), -1)` of a multi-dimensional input is not modelled. The input is given already flattened, and a zero-sized batch is reported as the reshape's RuntimeError.
- The `forward_backward` choice between one layer index and a list of them: only the resulting hook keys (`layer - 1`) matter. The model takes those keys as given.
- `get_AS_transform_input_smalldataset`, except its label broadcast, is not part of this model. Its exact-Jacobian path runs `compute_grad_matrix` and then `randomized_svd`, which are modelled separately. The rest of it is ReLU `inplace` toggling, noise, an optional loss, and its returns.
- `print` calls, and the unused fields `logg_every` and `max_idx`, have no effect on state and are not modelled.
- Aliasing: `get(rotate=False)` returns a view of the buffer in the code. The model returns a copy of those rows.
- BuildModels.BuildLayers visits the keys of `fds` in capture order rather than in the dictionary's own order. The order cannot change the resulting maps, because each key's entry depends only on its own sketch.
- `zero_gradients` and `retain_graph` in `compute_grad_matrix` are not modelled. The gradient of class `i` is given directly as a function of sample and feature.
