# tensor2tensor discrete core, in Dafny

This project models the parts of tensor2tensor that are integer, index and
list logic rather than floating-point graph construction, and proves what
they promise:

- **Length bucketing** (`utils/data_reader.py`): the geometric bucket
  boundaries of `bucket_boundaries`, the batch sizes and drop threshold of
  `hparams_to_batching_scheme` and `constant_batching_scheme`, the keep rule
  and queue arguments of `batch_examples`, and `get_data_filepatterns`
  (module `DataReader`).
- **Attention masks and index arithmetic** (`layers/common_attention.py`).
  The bias builders produce integer matrices whose entries are 0 or
  `NEG_INF` = −10^9 (module `AttentionMasks`): local band, lower triangle,
  padding and its inverse, prepend-inputs mask, batch coordinates, the
  relative-position matrix and the 2-D raster mask. Also modelled:
  - the head reshapes as index permutations (`AttentionHeads`);
  - which keys each query sees in `masked_local_attention_1d` (`LocalAttention`);
  - the guards, cache update and kernel dispatch of `multihead_attention` (`MultiheadConfig`).
- **trax combinators** (`trax/layers/combinators.py`): `Reorder` over nested
  tuples, the shape rules and calls of `Serial`, `Parallel`, `Branch`,
  `FirstBranch`/`SecondBranch` and `Concatenate`, and `Residual`
  (module `Combinators`).
- **RL bookkeeping** (`rl/rl_utils.py`): `compute_mean_reward`,
  `absolute_hinge_difference`, `update_hparams_from_hparams`, the metric keys
  of `evaluate_all_configs`, and `BatchStackWrapper`'s per-slot sliding window,
  kept in a two-dimensional array updated in place (module `RlUtils`).
- **Simulated environment** (`rl/envs/simulated_batch_env.py`): the two
  observation buffers as arrays, `simulate` (read both, then shift and
  write), and `reset` as a scatter (module `SimulatedBatchEnv`).
- **Mesh-TensorFlow transformer arithmetic** (`models/mtf_transformer2.py`):
  the batch dimensions, length dimension, vocabulary rounding, feature
  padding, and the guards of `model` and `sample` (module `MtfTransformer2`).
- **QNLI reader** (`data_generators/qnli.py`): header skipping, four-field
  tab splitting, label lookup, and file and split choice (module `Qnli`).

Helper modules: `Errors` (Python exception kinds and `Result`/`Option`),
`PyOps` (Python's floor division and modulo), and `Strings` (`str.split`,
`join`, `bytes.strip`, `posixpath.join`, `str(int)`).

Python exceptions become `Err(...)` values, not preconditions (two
graph-construction failures are the exception, listed under "Left out"). Two error
kinds are not Python exception classes: `InvalidArgumentError` is
TensorFlow's run-time op error (an integer `tf.mod` by zero, a `tf.gather`
index outside the tensor), and `OutsideModel` marks a single tensor where a
tuple of them is expected. Integers are
unbounded except where the source truncates: the `uint8` cast of the hinge
difference is written out as `% 256`. `int(math.log(x, 2))` is modelled as
the exact floor of the base-2 logarithm (`FloorLog2`). This assumes the
float logarithm never rounds across an integer for the lengths in use.

Three behaviours of the code are easy to misread; the model follows the code:
- `bucket_boundaries` returns boundaries strictly below `max_length`. It
  does not return a list that ends at or above it.
- `length_multiplier` leaves the batch sizes unchanged:
  `hparams_to_batching_scheme` never divides them. The test at
  `data_reader_test.py:201-205` expects them halved, through helpers that
  `data_reader.py` does not define.
- In `multihead_attention`, only the two divisibility checks run before
  `compute_qkv`. The cache checks (type must be `"dot_product"`, a bias is
  required) run after the projections, just before the cache is extended.

## Model

| member | source | states |
|---|---|---|
| `DataReader.BucketBoundaries` | tensor2tensor/utils/data_reader.py:337-344 | the while loop returns exactly the geometric boundary list, or ValueError when `math.log` would get a non-positive first boundary |
| `DataReader.GeometricBoundariesSpec` | tensor2tensor/utils/data_reader.py:337-344 | the boundaries start at `min_length` and are strictly increasing, each below `max_length`; the list is empty iff `min_length >= max_length`; ValueError iff `min_length <= 0 < max_length - min_length` |
| `DataReader.BoundariesShape` | tensor2tensor/utils/data_reader.py:341-343 | each boundary is the previous plus `2**max(0, floor(log2 x) - mantissa_bits)`, and the gap after the last one reaches `max_length` |
| `DataReader.BucketStep` | tensor2tensor/utils/data_reader.py:343 | the gap is at least 1, so the loop always advances |
| `DataReader.FloorLog2Bounds` | tensor2tensor/utils/data_reader.py:343 | `2**FloorLog2(x) <= x < 2**(FloorLog2(x)+1)` |
| `DataReader.BoundariesIncreasing` | tensor2tensor/utils/data_reader.py:337-344 | any earlier boundary is smaller than any later one |
| `DataReader.BatchingSchemeProperties` | tensor2tensor/utils/data_reader.py:347-384 | one more batch size than boundaries; every batch size is a positive multiple of `shard_multiplier`; scaled boundaries stay increasing; `max_length` is `(max_length or batch_size) * length_multiplier` when dropping long sequences, else `10**9` |
| `DataReader.BatchingSchemeValues` | tensor2tensor/utils/data_reader.py:370-379 | the boundaries are `bucket_boundaries(max_length, 8, mantissa_bits)` each times `length_multiplier`; batch size k is `max(1, batch_size // L_k) * shard_multiplier` for `L` the unscaled boundaries followed by `max_length` (never 0) |
| `DataReader.LengthMultiplierKeepsBatchSizes` | tensor2tensor/utils/data_reader.py:376-384 | `length_multiplier` multiplies each boundary and the drop threshold but leaves the batch sizes as with multiplier 1 |
| `DataReader.BatchSize128Scheme` | tensor2tensor/utils/data_reader_test.py:187-199 | batch size 128 with one mantissa bit gives boundaries [8,12,16,24,32,48,64,96] and batch sizes [16,10,8,5,4,2,2,1,1]; shard multiplier 2 doubles each |
| `DataReader.DropThresholdExamples` | tensor2tensor/utils/data_reader_test.py:170-185 | the drop threshold is 20 or 15 when dropping long sequences and above 10000 otherwise |
| `DataReader.HparamsToBatchingScheme` | tensor2tensor/utils/data_reader.py:347-384 | fails iff `max_length or batch_size` is 0, with ZeroDivisionError (`batch_size // max_length`) |
| `DataReader.ConstantBatchingScheme` | tensor2tensor/utils/data_reader.py:387-402 | the boundaries are the geometric ones from 8 to 1024 with two mantissa bits; one copy of the constant per bucket (one more than the boundaries) and threshold `10**9` |
| `DataReader.BucketingLength` | tensor2tensor/utils/data_reader.py:316-323 | the bucketing length is the maximum over fields of the first dimension (first times second for rank >= 3), 0 for no fields |
| `DataReader.BatchExamplesArguments` | tensor2tensor/utils/data_reader.py:316-333 | the example is kept iff every field length is at most the scheme's `max_length`; bucket bounds are each boundary plus 1; capacities are twice each batch size |
| `DataReader.GetDataFilepatterns` | tensor2tensor/utils/data_reader.py:405-418 | one pattern per `-`-separated problem, in order: the dataset file joined to `data_dir` plus `-train*` in training mode, else `-dev*` |
| `DataReader.ProblemNamesRoundTrip` | tensor2tensor/utils/data_reader.py:408 | splitting a `-`-joined list of dash-free names gives the names back |
| `AttentionMasks.AttentionBiasLocal` | tensor2tensor/layers/common_attention.py:256-277 | a length x length matrix of 0 / -1e9, with (i,j) zero iff `(max_backward < 0 or i-j <= max_backward) and (max_forward < 0 or j-i <= max_forward)` |
| `AttentionMasks.AttentionBiasLowerTriangle` | tensor2tensor/layers/common_attention.py:280-291 | entry (i,j) is 0 iff `j <= i`, else -1e9 |
| `AttentionMasks.AttentionBiasIgnorePadding` | tensor2tensor/layers/common_attention.py:294-304 | same shape as the padding; a 0 entry gives bias 0 and a 1 entry gives -1e9 |
| `AttentionMasks.AttentionBiasToPadding` | tensor2tensor/layers/common_attention.py:307-320 | same shape as the bias and a 0/1 mask: bias 0 gives 0 and bias -1e9 gives 1 |
| `AttentionMasks.PaddingRoundTrip` | tensor2tensor/layers/common_attention.py:294-320 | `attention_bias_to_padding(attention_bias_ignore_padding(m)) == m` for every 0/1 mask |
| `AttentionMasks.BiasRoundTrip` | tensor2tensor/layers/common_attention.py:294-320 | the converse: `ignore_padding(to_padding(b)) == b` for every 0/-1e9 bias |
| `AttentionMasks.AttentionBiasPrependInputsFullAttention` | tensor2tensor/layers/common_attention.py:323-353 | one square 0/-1e9 matrix per batch row |
| `AttentionMasks.PrependMaskBlocks` | tensor2tensor/layers/common_attention.py:341-351 | with non-negative padding, (i,j) is blocked iff `i < j` and some padding lies before `j`: positions up to the first padding are seen by all, later ones are causal |
| `AttentionMasks.AttentionBiasCoordinates` | tensor2tensor/layers/common_attention.py:370-391 | entry (i,j) is 0 iff the two coordinates are equal, else -1e9 |
| `AttentionMasks.CoordinatesSymmetric` | tensor2tensor/layers/common_attention.py:382-391 | the coordinate bias is symmetric with a zero diagonal |
| `AttentionMasks.RelativePositionsMatrix` | tensor2tensor/layers/common_attention.py:800-810 | a `length x length` matrix (its entries are stated by `RelativePositionsInTable`) |
| `AttentionMasks.RelativePositionsInTable` | tensor2tensor/layers/common_attention.py:800-819 | for m >= 0 every entry lies in `[0, 2m]`, a row of the `2m+1`-row table; inside the bound it is `j-i+m`, beyond it 0 or 2m |
| `AttentionMasks.RelativeAttentionGuardAsWritten` | tensor2tensor/layers/common_attention.py:883-885 | the guard rejects exactly an unset or zero bound |
| `AttentionMasks.NegativeBoundPassesGuard` | tensor2tensor/layers/common_attention.py:878-885 | bound -1 passes the guard as written although the table would have `2*(-1)+1 < 1` rows |
| `AttentionMasks.RelativeAttentionGuard` | tensor2tensor/layers/common_attention.py:878-885 | the guard as documented: ValueError iff the bound is unset or not positive |
| `AttentionMasks.GuardedRelativePositionsInTable` | tensor2tensor/layers/common_attention.py:813-825 | whatever passes the corrected guard indexes the embedding table in range at every position pair |
| `AttentionMasks.Make2dBlockRasterMask` | tensor2tensor/layers/common_attention.py:1494-1527 | the mask has `qh*qw` rows of `(qw+2fw)*(fh+qh)` entries |
| `AttentionMasks.RasterMaskVisible` | tensor2tensor/layers/common_attention.py:1494-1527 | a memory cell is visible (0) iff it is in the top flange or the left flange, or inside the query block at a raster position not after the query; the right flange is masked; entries are 0/1 |
| `AttentionHeads.SplitLastDimension` | tensor2tensor/layers/common_attention.py:394-411 | when n divides the width, n pieces each of width `width / n` |
| `AttentionHeads.CombineLastTwoDimensions` | tensor2tensor/layers/common_attention.py:414-428 | pieces of width w combine into one row of `pieces * w` entries |
| `AttentionHeads.SplitLastIndex` | tensor2tensor/layers/common_attention.py:394-411 | element `h*d+e` of the row becomes element `e` of piece `h` |
| `AttentionHeads.CombineSplitLast` | tensor2tensor/layers/common_attention.py:394-428 | combining the pieces of a split gives the row back |
| `AttentionHeads.SplitCombineLast` | tensor2tensor/layers/common_attention.py:394-428 | splitting the concatenation of n equal rows gives the rows back |
| `AttentionHeads.SplitHeads` | tensor2tensor/layers/common_attention.py:448-458 | `[batch, length, channels]` becomes `[batch, heads, length, channels/heads]` |
| `AttentionHeads.SplitHeadsIndex` | tensor2tensor/layers/common_attention.py:448-458 | `x[b][l][h*d+e]` lands at `y[b][h][l][e]` with `d = channels/heads` |
| `AttentionHeads.CombineHeads` | tensor2tensor/layers/common_attention.py:474-483 | `[batch, heads, length, depth]` becomes `[batch, length, heads*depth]` |
| `AttentionHeads.CombineHeadsIndex` | tensor2tensor/layers/common_attention.py:474-483 | `y[b][h][l][e]` lands at `x[b][l][h*depth+e]` |
| `AttentionHeads.CombineSplitHeads` | tensor2tensor/layers/common_attention.py:448-483 | `combine_heads(split_heads(x, n)) == x` when n divides the channels |
| `AttentionHeads.SplitCombineHeads` | tensor2tensor/layers/common_attention.py:448-483 | `split_heads(combine_heads(y), n) == y` |
| `LocalAttention.PaddingSize` | tensor2tensor/layers/common_attention.py:949-950 | `(-length) mod block` lies in `[0, block)` and makes the padded length a multiple of the block |
| `LocalAttention.MaskedLocalAttention1d` | tensor2tensor/layers/common_attention.py:943-998 | the block becomes the whole length when `length < 2*block_length`; the output is cut back to `length` entries; first-block queries see keys 0..p, later queries see from the start of the previous block up to p; InvalidArgumentError iff the length or `block_length` is 0 (TensorFlow's integer `tf.mod` by 0) |
| `LocalAttention.LocalWindowProperties` | tensor2tensor/layers/common_attention.py:984-988 | each query sees itself and only earlier keys (never padding), at most two blocks; in later blocks the window starts at a block boundary at least one block back |
| `MultiheadConfig.SelectKernel` | tensor2tensor/layers/common_attention.py:1812-1838 | the kernel chosen by `attention_type`; AssertionError iff an unknown name; ValueError iff the relative kernel gets a bound that is not positive |
| `MultiheadConfig.ConcatAlongLength` | tensor2tensor/layers/common_attention.py:1804-1805 | each batch row becomes old positions followed by new ones |
| `MultiheadConfig.Cache.constructor` | tensor2tensor/layers/common_attention.py:1748-1753 | the first decoding step's cache holds zero positions per batch row |
| `MultiheadConfig.MultiheadAttention` | tensor2tensor/layers/common_attention.py:1782-1838 | ValueError for key or value depth not divisible by the head count; with a cache, NotImplementedError for a type other than dot_product and ValueError with no bias, cache untouched; otherwise the cache grows by the new positions; then a key depth of 0 raises ZeroDivisionError (`0 ** -0.5`, cache already grown); otherwise the split heads of q and of the (cached) k/v go to the chosen kernel |
| `MultiheadConfig.CachedDispatchSucceeds` | tensor2tensor/layers/common_attention.py:1795-1814 | whatever passes the cache guards is dispatched to dot-product attention: the kernel choice never fails once the cache has grown (only a key depth of 0 can still fail before it) |
| `MultiheadConfig.CacheGrowsInOrder` | tensor2tensor/layers/common_attention.py:1804-1805 | two decoding steps leave old, first and second positions in order |
| `Combinators.Pick` | tensor2tensor/trax/layers/combinators.py:115-121 | Python indexing of a tuple: negative indices from the end, IndexError exactly when out of range; a single tensor in place of a tuple is outside the model (OutsideModel) |
| `Combinators.NestedMap` | tensor2tensor/trax/layers/combinators.py:99-105 | fails only with IndexError (or a tensor outside the model); a tuple spec gives a tuple of as many entries |
| `Combinators.OutputShape` | tensor2tensor/trax/layers/combinators.py:43-47 | an empty Serial keeps the shape; Parallel gives min(#layers, #shapes) shapes; Branch gives `max(num_branches, 0)` copies; FirstBranch, SecondBranch and Reorder fail only with IndexError or outside the model |
| `Combinators.Call` | tensor2tensor/trax/layers/combinators.py:34-41 | Serial with no layers or no params returns the input; Parallel gives min(#layers, #inputs, #params) outputs; Branch gives `max(num_branches, 0)` copies; FirstBranch, SecondBranch and Reorder fail only with IndexError or outside the model |
| `Combinators.ReorderTuple` | tensor2tensor/trax/layers/combinators.py:67-105 | with no `output` spec the input (or input shape) is returned unchanged |
| `Combinators.NestedMapFollows` | tensor2tensor/trax/layers/combinators.py:99-105 | `Reorder` succeeds iff every index in the spec is valid; the result then has the spec's layout with each `i` replaced by `x[i]` |
| `Combinators.FollowsUnique` | tensor2tensor/trax/layers/combinators.py:99-105 | a value with the spec's layout and `x[i]` at each index is what `Reorder` returns |
| `Combinators.ReorderExamples` | tensor2tensor/trax/layers/combinators.py:82-89 | the docstring examples: (1,0,2)->(y,x,z), (0,0)->(x,x), (0,(1,1))->(x,(y,y)), ((2,0),(1,1))->((z,x),(y,y)) |
| `Combinators.ReorderCommutes` | tensor2tensor/trax/layers/combinators.py:67-105 | `_reorder_shape` of the input's shape is the shape of `Reorder`'s result, errors included |
| `Combinators.ConcatenateShape` | tensor2tensor/trax/layers/combinators.py:129-134 | the axis is taken modulo the first shape's rank; the result is the first shape with that axis replaced by the sum over all shapes |
| `Combinators.ConcatenateAxisModRank` | tensor2tensor/trax/layers/combinators.py:131 | a negative axis and the same axis plus the rank give the same result |
| `Combinators.Copies` | tensor2tensor/trax/layers/combinators.py:108-111 | `[x] * n` is n copies of x (none for n <= 0) |
| `Combinators.StructuralShapeAgreement` | tensor2tensor/trax/layers/combinators.py:60-121 | for Identity, Reorder, Branch, FirstBranch and SecondBranch, `output_shape` of the input's shape is the shape of what `call` returns |
| `Combinators.SerialCall` | tensor2tensor/trax/layers/combinators.py:34-41 | the loop applies the layers zipped with the params in order |
| `Combinators.SerialZipTruncates` | tensor2tensor/trax/layers/combinators.py:39-40 | only min(#layers, #params) layers run; with the default `params=()` the input is returned |
| `Combinators.SerialComposes` | tensor2tensor/trax/layers/combinators.py:34-41 | a serial stack of two lists is running the first, then the second |
| `Combinators.SerialOutputShape` | tensor2tensor/trax/layers/combinators.py:43-47 | the loop folds `output_shape` over the layers from left to right |
| `Combinators.SerialNewParameters` | tensor2tensor/trax/layers/combinators.py:49-57 | one parameter set per layer, each initialised for the shape reaching that layer; fails iff the shape fold fails |
| `Combinators.ParallelCall` | tensor2tensor/trax/layers/combinators.py:162-168 | output k is layer k on input k with params k, for min of the three lengths |
| `Combinators.ParallelOutputShape` | tensor2tensor/trax/layers/combinators.py:170-172 | shape k is layer k's rule on shape k; the length is the shorter list's |
| `Combinators.Residual` | tensor2tensor/trax/layers/combinators.py:180-196 | ValueError iff the layer list is empty; otherwise a block (its behaviour is stated by `ResidualShape` and `ResidualCall`) |
| `Combinators.ResidualShape` | tensor2tensor/trax/layers/combinators.py:180-196 | with the default shortcut the residual block has the body's output shape |
| `Combinators.ResidualCall` | tensor2tensor/trax/layers/combinators.py:180-196 | the block sums the body's and the shortcut's outputs on the same input |
| `RlUtils.FinishedRewards` | tensor2tensor/rl/rl_utils.py:43-50 | IndexError iff some rollout is empty (`rollout[-1]` fails); otherwise at most one total per rollout |
| `RlUtils.ComputeMeanReward` | tensor2tensor/rl/rl_utils.py:43-55 | the mean clipped or unclipped total over rollouts whose last frame is done, 0 if none |
| `RlUtils.MeanBounds` | tensor2tensor/rl/rl_utils.py:51-54 | the mean lies between the smallest and largest finished total |
| `RlUtils.UnfinishedIgnored` | tensor2tensor/rl/rl_utils.py:47-50 | adding an unfinished rollout changes nothing |
| `RlUtils.HingeEntry` | tensor2tensor/rl/rl_utils.py:227-228 | `max(|a-b| - min_diff, 0)` as `uint8`: 0 when `|a-b| <= min_diff`, exactly `|a-b| - min_diff` below 256 |
| `RlUtils.AbsoluteHingeDifference` | tensor2tensor/rl/rl_utils.py:215-228 | elementwise over broadcast arrays, ValueError for shapes that do not broadcast |
| `RlUtils.HingeSymmetric` | tensor2tensor/rl/rl_utils.py:227 | swapping the arrays does not change the result |
| `RlUtils.HParams.SetHparam` | tensor2tensor/rl/rl_utils.py:164 | overwrites an existing name only; KeyError otherwise |
| `RlUtils.UpdateHparamsFromHparams` | tensor2tensor/rl/rl_utils.py:160-164 | the loop leaves the target as the copy of the prefixed entries, stopping at the first unknown name |
| `RlUtils.CopyPrefixedSpec` | tensor2tensor/rl/rl_utils.py:160-164 | without error: prefixed entries are stored under the stripped name, no name is added, other entries keep their values |
| `RlUtils.GetMetricName` | tensor2tensor/rl/rl_utils.py:58-61 | the name starts with `mean_reward/eval/sampling_temp_` and ends with `_clipped` or `_unclipped` as `clipped` says |
| `RlUtils.MetricNameInjective` | tensor2tensor/rl/rl_utils.py:58-61 | distinct (temperature, no-ops, clipped) configurations get distinct metric names |
| `RlUtils.EvaluateAllConfigs` | tensor2tensor/rl/rl_utils.py:95-111 | the result is exactly the metrics, named by `get_metric_name`, of every temperature with `eval_max_num_noops` and then 0 |
| `RlUtils.CollectMetrics` | tensor2tensor/rl/rl_utils.py:99-111 | for any naming of configurations, the nested loops over temperatures and no-ops `(max, 0)` leave the metrics of every configuration in loop order |
| `RlUtils.MetricsForKeys` | tensor2tensor/rl/rl_utils.py:102-109 | under any naming of configurations, the keys are exactly one per (temperature, no-ops in {max, 0}, clipped or not) |
| `RlUtils.MetricsForValues` | tensor2tensor/rl/rl_utils.py:102-109 | under any naming that keeps distinct configurations apart, each configuration's key holds that configuration's clipped or unclipped score |
| `RlUtils.MetricNameDistinguishes` | tensor2tensor/rl/rl_utils.py:58-61 | `get_metric_name` keeps the configurations of temperatures printed without `_` apart, so the values above hold for the metrics `evaluate_all_configs` returns |
| `RlUtils.SlidingWindow` | tensor2tensor/rl/rl_utils.py:360-364 | after any steps a slot holds the last `stack_size` of everything it has seen |
| `RlUtils.WindowAfterReset` | tensor2tensor/rl/rl_utils.py:351-364 | after a reset and at least `stack_size` steps a slot holds exactly the last `stack_size` observations |
| `RlUtils.ResetSlots` | tensor2tensor/rl/rl_utils.py:356-357 | listed slots hold copies of their (last-listed) observation; other slots are unchanged |
| `RlUtils.BatchStackWrapper.constructor` | tensor2tensor/rl/rl_utils.py:326-337 | the buffer is `(batch_size, stack_size)` observations, all zero |
| `RlUtils.BatchStackWrapper.Buffer` | tensor2tensor/rl/rl_utils.py:335-337 | the buffer's value has `batch_size` slots of `stack_size` observations |
| `RlUtils.BatchStackWrapper.Reset` | tensor2tensor/rl/rl_utils.py:351-358 | each listed slot (all slots by default) is filled with `stack_size` copies of its observation, others unchanged; a bad index raises after earlier writes |
| `RlUtils.BatchStackWrapper.Step` | tensor2tensor/rl/rl_utils.py:360-364 | the buffer becomes a new array (an array returned earlier keeps its contents) in which every stack is shifted left by one with the new observation last; rewards and dones pass through; with `stack_size` 0 the `[:, -1]` write raises IndexError and the stacks stay empty |
| `RlUtils.RollLeft` | tensor2tensor/rl/rl_utils.py:362 | `np.roll(a, -1, axis=1)`: a fresh array of the same shape whose entry `(s, p)` is `a[s, p+1]`, the first entry of each row moving to the end |
| `RlUtils.SetLastColumn` | tensor2tensor/rl/rl_utils.py:363 | `a[:, -1] = column`: the last entry of each row becomes that row's entry of the column, and every other entry keeps its value |
| `RlUtils.PushedSlots` | tensor2tensor/rl/rl_utils.py:362-363 | a buffer shifted left with the new observations last is the old buffer with each slot's observation pushed |
| `RlUtils.PushedSlot` | tensor2tensor/rl/rl_utils.py:362-363 | a stack whose entries are the old ones moved one place left and whose last entry is the observation is the old stack with the observation pushed |
| `SimulatedBatchEnv.Scatter` | tensor2tensor/rl/envs/simulated_batch_env.py:143-144 | listed slots get the frame; every other slot is unchanged |
| `SimulatedBatchEnv.ScatterIdempotent` | tensor2tensor/rl/envs/simulated_batch_env.py:140-145 | resetting the same slots twice is resetting them once |
| `SimulatedBatchEnv.ScatterShaped` | tensor2tensor/rl/envs/simulated_batch_env.py:140-145 | a reset keeps the buffer shape `(length,) + observ_shape` |
| `SimulatedBatchEnv.Env.constructor` | tensor2tensor/rl/envs/simulated_batch_env.py:76-79 | both buffers have `length` slots of the observation shape and start at zero |
| `SimulatedBatchEnv.Env.Len` | tensor2tensor/rl/envs/simulated_batch_env.py:96-98 | `__len__` is `length`, the first dimension of both buffers |
| `SimulatedBatchEnv.Env.Simulate` | tensor2tensor/rl/envs/simulated_batch_env.py:100-116 | the prediction is computed from the pre-step buffers; afterwards `_prev_observ` is the old `_observ` and `_observ` the prediction; reward all 0 and done all False, `length` entries each; a prediction of the wrong shape fails the assignment with ValueError and changes nothing |
| `SimulatedBatchEnv.Env.Reset` | tensor2tensor/rl/envs/simulated_batch_env.py:118-145 | the default `indices=None` fails `tf.shape(None)` with ValueError and changes nothing; an empty index list returns 0.0 (`NothingReset`) and changes nothing; an index outside `[0, length)` makes `tf.gather` raise InvalidArgumentError and changes nothing; otherwise listed slots get frame 2 as current and frame 1 as previous, the rest unchanged, and the new buffer is returned |
| `MtfTransformer2.BatchDims` | tensor2tensor/models/mtf_transformer2.py:44-55 | `[batch]` when `outer_batch_size == 0`; ValueError if it does not divide `batch_size`; otherwise `[outer, batch_size // outer]` |
| `MtfTransformer2.BatchDimsSize` | tensor2tensor/models/mtf_transformer2.py:147-152 | the batch dimensions hold `batch_size` examples, and the combined dimension has that size |
| `MtfTransformer2.CombinedBatchDim` | tensor2tensor/models/mtf_transformer2.py:149-152 | the combined dimension keeps the first dimension's name, and a single dimension stays as is |
| `MtfTransformer2.LengthDim` | tensor2tensor/models/mtf_transformer2.py:69-71 | `hparams.length or max_length` |
| `MtfTransformer2.VocabSize` | tensor2tensor/models/mtf_transformer2.py:158-169 | for a positive divisor, a multiple of the divisor in `[size, size + divisor)`; ZeroDivisionError iff the divisor is 0 |
| `MtfTransformer2.VocabSizeSmallest` | tensor2tensor/models/mtf_transformer2.py:158-169 | no multiple of the divisor at or above the size is smaller |
| `MtfTransformer2.ImportFeature` | tensor2tensor/models/mtf_transformer2.py:78-98 | None iff the key is missing; otherwise ValueError iff the feature is longer than the length dimension, `outer_batch_size` does not divide `batch_size` (from `batch_dims`), or the row count is not `batch_size`; on success each row is kept and zero-padded on the right to the length dimension (`PaddedFrom`) |
| `MtfTransformer2.UnitransformerModel` | tensor2tensor/models/mtf_transformer2.py:100-122 | NotImplementedError for nonzero label smoothing, else ZeroDivisionError iff the vocabulary divisor is 0; on success the input vocabulary is the targets' when autoregressive, else the inputs' |
| `MtfTransformer2.ShiftRight` | tensor2tensor/models/mtf_transformer2.py:129-131 | autoregressive inputs are the targets shifted right by one, with 0 in front |
| `MtfTransformer2.UnitransformerSample` | tensor2tensor/models/mtf_transformer2.py:171-197 | the model's guards first (label smoothing, vocabulary divisor); ValueError when not autoregressive; otherwise a ValueError from preparing the partial targets, then NotImplementedError for beam size > 1, else the partial targets are what sampling starts from |
| `MtfTransformer2.PartialTargets` | tensor2tensor/models/mtf_transformer2.py:180-186 | the imported inputs when present; only when absent the imported targets; when neither, `batch_size` rows of zeros, ValueError iff `outer_batch_size` does not divide `batch_size`; every failure is ValueError |
| `MtfTransformer2.TargetsIgnoredGivenInputs` | tensor2tensor/models/mtf_transformer2.py:180-182 | with inputs present, the targets feature (whatever it holds) does not change the partial targets |
| `MtfTransformer2.InputsBesideWideTargets` | tensor2tensor/models/mtf_transformer2.py:180-182 | inputs `[[1, 2]]` beside targets wider than the length 3 give `[[1, 2, 0]]`: the targets are never imported, so their width cannot fail the call |
| `MtfTransformer2.DefaultSequenceId` | tensor2tensor/models/mtf_transformer2.py:233-237 | with no segmentation the id is 1 exactly where the token is not 0, else the given segmentation |
| `MtfTransformer2.PaddingOutsideSegments` | tensor2tensor/models/mtf_transformer2.py:89-95 | positions padded by `_import_feature` get default segment id 0 |
| `Qnli.DatasetSplits` | tensor2tensor/data_generators/qnli.py:49-56 | train with 100 shards, eval with 1 |
| `Qnli.NumClasses` | tensor2tensor/data_generators/qnli.py:62-69 | `num_classes` equals the number of class labels |
| `Qnli.LabelIndex` | tensor2tensor/data_generators/qnli.py:84-90 | the label's position in ["not_entailment", "entailment"], ValueError for any other label |
| `Qnli.ParseLine` | tensor2tensor/data_generators/qnli.py:87-90 | a stripped line must split on tabs into exactly four fields with a known label; inputs are fields 2 and 3, and the first field is dropped |
| `Qnli.ParseLines` | tensor2tensor/data_generators/qnli.py:85-94 | the examples of the lines in order, up to the first malformed line, whose error ends the generator |
| `Qnli.ExampleGenerator` | tensor2tensor/data_generators/qnli.py:83-94 | nothing for an empty file or a header alone; example k is the parse of line k+1, so at most one example per data line |
| `Qnli.ExampleGeneratorSpec` | tensor2tensor/data_generators/qnli.py:83-94 | fails iff some non-header line is malformed; otherwise yields one example per line after the header, in order |
| `Qnli.HeaderIgnored` | tensor2tensor/data_generators/qnli.py:86 | the header line's content never matters |
| `Qnli.ParseFormatLine` | tensor2tensor/data_generators/qnli.py:87-90 | a well-formed QNLI line reads back as its question, sentence and label |
| `Qnli.SplitFile` | tensor2tensor/data_generators/qnli.py:98-101 | train.tsv for the training split, dev.tsv for every other split |
| `Qnli.GenerateSamples` | tensor2tensor/data_generators/qnli.py:96-104 | each example is the parse of a data line of the split's file inside the QNLI directory |
| `Qnli.SplitsReadDistinctFiles` | tensor2tensor/data_generators/qnli.py:96-104 | the two dataset splits read train.tsv and dev.tsv |

## Findings

| source | as written | input that shows it | evidently intended | confidence | as-written member | corrected member |
|---|---|---|---|---|---|---|
| tensor2tensor/layers/common_attention.py:883-885 | `if not max_relative_position` rejects only 0 and None, although its own message and the docstring's Raises section require the bound to be > 0 | `max_relative_position = -1` passes the guard; the program then fails later, in `tf.get_variable` (common_attention.py:819-822), with that function's own ValueError for the table of `2*(-1)+1 = -1` rows | the guard's own ValueError ("should be > 0") for every bound that is not positive | high (not executed) | `AttentionMasks.NegativeBoundPassesGuard` | `AttentionMasks.RelativeAttentionGuard` |

`MultiheadConfig.SelectKernel` uses the corrected guard. For a negative bound
the program as written also ends in a ValueError, raised later by
`tf.get_variable`; the corrected guard raises it before any variable is made,
so the ValueError `SelectKernel` promises is what a caller observes either way.

## Left out

- Floating-point attention numerics are not modelled: dot products, softmax, dropout, relative-attention matmuls, timing signals, the proximal bias (a logarithm), grouped and mixture-of-experts attention, memory-efficient attention, and image summaries.
- Variable scopes, `tf.get_variable`, the `compute_qkv` projections and the output transform are not modelled. The projections are inputs of `MultiheadConfig.MultiheadAttention`.
- `LocalAttention.MaskedLocalAttention1d` returns, for each query, the list of key positions it attends to, not the attention values.
- `AttentionMasks.Make2dBlockRasterMask` requires `query_height >= 1`: with height 0, `tf.split(query_triangle, 0, axis=1)` raises ValueError, and that failure is not modelled.
- `local_attention_1d`, the dilated kernels and `masked_local_attention_2d` are not modelled; only their dispatch is. The raster mask of `make_2d_block_raster_mask` is modelled.
- `data_reader.py` I/O and queueing are not modelled (`examples_reader`, `preprocessing`, `input_pipeline`, `problem_input_pipeline`, `feature_placeholders`, `cast_int64_to_int32`, and the bucketing queue itself). `batch_examples` is modelled up to the arguments it hands the queue.
- `DataReader.BucketingLength` requires every field to have rank at least 1: `tf.shape(v)[0]` of a scalar feature fails while the graph is built, and that failure is not modelled.
- `DataReader.FloorLog2`: `int(math.log(x, 2))` is taken as exact integer floor-log2. A float rounding error near a power of two would change one gap.
- `get_data_filepatterns` gets the problem registry lookup (and its `parse_problem_name` fallback) as a function parameter.
- The test helpers `_batching_scheme` and `read_examples` are not defined in `data_reader.py` and are not part of this model. The test expects the batch sizes halved under `length_multiplier=2`; `hparams_to_batching_scheme` keeps them unchanged, and the model follows it.
- Attention masks drop the broadcast dimensions of size 1, and −1e9 is the integer `NEG_INF`. Padding masks are integers, so fractional padding values are not covered.
- `Combinators.Pick`, `Combinators.OutputShape`, `Combinators.Call` and `Combinators.SerialCall`: a single tensor or shape where a tuple is expected is not modelled (the `OutsideModel` error). Python would index or zip along the tensor's first axis, which nested tuples do not represent.
- Combinators: random-key splitting, the numeric `concatenate` and `sum`, and the `base.Layer` machinery are not modelled. Layers outside the library are a parameter. `Parallel.new_parameters` is not modelled: it only zips layers with shapes and random keys. Tuples and lists are one nested type.
- `rl_utils.py`: `PolicyAgent`, `RandomAgent`, `setup_env`, `evaluate_single_config`, `summarize_metrics`, `random_rollout_subsequences`, `make_initial_frame_chooser` and `full_game_name` are not modelled (sessions, gym environments, randomness, writers, an unseen helper module). What the environment returns is a parameter.
- `RlUtils.HParams.SetHparam` and `RlUtils.UpdateHparamsFromHparams`: hparam values have one type, so `set_hparam`'s ValueError for a list given to a scalar (or the reverse) or for an incompatible type, and its casting of compatible values (an int stored into a float), are not modelled; only its KeyError for an unknown name is.
- `RlUtils.ComputeMeanReward` uses exact rational arithmetic for `np.mean`, not floats.
- `RlUtils.AbsoluteHingeDifference` covers one-dimensional arrays and the default `uint8` result only.
- `RlUtils.GetMetricName` takes the sampling temperature as its printed text. `MetricNameInjective` assumes that text contains no `_`, which holds for printed floats.
- `simulated_batch_env.py`: the learned model is a function parameter whose arg-max prediction is what the model stores. Also not modelled: PNG decoding (the frames are constructor inputs), the gym action space, FLAGS and hparams creation, the `check_numerics` NaN check, and the unused `_starting_observ` and `*_not_sure_why_we_need_this` variables.
- `MtfTransformer2.ImportFeature` treats a row count other than `batch_size` as a ValueError even for length 0, where `tf.reshape` of an empty tensor would succeed; `expand_squeeze_to_nd` of features of other ranks is not modelled, and several batch dimensions are kept merged into one list of rows.
- `mtf_transformer2.py`: everything run inside mesh TensorFlow (`call_simple`, `sample_autoregressive`, `decode`, layer stacks), the bitransformer's `model`, and the hparams registry functions are not modelled.
- `qnli.py`: download, unzip, file reading and UTF-8 decoding are not modelled. A file is the sequence of its lines as strings.
