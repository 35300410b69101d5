# HomebrewNLP-MTF training bookkeeping in Dafny

This project models the sequential bookkeeping inside the HomebrewNLP-MTF
training stack and proves properties of it. There are three parts.

- **The optimizer step builder.** This is `src/optimizer/__init__.py`. The
  forward *downstream* scan marks the tensors that depend on a trainable
  variable. The reverse walk hands each operation the gradients of its
  outputs from the `tensor_to_gradient` table and retires table entries once
  they are used up. The per-step scalars are the apply-step indicator, the
  gated betas and the two-loss MGDA blend coefficient. For each yielded
  variable the builder dispatches to `gradient_accumulation` or `update`.
  `update` flushes the accumulation buffer, runs the `-`/`:` optimizer spec
  chain, applies rezero scaling, classifies the variable as a large tensor,
  adds decoupled weight decay and writes the variable once.
- **Input-file bookkeeping.** This is `src/inputs.py`. `split_files` shards a
  sorted file list across input hosts. `_get_number_of_documents` reads the
  document count from a record file's name. `_get_skip_index` finds the file
  and the in-file offset at which to resume. `dataset` checks the dataset
  types, builds one source per configuration from this host's share of its
  files, and collects their weights.
- **Replica/host bookkeeping.** This is `src/train.py`. It covers the
  capture-once `CapturedObject` and the host id parsed from a device string.
  It also covers the batch-size checks, the processor map (`pnum_map`) of the
  input reader, the slice cache of the input reader and the
  trainable-parameter count.

Tensors are abstracted away:

- Gradients and variable values are single `real` scalars.
- Tensors of the graph are natural-number ids.
- Each emitted assignment (`assign`, `assign_sub`, `assign_add`) is a record
  on a named slot: a variable, or the accumulation buffer of a variable.
- The values of emitted assignments are computed from a store that holds the
  values as they were when the step was built.

Some parts are parameters of the model rather than part of it:

- the named gradient transforms (`OPTIMIZERS`);
- the gradient rule of an operation (`gradients()`);
- the standardising rescale;
- the file-system glob of each dataset path;
- the seeded shuffle;
- the count of a record file obtained by iterating over it.

Modules, one file each:

- `Wrappers`: `Option` and `Result`.
- `Text`: the string operations the source relies on.
- `Shapes`: products of dimension sizes, integer division facts.
- `Inputs`.
- `Train`.
- `TrainLayout`.
- `OptimizerGraph`.
- `OptimizerSchedule`.
- `OptimizerUpdate`.

Where the behaviour of the code differs from the system's design description,
the model follows the code:

- **The accumulation recurrence.** `gradient_accumulation` adds
  `grad + buffer` to the buffer, so each micro-step leaves `2·old + grad`.
  `k` accumulations of `g` into an empty buffer therefore leave
  `(2^k − 1)·g`, not `k·g`.
- **Two micro-steps with window 2.** A variable holding 1.0 gets gradient 0.2
  on both micro-steps. The update applies the buffer's 0.2 and discards the
  second raw gradient, so the variable ends at 0.8, not 0.6. See
  `OptimizerUpdate.TwoStepWindow`.
- **The eviction threshold.** An entry of the gradient table is retired when
  its hand-out count reaches the input count of the operation that produced
  its gradient. That threshold is not the number of consumers of the tensor.
  The loss seed comes from an operation without inputs, so it is never
  retired.
- **The MGDA coefficient.** The coefficient is not clamped to [0, 1], and its
  denominator has the wrong sign (see Findings).
- **Buffer attachment.** Once a buffer is attached to the context it stays
  attached for the later variables the same context yields.

## Model

| member | source | states |
|---|---|---|
| Inputs.Sort | src/inputs.py:19 | `sorted(filenames)` is an ordered permutation of the names under Python's string order |
| Inputs.SplitFiles | src/inputs.py:15-23 | No match raises; a zero slice step raises. Otherwise the share is the stride from `slice_index` with step `slice_count` over the sorted list, which is shuffled when the seed is non-zero. |
| Inputs.StrideAt | src/inputs.py:23 | element `j` of `files[start::step]` exists iff `start + j·step < len(files)`, and then it is that file |
| Inputs.SplitFilesUnshuffled | src/inputs.py:19-23 | With seed 0 the share is exactly the sorted files at positions `slice_index + j·slice_count`, in order. |
| Inputs.StridePartition | src/inputs.py:23 | Position `p` of the files is entry `j` of the stride `files[i::step]` iff `i == p % step` and `j == p // step`, and that entry is the file at `p`. |
| Inputs.SplitFilesPartition | src/inputs.py:19-23 | Every host's call succeeds. Each position `p` of the listed files is held by exactly one host, host `p % slice_count`, as its entry `p // slice_count`, and that entry is the file at `p`. |
| Inputs.DocumentCountMatches | src/inputs.py:368-372 | The parser returns a count iff `_(\d+).tfrecords$` matches; the count is the decimal value of the matched digits. |
| Inputs.DocumentCountRoundTrip | src/inputs.py:369-372 | A name `<prefix>_<n><c>tfrecords` reads back as `n` |
| Inputs.FirstUncounted | src/inputs.py:392-396 | The first file whose name carries no count; every earlier file carries one. |
| Inputs.UncountedShareCount | src/inputs.py:392-398 | Every file without a count in its name is charged the count obtained by iterating over the first such file. |
| Inputs.CyclePos | src/inputs.py:390 | the position reached by `cycle(enumerate(all_files))` stays inside the list |
| Inputs.CountOf | src/inputs.py:392-398 | The count added for the current file is its effective count. A remembered by-iteration count is always that of the first file without a count in its name, and none is remembered only while every file seen so far had a count in its name. |
| Inputs.Advance | src/inputs.py:391-398 | One file of the search adds that file's effective count and carries the cycle position, the running sum and the remembered count one file further. |
| Inputs.SkipIndex | src/inputs.py:386-406 | The file-name parser is a parameter; the source's is `DocumentCount`. The search requires some file with a positive count; without one an empty list raises UnboundLocalError at the return and a non-empty list loops forever (see Left out). It returns `skip_idx < len(all_files)` and `remainder < docs(all_files[skip_idx])`. `n_batches` lies in the document range of the file where the search stops, and `remainder` is its offset there. An exact hit does not stop the loop. |
| Inputs.Build | src/inputs.py:195-197 | A builder fails with `split_files`'s error when that fails; in particular a path the glob matches nothing for fails with NoMatchingFiles. The text builder also fails on an empty share (`data[0]`). Otherwise the source reads exactly this host's share of the path's files, and it is a video source iff the type is "video". |
| Inputs.BuildSources | src/inputs.py:340-354 | The loop succeeds iff every configuration has a supported type and a builder that returns; it then holds each configuration's built source and weight, in order. Otherwise it fails with the exception of the first configuration that fails. |
| Inputs.Dataset | src/inputs.py:337-359 | Failure iff the list is empty or some configuration has a type other than "video" and "text" or a builder that fails. The configurations are tried in order; the error is that of the first failing one, the type check before its builder. An empty list fails at `datasets[0]`. One config yields its built source alone; several yield all built sources with their weights, in config order. |
| Inputs.DocumentCount | src/inputs.py:368-372 | A count is read only from a name of at least 12 characters ending in "tfrecords"; `DocumentCountMatches` gives the exact condition. |
| Train.CapturedObject.constructor | src/train.py:46-48 | starts uncaptured with no object |
| Train.CapturedObject.Capture | src/train.py:50-56 | The first capture stores the object. A second capture raises RuntimeError and leaves the stored object unchanged. |
| Train.CapturedObject.Get | src/train.py:58-63 | Raises RuntimeError iff nothing was captured; otherwise returns exactly the captured object. |
| Train.CaptureOnce | src/train.py:40-63 | `get` before capture fails; a second capture fails; `get` then returns the first object. |
| Train.HostId | src/train.py:96 | The lookup of piece `[1]` fails with IndexError iff the lower-cased device string has no "/task:". A non-numeric field fails the `int`. |
| Train.HostDevice | src/train.py:69 | Lower-casing the device string of host `n` gives "/job:worker/task:", the decimal digits of `n` and "/device:cpu:0". |
| Train.TaskSplit | src/train.py:96 | Splitting the device string on "/task:" gives exactly the head and the rest. |
| Train.DeviceSplit | src/train.py:96 | The piece before "/device:" is the decimal host number. |
| Train.HostIdRoundTrip | src/train.py:96 | Parsing the device string the line-69 template gives for host `n` returns `n`. |
| Train.ShapeCheck | src/train.py:100-103 | No error iff every remaining shape has the batch size as its leading dimension. |
| Train.BatchSize | src/train.py:99-103 | Success iff there is a first shape with a leading dimension that every shape shares, and the batch size is that dimension. A ValueError means some shape differs. |
| Train.FirstMismatch | src/train.py:100-103 | A ValueError from the check names a shape whose leading dimension differs from the batch size. |
| Train.Holders | src/train.py:120-129 | `len(hosts_to_hold_ds)` is 1 when sampling. Otherwise it is the number of batch-dimension slices of the first input, and times the number of slices in one batch row it gives all the map's rows. |
| TrainLayout.RowMajorLeading | src/train.py:106-110 | The map row of a slice coordinate is its batch index times the slices per batch row, plus its position within that batch row. |
| TrainLayout.SubBatchOfSlice | src/train.py:140-142 | Sub-batch `i` reads `pnum_map[i, ...]`: a slice's map rows divided by the slices per batch row give its batch index, which is below `Holders`. |
| Train.SubBatchSize | src/train.py:130-133 | The divisor is `Holders`. No holders is a division by zero. Success iff the division is exact, and then `sub_batch_size · holders == batch_size`. When sampling the whole batch is one sub-batch. |
| Train.CacheKey | src/train.py:159-165 | When sampling, the key is the begin with coordinate 0 set to 0, and an empty begin fails. Otherwise the key is the begin unchanged. |
| Train.CacheKeyShares | src/train.py:159-167 | Two begins get the same key iff they read the same slice: when sampling, iff they agree past the batch coordinate; otherwise iff they are equal. |
| Train.LayOutBegins | src/train.py:156-173 | Over the begins of one input's processors: IndexError iff sampling meets an empty begin. Otherwise each processor gets the slice of its own key, and two processors share a slice iff their begins read the same slice. |
| Train.CacheAsWritten | src/train.py:156-173 | the slice loop as written hands every processor a slice index that exists |
| Train.LayOutSlicesAsWritten | src/train.py:156-173 | the imperative slice loop with `slice_dict` and `tf_tensor` computes exactly `CacheAsWritten` |
| Train.CacheAsWrittenMisassigns | src/train.py:167-168 | For begins A, B, A the third processor is handed B's slice. |
| Train.CacheHit | src/train.py:167-169 | Corrected cache: a hit hands out the slice cached for the processor's own begin and keeps every cache property for one more processor. |
| Train.CacheMiss | src/train.py:170-173 | A miss slices the new begin once, caches it under that begin and hands it out, keeping every cache property for one more processor. |
| Train.LayOutSlices | src/train.py:156-173 | Corrected cache: every processor gets a slice of its own begin. No begin is sliced twice, and exactly the begins that occur are sliced. |
| Train.TotalSizeAppend | src/train.py:449-456 | the parameter total of two lists of variables is the sum of their totals |
| Train.TotalParameters | src/train.py:449-456 | the nested loop returns the sum over variables of the product of their dimension sizes |
| Shapes.SizePositive | src/train.py:452-455 | a product of dimension sizes is zero iff some dimension is zero |
| TrainLayout.RowMajor | src/train.py:106-110 | Indexing the map by a slice coordinate lands inside the map's leading part. |
| TrainLayout.RowMajorInjective | src/train.py:106-110 | Two slice coordinates index the same row of the map iff they are equal. |
| TrainLayout.SlotsPerBucket | src/train.py:105-106 | The trailing size is `num_cores // prod(shape_list)`: the floor of the quotient, for a positive product. A zero product is reported as a failure. It needs a zero slice count, which the source cannot reach: a zero-size dimension already fails at `dim_size // s_dim_size`. |
| TrainLayout.Buckets | src/train.py:108-110 | Each processor's bucket is the row-major position of its slice coordinate, one of `prod(shape_list)` rows. |
| TrainLayout.BucketsShareSlice | src/train.py:108-110 | Two processors share a bucket iff they read the same slice. |
| TrainLayout.Members | src/train.py:108-114 | The processors of a bucket: exactly those mapped to it, in increasing order. |
| TrainLayout.MembersSnoc | src/train.py:108-114 | Placing one more processor only extends its own bucket's list. |
| TrainLayout.NewPnumMap | src/train.py:106-114 | The filled map holds, at `[b, j]`, the `j`-th processor of bucket `b`, or -1 when the bucket has fewer. A processor finding its row full is dropped. |
| TrainLayout.Place | src/train.py:110-114 | Placing one processor in the first -1 entry of its row keeps the map equal to the placement of the processors so far, now including it. |
| TrainLayout.HasUnfilledEntry | src/train.py:116 | `np.any(pnum_map == -1)` is true iff some entry is -1 |
| TrainLayout.CompleteIffFull | src/train.py:116-117 | some entry stays -1 iff some bucket has fewer processors than slots |
| TrainLayout.PnumMap | src/train.py:106-117 | ValueError iff some bucket cannot fill its row; otherwise entry `[b, j]` is the `j`-th processor of bucket `b`. |
| TrainLayout.EntriesDistinct | src/train.py:108-114 | Each processor appears at most once in the map, and only in the bucket of its own slice. |
| TrainLayout.ShapePnumMap | src/train.py:104-117 | The whole map of one input from the processors' slice coordinates. A zero slice product is reported as a division by zero (see Left out). Otherwise ValueError iff some slice has fewer readers than `num_cores // prod(shape_list)`. On success the map has one row per slice; every entry of the row a processor's coordinate indexes is a processor reading that same slice. |
| OptimizerGraph.Downstream | src/optimizer/__init__.py:137-144 | the scan loop computes the downstream set of the specification, seeded with the trainable-variable tensors |
| OptimizerGraph.DownstreamGrows | src/optimizer/__init__.py:140-144 | The set only grows: seeds ⊆ set after any prefix ⊆ final set. |
| OptimizerGraph.ScanStep | src/optimizer/__init__.py:142-144 | One step adds an operation's outputs iff it has a gradient and reads a tensor already in the set. |
| OptimizerGraph.DownstreamSound | src/optimizer/__init__.py:140-144 | Every downstream tensor is a seed or an output of an operation that has a gradient and reads a tensor marked before it. |
| OptimizerGraph.DownstreamClosed | src/optimizer/__init__.py:142-144 | An operation with a gradient that reads a marked tensor has all its outputs in the final set. |
| OptimizerGraph.LookUp | src/optimizer/__init__.py:150-161 | A gradient is handed out iff the output is in the table, and it is that entry's gradient. The entry's count goes up by one, and it is removed exactly when the bumped count reaches its arity. No other entry changes. |
| OptimizerGraph.Gather | src/optimizer/__init__.py:150-161 | `grad_outputs` has one entry per output |
| OptimizerGraph.GatherKeepsOthers | src/optimizer/__init__.py:150-161 | Entries for tensors that are not outputs of the operation are unchanged. |
| OptimizerGraph.GatherHandsOut | src/optimizer/__init__.py:150-157 | For distinct outputs, entry `i` is present iff output `i` is in the table, and then it is that entry's gradient. |
| OptimizerGraph.GatherBumps | src/optimizer/__init__.py:156-161 | For distinct outputs, each output's entry is retired exactly when its bumped count equals the producer's input count; otherwise its count goes up by one. |
| OptimizerGraph.NeverRetired | src/optimizer/__init__.py:146-161 | An entry whose gradient comes from an operation without inputs, as the loss seed does, is never retired. |
| OptimizerGraph.GradientTable.constructor | src/optimizer/__init__.py:146 | the table starts with the loss seeded at count 0 |
| OptimizerGraph.GradientTable.GatherOutputs | src/optimizer/__init__.py:150-161 | the lookup loop returns and leaves the table exactly as `Gather` specifies |
| OptimizerGraph.GradientTable.Walk | src/optimizer/__init__.py:149-168 | the reverse loop visits exactly the operations of `WalkFrom` and leaves its table |
| OptimizerGraph.WalkFrom | src/optimizer/__init__.py:149-164 | the walk over the first `k` operations visits only indices below `k` |
| OptimizerGraph.WalkAdmitted | src/optimizer/__init__.py:149-164 | Every operation the walk visits passes the skip rule: it has a gradient, at least one output gradient and an input downstream. |
| OptimizerGraph.WalkDescending | src/optimizer/__init__.py:149 | The walk visits operations in strictly decreasing graph position. |
| OptimizerGraph.WalkVisits | src/optimizer/__init__.py:149-164 | Visits come in reverse graph order. Every visited operation has a gradient, at least one output gradient and an input downstream, and its gradient list lines up with its outputs. |
| OptimizerSchedule.StepIndicator | src/optimizer/__init__.py:98-100 | `step` is 0 or 1 |
| OptimizerSchedule.FirstWindow | src/optimizer/__init__.py:98-100 | Within the first window, `step` is 1 iff the micro-step is the window's last. |
| OptimizerSchedule.StepPeriodic | src/optimizer/__init__.py:98-100 | `step` repeats with the accumulation window |
| OptimizerSchedule.OneApplyPerWindow | src/optimizer/__init__.py:98-100 | In every window, `step` is 1 on exactly its last micro-step. |
| OptimizerSchedule.Gate | src/optimizer/__init__.py:98-104 | On apply steps `(step, mstep, beta1, beta2)` is `(1, 0, opt_beta1, opt_beta2)`; otherwise it is `(0, 1, 1, 1)`. |
| OptimizerSchedule.GammaAsWritten | src/optimizer/__init__.py:118-132 | As written, with a non-zero denominator, gamma is 0.999 when `v1v2 ≥ v1v1`, else 0.001 when `v1v2 ≥ v2v2`, and otherwise the unclamped ratio `(v2v2 - v1v2) / (v1v1 + v2v2 + 2·v1v2)`. |
| OptimizerSchedule.GammaAsWrittenLeavesUnitInterval | src/optimizer/__init__.py:127-132 | For g1 = (1, 0) and g2 = (-1, 0.1) the as-written gamma is 201 |
| OptimizerSchedule.MinNormGamma | src/optimizer/__init__.py:121-132 | The corrected gamma has the same two clamped branches and always lies strictly in (0, 1). |
| OptimizerSchedule.MinNormGammaMinimises | src/optimizer/__init__.py:127-132 | In the interior branch the corrected gamma minimises the blended gradient's squared norm: any `t` exceeds it by `‖g1−g2‖²(t−γ)²`. |
| OptimizerSchedule.LossForHead | src/optimizer/__init__.py:116-134 | every head other than the third under MGDA keeps its own loss |
| OptimizerSchedule.BlendBetween | src/optimizer/__init__.py:134 | a gamma in [0, 1] blends to a loss between the two it blends |
| OptimizerSchedule.BlendAsWrittenOutside | src/optimizer/__init__.py:127-134 | with the as-written gamma, losses 1 and 0 blend to 201 |
| OptimizerSchedule.MgdaLoss | src/optimizer/__init__.py:117-134 | the MGDA loss with the corrected gamma lies between the first two losses |
| OptimizerUpdate.Apply | src/optimizer/__init__.py:17-19 | an `assign`, `assign_sub` or `assign_add` changes only its own target |
| OptimizerUpdate.ExecuteKeeps | src/optimizer/__init__.py:17-19 | a slot that no emitted assignment writes keeps its value |
| OptimizerUpdate.AccumulateOps | src/optimizer/__init__.py:27-28 | accumulation emits exactly one assignment, and it writes the buffer |
| OptimizerUpdate.AccumulateEffect | src/optimizer/__init__.py:27-28 | After accumulating, the buffer is `2·old + grad`; nothing else changes. |
| OptimizerUpdate.AccumulateDoubles | src/optimizer/__init__.py:27-28 | `k` accumulations of `g` into an empty buffer leave `Doubled(k, g)`, where each step doubles the buffer and adds `g`. |
| OptimizerUpdate.DoubledClosedForm | src/optimizer/__init__.py:27-28 | `Doubled(k, g) == (2^k − 1)·g` |
| OptimizerUpdate.AccumulateGeometric | src/optimizer/__init__.py:27-28 | `k` accumulations of `g` into an empty buffer leave `(2^k − 1)·g` |
| OptimizerUpdate.AccumulateNeverWritesVariable | src/optimizer/__init__.py:27-28 | accumulation never writes any variable |
| OptimizerUpdate.ParseSpec | src/optimizer/__init__.py:41-42 | a spec always yields at least one token |
| OptimizerUpdate.ParseRender | src/optimizer/__init__.py:41-42 | Render steps whose names and arguments contain neither separator: parsing gives back the names and argument lists, in order. |
| OptimizerUpdate.Chain | src/optimizer/__init__.py:41-43 | A failing chain names a step whose transform is not registered. |
| OptimizerUpdate.ChainFails | src/optimizer/__init__.py:41-43 | The chain fails iff some name is not registered, and it reports the first such name. |
| OptimizerUpdate.IsLarge | src/optimizer/__init__.py:47-54 | A large tensor has at least one dimension, more than one entry and no "embed" in its name. `LargeExclusions` lists the other exclusions. |
| OptimizerUpdate.LargeExclusions | src/optimizer/__init__.py:48-54 | A variable is never large in any of these cases: its size is at most 1; its name contains "embed"; it has "input" without "lang_in"/"vid_in"; it has "output" without "lang_out"/"vid_out"; it has too few dimensions. |
| OptimizerUpdate.SingleEntryNotLarge | src/optimizer/__init__.py:51 | a variable whose dimensions all have size 1 is not large |
| OptimizerUpdate.MaxFan | src/optimizer/__init__.py:66-68 | `max_fan` is the larger of the fan-in size and `size // fan_in_size` |
| OptimizerUpdate.MaxFanBound | src/optimizer/__init__.py:66-68 | a fan-in no larger than the size gives `1 ≤ max_fan ≤ size` |
| OptimizerUpdate.TargetVariance | src/optimizer/__init__.py:66-71 | Scaling by depth multiplies the unscaled target variance by the block count. |
| OptimizerUpdate.VarianceBounds | src/optimizer/__init__.py:66-69 | a fan-in no larger than the size keeps the target variance in `[0, 2/max_fan]` |
| OptimizerUpdate.UpdateOps | src/optimizer/__init__.py:37-74 | The update fails iff some step of the optimizer spec names an unregistered transform. |
| OptimizerUpdate.UpdateWritesOnce | src/optimizer/__init__.py:37-74 | The update writes the variable exactly once, as its last assignment. The write is `assign_sub` iff the tensor is not large or standardisation is off. An attached buffer is zeroed first. The update itself emits no other assignment; assignments the transforms emit are not modelled. |
| OptimizerUpdate.FlushDiscardsGradient | src/optimizer/__init__.py:37-38 | with a buffer attached, the raw gradient has no influence on the update |
| OptimizerUpdate.UpdateEffect | src/optimizer/__init__.py:37-63 | After a plain update the variable holds its old value less the final gradient, and the flushed buffer holds 0. |
| OptimizerUpdate.OptimizerCtx.GradientAccumulation | src/optimizer/__init__.py:27-28 | appends exactly the accumulation of the attached buffer and changes nothing else |
| OptimizerUpdate.OptimizerCtx.ApplyTransforms | src/optimizer/__init__.py:41-43 | The loop leaves `grad` as the chain's result or fails as the chain does; the emitted ops are unchanged. |
| OptimizerUpdate.OptimizerCtx.Finish | src/optimizer/__init__.py:45-74 | `grad` becomes the rezero-scaled, decayed gradient, and exactly one write of the variable is appended. |
| OptimizerUpdate.OptimizerCtx.ScaleGradient | src/optimizer/__init__.py:45-59 | `grad` is multiplied by the rezero multiplier for "rezero" variables, then large tensors with positive decay add `weight_decay · value · learning_rate`. No op is emitted. |
| OptimizerUpdate.OptimizerCtx.Write | src/optimizer/__init__.py:61-74 | Exactly one write is appended: `assign_sub(var, grad)`, or for large tensors under weight standardisation the assignment of the standardised `value − grad`. |
| OptimizerUpdate.OptimizerCtx.Update | src/optimizer/__init__.py:31-74 | The update succeeds iff the chain does, and then appends exactly `UpdateOps`. On an unknown transform only the flush has been emitted. |
| OptimizerUpdate.OptimizerCtx.Dispatch | src/optimizer/__init__.py:169-173 | A buffer is attached when accumulating or when one exists. Exactly "accumulate" accumulates; any other mode runs the update. |
| OptimizerUpdate.TwoStepWindow | src/optimizer/__init__.py:27-39 | Window 2, value 1.0, gradient 0.2 twice: the buffer holds 0.2 after step 1. After step 2 the variable is 0.8 and the buffer is 0. |
| Text.Split | src/train.py:96 | `str.split` on a non-empty separator gives at least one piece, and no piece contains the separator. |
| Text.Lower | src/train.py:96 | `str.lower` keeps the length and lower-cases each ASCII letter in place. |
| Text.ParseNat | src/train.py:96 | `int` of a string succeeds iff the string is a non-empty run of ASCII digits. |
| Text.JoinSplit | src/optimizer/__init__.py:41-42 | joining the pieces of `str.split(sep)` with `sep` restores the string |
| Text.SplitJoin | src/optimizer/__init__.py:41-42 | splitting pieces joined by a separator they lack gives the pieces back |
| Text.DecimalRoundTrip | src/inputs.py:372 | `int` of the decimal digits of `n` is `n` |

## Left out

- Floating point is not modelled; values are reals. This leaves out:
  - the `rsqrt_eps` rescale of weight standardisation, which is the parameter `standardise`;
  - NaN from the reciprocal that is evaluated on every gamma branch, which the model rules out with a non-zero-denominator precondition;
  - NaN from a zero accumulation window in the modulus `current_step % grad_accumulation`. The comparison with 0 is then false, so `step` is 0, as `OptimizerSchedule.StepIndicator` states; only the NaN modulus value itself is left out.
- Tensors are single scalars. The einsum shapes, `reduce_sum` over the head dimension and per-element arithmetic are not modelled.
- `gradients()`, the gradient rule of each operation and the `OPTIMIZERS` transforms are not shown in the source. They are parameters: a rule on the gradient table, and a registry of functions from gradient and arguments to gradient. Their persistent optimizer state is not modelled.
- The gradients the rule adds for an operation's inputs are not modelled. Neither is the finalisation of a trainable variable's gradient.
- The mtf wrappers (`einsum`, `scoped`, `identity`, `combine_assignments`) are not modelled. Assignments are kept in emission order; the grouping and reordering by `combine_assignments` is left out.
- The host-balancing heuristic (`argmax`, decrements of `0.1/num_hosts`, src/train.py:121-129) is not modelled. Only its effect is kept: the number of sub-batch holders.
- `mesh_impl.slice_begin`, `slice_shape`, `l2p` and the device assignment are inputs: a bucket per processor, slice begins and device strings.
- `tf.io.gfile.glob`, `random.shuffle` and TFRecord iteration are not modelled. The glob result is an input, the shuffle is an arbitrary function of the list, and the by-iteration count is an arbitrary function of the file name. `tf.data` pipelines, the frame decoder, infeed threads, sessions and summaries are left out.
- Python regular-expression corners in `_get_number_of_documents` are not modelled: `$` also matching before a trailing newline, `\d` matching non-ASCII digits, and `.` not matching a newline (the model gives 5 for "x_5\ntfrecords", where Python finds no match). `str.lower` is modelled on ASCII letters only.
- The full buffer-variable name at src/optimizer/__init__.py:170 is not modelled; "a buffer already exists" is a boolean.
- The OptimizerCtx record itself lives in a file that is not part of this model. Only the fields `update` and `gradient_accumulation` use are modelled.
- The learning-rate schedule is not modelled; `learning_rate` is a parameter.
- The call at src/train.py:440 does not match the signature of `get_optimizer`, so the training model function is not linked to the optimizer model.
- OptimizerGraph.WalkVisits: states that every visited operation passes the skip rule. It does not separately state that every operation passing the rule is visited; that holds by the definition of `WalkFrom`, which `Walk` is proved to compute.
- The skip search takes the file-name parser as a parameter. The source's parser, `_get_number_of_documents`, is `Inputs.DocumentCount`. Every statement about the search holds for any parser, including that one.
- Inputs.SkipIndex: the search must terminate, so the model requires some file with a positive count. Without one the source has two behaviours the model does not capture. An empty `all_files` never enters the loop body, and the return at src/inputs.py:406 raises UnboundLocalError because `skip_idx` and `remainder` were never bound. A non-empty list whose effective counts are all 0 loops forever: `cumsum` never exceeds `n_batches`, and the exact-hit branch does not stop the loop.
- OptimizerUpdate.UpdateWritesOnce: the transforms are functions from gradient to gradient and emit no assignments. In the source each transform receives the whole context, `update_ops` included, and may append to it; those assignments are not modelled.
- Train.HostId: Python's `int` also accepts surrounding whitespace, a sign, underscores between digits and non-ASCII digits. The model accepts plain ASCII digit runs only, and reports ValueError for the rest. `Text.ParseNat` has the same restriction.
- Inputs.Build: only the failures of the builders up to their first use of the file share are modelled. The `time_patch`/`language_token_per_frame` assertion and the failures of the `tf.data` pipeline are left out.
- TrainLayout.SlotsPerBucket: with a zero slice product numpy's `num_cores // np.int64(0)` gives 0 and a warning, not an exception; the model reports a division by zero instead. The case is unreachable, as its row says.
- Train.BatchSize: the source checks each shape's batch size and then fills that shape's map before it moves to the next shape, so a map error on an earlier shape comes before a batch-size error on a later one. The model checks all batch sizes first (`Train.BatchSize`) and builds each map separately (`TrainLayout.ShapePnumMap`); that interleaving order is not modelled.
- OptimizerUpdate.VarianceBounds: bounds the variance only when not scaling by depth. Scaling by depth multiplies it by the block count.

## Findings

| source | as written | input that shows it | evidently intended | confidence | as-written member | corrected member |
|---|---|---|---|---|---|---|
| src/optimizer/__init__.py:131 | The MGDA denominator is `v1v1 + v2v2 - (-2)·v1v2 = ‖g1 + g2‖²`, and gamma is not clamped. | g1 = (1, 0), g2 = (-1, 0.1): v1v1 = 1, v1v2 = -1, v2v2 = 1.01 gives gamma = 201. Blending losses 1 and 0 then gives 201. | The min-norm coefficient `(v2v2 - v1v2)/‖g1 - g2‖²` lies in (0, 1) and minimises the blended gradient's norm. The corrected member leaves this interior ratio unclamped; clamping it to [0.001, 0.999] with `min_gamma` is not modelled. | not executed | OptimizerSchedule.GammaAsWrittenLeavesUnitInterval | OptimizerSchedule.MinNormGammaMinimises |
| src/train.py:167-168 | A slice-cache hit hands out `tf_tensor`, the most recently created slice, instead of `slice_dict[s_begin]`. | Processors with slice begins A, B, A: the third processor gets B's slice. This arises with `run_mode == 'sample'` when the batch dimension and one other dimension are both sliced: the whole map is flattened row-major and coordinate 0 is zeroed, so the keys come out A, B, A, B. Outside sampling each bucket's processors are adjacent, and the as-written hit happens to hand out the right slice. | A hit hands out the slice cached for that begin. | not executed | Train.CacheAsWrittenMisassigns | Train.LayOutSlices |
