# GraphGroup core of Marian training, in Dafny

This project models `GraphGroup` from `src/training/graph_group.cpp`. That is
the state and behaviour that all of Marian's training strategies share:

- **Cost scaling.** The loss-scale factor grows after a run of clean updates
  and shrinks when too many updates have NaN/Inf gradients.
- **Gradient normalization.** `computeNormalizationFactor` builds the factor the
  gradient is divided by. It undoes cost scaling, optionally turns a summed loss
  into a per-word mean, and pulls an outlier gradient norm back to the
  scheduler's running average.
- **Persistence.**
  - `load` reloads a model or a pretrained model.
  - `restoreFromCheckpoint` copies the checkpoint's `master_parameters` into
    every graph.
  - `save` swaps in the smoothed parameters, writes the model (and possibly a
    numbered snapshot), swaps back and writes the `.optimizer.npz` checkpoint.
    `saveModel`, `saveCheckpoint`, `swapWithSmoothed` and `swapWithOriginal`
    are its steps.
- **Lifecycle.** `validate` refuses to run after `finalize`.
- **Batch-fit search.** `collectStats` first doubles a fake batch from 512
  until it no longer fits in the workspace. Then, for the lengths step,
  2·step, … up to the rounded maximum length, it binary-searches the largest
  batch that fits. Every fitting size goes into the statistics.
- **Bookkeeping.**
  - `updateAverageTrgBatchWords` keeps a 0.99/0.01 running average of target
    words per batch.
  - `numberOfInputFiles` counts the corpus streams.

## Project layout

| Module | What it holds |
|---|---|
| `CostScaling` | The counter updates as functions, and their properties. |
| `GradientNorm` | The normalization factor. |
| `Paths` | Checkpoint and snapshot file names. |
| `Checkpointing` | Load, restore, save and swap. |
| `BatchFit` | The collectStats search. |
| `InputFiles` | The input-file count. |
| `BatchWords` | The running average. |
| `Training` | `class GraphGroup`, whose fields are the object's mutable state. |

Each method of `class GraphGroup` updates its fields in place. It is proved to
end in the state that its module's specification function gives for the old
state, and to leave the other state untouched. The loops of the source stay
loops: over the shards in the swaps, over the graphs in load and restore, over
the items in saveCheckpoint, and the doubling, length and do-while loops of
collectStats.

### How the state is modelled

The persistence state is a `Machine` with these parts:

- the live parameters of each graph;
- the smoothed copy held by the optimizer shard of the same index;
- the files on disk, as a map from path to items;
- a trace of the calls made to collaborators (barriers, shard swaps,
  validation, scheduler and model reads and writes, forward passes);
- an `aborted` flag standing for a fatal `ABORT_IF`.

### How collectStats is modelled

Whether a batch fits is an oracle on (lengths, size).

The search's size_t arithmetic is modelled modulo 2^64. This matters because
the do-while exit test `end - start > step` wraps when `end` falls below
`start`. From such a bracket the loop never exits (`BatchFit.StuckNeverExits`).
The model's search stops there and reports `hung`. `CollectStats` returns that
flag. When it is set, the method also leaves `throwNaN` switched off, because
the source would never reach the line that restores it.

Two lemmas show when this happens:

- `BatchFit.NoFitHangsNextBucket`: a length at which no size fits, followed by
  another length, makes the next search start from (1, 1), and that search
  hangs.
- `BatchFit.SearchFromTwoHangsUnlessOneFits`: a search from (1, 2) hangs
  exactly when a single sentence does not fit.

### Behaviour of the code worth knowing

- **Tolerance test is strict.** The decrease test is `nanPercent > tolerance`.
  Three NaN updates in ten, at tolerance 0.3 and range 10, keep the factor
  (`CostScaling.ThreeInTenAtToleranceKeepsFactor`).
- **No floor on the factor.** The decrease divides whenever the factor is above
  the minimum, so one division can take it below the minimum
  (`CostScaling.DecreaseCanGoBelowMinimum`). The floor holds only when the
  factor starts at least one multiplier above it
  (`CostScaling.DecreaseKeepsFloorFromAbove`).
- **Only the main process swaps.** `save` swaps the parameters only on the main
  process. Other processes take part only in the two barriers
  (`Checkpointing.SaveOffMainOnlySynchronizes`).

## Model

| member | source | states |
|---|---|---|
| CostScaling.NanPercent | src/training/graph_group.cpp:112-113 | The NaN share since the last reset is between 0 and 1. It is 1 exactly when no clean update was counted. |
| CostScaling.Increase | src/training/graph_group.cpp:82-103 | With scaling off, nothing changes. The factor changes only together with a reset of both counters. The counters are reset exactly when the incremented clean count is a multiple of the frequency. |
| CostScaling.IncreaseTimesMultipliesPerFrequency | src/training/graph_group.cpp:86-102 | After k clean updates from clean count n, the factor has been multiplied exactly (n+k)/freq times. The clean count is (n+k) mod freq. The NaN count survives only if no increase happened. |
| CostScaling.IncreaseStep | src/training/graph_group.cpp:86-102 | One more clean update advances the quotient and remainder of the clean count by freq, as the multiply-and-reset rule requires. |
| CostScaling.IncreaseKeepsBelowFrequency | src/training/graph_group.cpp:91-102 | The clean counter stays below the frequency: an invariant of every reachable state. |
| CostScaling.Decrease | src/training/graph_group.cpp:106-135 | With scaling off, nothing changes. A changed factor means it was above the minimum and both counters were reset. |
| CostScaling.DecreaseKeepsBelowFrequency | src/training/graph_group.cpp:106-135 | A NaN update keeps the clean counter below the frequency. |
| CostScaling.DecreaseResetsExactlyWhenWarranted | src/training/graph_group.cpp:110-134 | The NaN count rises by one, so the share is defined. The counters reset exactly when the window is full and the share exceeds the tolerance. The factor is divided only if it is above the minimum. |
| CostScaling.DecreaseStopsAtMinimum | src/training/graph_group.cpp:115-129 | At or below the minimum, a decrease never changes the factor. |
| CostScaling.DecreaseKeepsFloorFromAbove | src/training/graph_group.cpp:115-116 | A factor at least one multiplier above the minimum stays at or above it after a decrease. |
| CostScaling.DecreaseCanGoBelowMinimum | src/training/graph_group.cpp:115-116 | Some usable configuration and state at or above the minimum fall below it after one decrease. |
| CostScaling.ThreeInTenAtToleranceKeepsFactor | src/training/graph_group.cpp:114 | Three NaN updates in ten, at tolerance 0.3 and range 10, leave the factor and keep counting. |
| Training.GraphGroup.IncreaseCostScaleFactor | src/training/graph_group.cpp:82-103 | The counters become CostScaling.Increase of the old counters. Nothing else changes. |
| Training.GraphGroup.DecreaseCostScaleFactor | src/training/graph_group.cpp:106-135 | The counters become CostScaling.Decrease of the old counters. Nothing else changes. |
| GradientNorm.ComputeNormalizationFactor | src/training/graph_group.cpp:167-215 | The factor is the cost scale times the word count when the norm is not finite, when dynamic scaling is off, or before a full window. Otherwise an outlier gets that base times its normalized norm over the running average. |
| GradientNorm.CostScaleInvariance | src/training/graph_group.cpp:180-182 | Scaling the norm and the cost-scale factor by the same k > 0 leaves the normalized norm and the outlier decision unchanged. It multiplies the factor by k, so the update is the same. |
| GradientNorm.OutlierRescaledToAverage | src/training/graph_group.cpp:204-211 | Dividing an outlier's normalized norm by its extra factor gives exactly the running average. |
| Training.GraphGroup.ComputeNormalizationFactor | src/training/graph_group.cpp:167-215 | The method's step-by-step result equals GradientNorm.ComputeNormalizationFactor for the object's options and cost-scale factor. |
| Training.GraphGroup.NormalizedNorm | src/training/graph_group.cpp:181-186 | The method's norm is GradientNorm.NormalizedNorm: cost scaling undone, per target word. |
| Training.GraphGroup.OutlierTest | src/training/graph_group.cpp:188-206 | The outlier decision and running average are those of GradientNorm for the object's options, in the plain or the log domain. |
| Paths.CheckpointName | src/training/graph_group.cpp:266 | The checkpoint name is the model name followed by `.optimizer.npz`. |
| Paths.CheckpointNameInjective | src/training/graph_group.cpp:266 | Different model names never share a checkpoint name. |
| Paths.Decimal | src/training/graph_group.cpp:347 | The batch count's decimal text is digits only, without a leading zero. |
| Paths.ParseDecimalInvertsDecimal | src/training/graph_group.cpp:347 | Reading the decimal text back gives the number. |
| Paths.IterationLabel | src/training/graph_group.cpp:346-348 | With a scheduler, the label is digits that read back as the batch count. Without one, it is `unknown`. |
| Paths.SnapshotName | src/training/graph_group.cpp:349-350 | The last four characters of the model name are replaced by `.iter<label>.npz`, and the rest is kept. |
| Paths.SnapshotNamesDistinct | src/training/graph_group.cpp:345-351 | Snapshots taken at different batch counts have different names. |
| Paths.SnapshotNameIsFresh | src/training/graph_group.cpp:349-351 | A snapshot never overwrites the model file or its checkpoint. |
| Checkpointing.FindItem | src/training/graph_group.cpp:282-283 | An item of that name is found exactly when the list has one, and the found tensor is that item's. |
| Checkpointing.Convert | src/training/graph_group.cpp:299-300 | Conversion sets the element type and keeps shape and values. |
| Checkpointing.SwapShards | src/training/graph_group.cpp:392-394 | Shards from i on exchange live and smoothed parameters, one swap call per shard in order, then distribute. |
| Checkpointing.Swap | src/training/graph_group.cpp:388-404 | Unequal graph and optimizer counts abort. Otherwise every graph's live and smoothed copies are exchanged, one swap call per shard then distribute, and the files are left alone. |
| Checkpointing.SwapBackRestores | src/training/graph_group.cpp:388-404 | Swapping to smoothed and back restores both copies and does not abort. |
| Checkpointing.WriteModel | src/training/graph_group.cpp:340 | Writing a model file replaces exactly that path, with the given weights. |
| Checkpointing.SaveModelSpec | src/training/graph_group.cpp:336-360 | saveModel leaves the parameters alone and emits its writes in order: snapshot, model file with configuration, scheduler state. |
| Checkpointing.WithMaster | src/training/graph_group.cpp:371-382 | The written items always hold a master copy. Graph 0's parameters are appended exactly when the optimizer's items lack one, and the optimizer's items come first unchanged. |
| Checkpointing.CheckpointMaster | src/training/graph_group.cpp:371-382 | The master copy found in the written checkpoint is the optimizer's own, or else graph 0's parameters. |
| Checkpointing.SaveCheckpointSpec | src/training/graph_group.cpp:362-386 | saveCheckpoint writes the items with a master copy to `<model>.optimizer.npz` and changes no parameters. |
| Checkpointing.SaveSpec | src/training/graph_group.cpp:309-334 | save leaves both parameter copies as they were. It aborts exactly on the main process with unequal graph and optimizer counts, and then writes no file. Its order of steps and its files are stated by SaveOnMain, SaveOffMainOnlySynchronizes, SaveAbortsOnCountMismatch and SaveWritesSmoothedModelAndLiveCheckpoint. |
| Checkpointing.SaveOffMainOnlySynchronizes | src/training/graph_group.cpp:309-334 | Off the main process, save only adds two barriers. |
| Checkpointing.SaveAbortsOnCountMismatch | src/training/graph_group.cpp:313-319 | On the main process, a count mismatch aborts in the first swap, before any file is written. |
| Checkpointing.SaveOnMain | src/training/graph_group.cpp:309-334 | A save on the main process does not abort and leaves both parameter copies as they were. Its events come in source order: barrier, swap, final validation, barrier, model writes, swap back, checkpoint, barrier. |
| Checkpointing.SaveWritesSmoothedModelAndLiveCheckpoint | src/training/graph_group.cpp:315-331 | The model file and snapshot hold graph 0's smoothed parameters. The checkpoint's master copy comes from the live parameters. No other modelled file changes; the translator configuration and scheduler files that save also writes appear only as events. |
| Checkpointing.LoadWeights | src/training/graph_group.cpp:241 | Graph i takes the model file's weights when the file has them, and keeps its parameters otherwise. The other graphs are untouched and the load is recorded. |
| Checkpointing.LoadModels | src/training/graph_group.cpp:240-241 | Every graph from i on takes the model file's weights, one load call per graph in order. Earlier graphs are untouched. |
| Checkpointing.RestoreParams | src/training/graph_group.cpp:291-304 | The graph loop from i on never touches the graphs before i, the smoothed copies or the files. Its per-graph outcome is stated by RestoreParamsAllMatch and RestoreParamsFirstMismatch. |
| Checkpointing.Converted | src/training/graph_group.cpp:299-300 | The master copy as a graph receives it: the graph's element type, the master's shape and values. |
| Checkpointing.RestoreOne | src/training/graph_group.cpp:302-303 | One graph's parameters are replaced by the converted master copy. |
| Checkpointing.RestoreParamsAllMatch | src/training/graph_group.cpp:291-304 | When every remaining graph has the master's shape, all of them take the master values with their own element types, and nothing aborts. |
| Checkpointing.RestoreParamsFirstMismatch | src/training/graph_group.cpp:295-296 | The first graph whose shape differs aborts the restore, before its parameters are touched. |
| Checkpointing.RestoreSpec | src/training/graph_group.cpp:258-307 | Without a checkpoint file, nothing changes. Without a master item, only the optimizer load is recorded. The files and the number of graphs never change. |
| Checkpointing.LoadSpec | src/training/graph_group.cpp:217-256 | With no-reload, or with no model file and no pretrained model, nothing changes. The files and the number of graphs never change. Without a model file nothing aborts, because only the checkpoint restore can abort. |
| Checkpointing.LoadModelWithoutCheckpoint | src/training/graph_group.cpp:234-271 | A model file with weights and no checkpoint file: the scheduler state, then the model for every graph in order, with reload marked. Every graph holds the model's weights and nothing aborts. |
| Checkpointing.LoadModelCheckpointWithoutMaster | src/training/graph_group.cpp:234-285 | A model file with weights and a checkpoint without a master copy: after the model loads, the checkpoint's items go to the optimizer. Every graph holds the model's weights and nothing aborts. |
| Checkpointing.LoadPretrained | src/training/graph_group.cpp:245-254 | No model file and a named pretrained model with weights: every graph holds the pretrained weights, loaded in order without the reload mark. No scheduler state or checkpoint is read, and nothing aborts. |
| Checkpointing.RestoreGivesMasterValues | src/training/graph_group.cpp:282-304 | A checkpoint whose master copy has every graph's shape gives every graph the master values, keeping its element type. |
| Checkpointing.RestoreAbortsOnShapeMismatch | src/training/graph_group.cpp:295-296 | A master copy of another shape than graph k's (the first such graph) is fatal at k, and the graphs from k on keep their parameters. |
| Checkpointing.LoadRestoresMaster | src/training/graph_group.cpp:217-307 | With reloading on, a model file with one weights item and a checkpoint whose master copy has the same shape give every graph the master values. Nothing aborts. |
| Checkpointing.CheckpointRoundTrip | src/training/graph_group.cpp:217-386 | The optimizer supplies no master copy here. After a save on the main process, a reload into the same number of graphs, whatever their parameters and smoothed copies, does not abort and gives every graph the values and shape graph 0 had when saved. The checkpoint's live master copy overrides the smoothed model file. |
| Training.GraphGroup.SwapShards | src/training/graph_group.cpp:392-394 | The loop over shards ends in Checkpointing.SwapShards of the old state, from shard 0. |
| Training.GraphGroup.SwapWithSmoothed | src/training/graph_group.cpp:388-395 | The new state is Checkpointing.Swap of the old one with swapAvg on. The training counters are unchanged. |
| Training.GraphGroup.SwapWithOriginal | src/training/graph_group.cpp:397-404 | The new state is Checkpointing.Swap of the old one with swapAvg off. The training counters are unchanged. |
| Training.GraphGroup.WriteModelFile | src/training/graph_group.cpp:340 | The new state is Checkpointing.WriteModel of graph 0's weights. |
| Training.GraphGroup.SaveModel | src/training/graph_group.cpp:336-360 | The new state is Checkpointing.SaveModelSpec of the old one. |
| Training.GraphGroup.SaveCheckpoint | src/training/graph_group.cpp:362-386 | The search loop and the append give Checkpointing.SaveCheckpointSpec of the old state. |
| Training.GraphGroup.Save | src/training/graph_group.cpp:309-334 | The new state is Checkpointing.SaveSpec of the old one. |
| Training.GraphGroup.LoadModels | src/training/graph_group.cpp:240-241 | The loop over graphs gives Checkpointing.LoadModels of the old state. |
| Training.GraphGroup.RestoreFromCheckpoint | src/training/graph_group.cpp:258-307 | The loop, which returns at an abort, gives Checkpointing.RestoreSpec of the old state. |
| Training.GraphGroup.Load | src/training/graph_group.cpp:217-256 | The new state is Checkpointing.LoadSpec of the old one. |
| Training.ValidateSpec | src/training/graph_group.cpp:406-408 | validate aborts exactly when training is finalized, with the training-finished error. Otherwise it changes nothing. |
| Training.GraphGroup.Validate | src/training/graph_group.cpp:406-408 | The new state is Training.ValidateSpec of the old state and the finalized flag. |
| Training.GraphGroup.Finalize | src/training/graph_group.cpp:410-412 | The finalized flag is set. Nothing else changes. |
| BatchWords.Ema | src/training/graph_group.cpp:512-514 | The new average lies between the old average and the new batch's word count. |
| BatchWords.EmaContracts | src/training/graph_group.cpp:513 | One update shrinks the distance to the new count by the factor 0.99. |
| BatchWords.KeepPower | src/training/graph_group.cpp:513 | 0.99^k lies in (0, 1]. |
| BatchWords.EmaTimesGeometric | src/training/graph_group.cpp:512-514 | After k batches of the same size, the distance to that size is 0.99^k times the initial distance. |
| BatchWords.EmaFixedPoint | src/training/graph_group.cpp:513 | A batch of exactly the average size leaves the average unchanged. |
| Training.GraphGroup.UpdateAverageTrgBatchWords | src/training/graph_group.cpp:512-514 | The average becomes BatchWords.Ema of the old average. Nothing else changes. |
| InputFiles.NumberOfInputFiles | src/training/graph_group.cpp:516-526 | Without TSV, the count is the number of training sets. With TSV, it is at most the number of fields. |
| InputFiles.TsvCountIsFieldsLessSpecialColumns | src/training/graph_group.cpp:517-523 | With TSV, the count is the fields less one per announced alignment or weight column, never below zero. |
| InputFiles.TsvCountCases | src/training/graph_group.cpp:517-523 | No special column: every field is a file. Both columns, with two or more fields: two fewer. Any special column with fields left: fewer than the fields. |
| Training.GraphGroup.NumberOfInputFiles | src/training/graph_group.cpp:516-526 | The method's result equals InputFiles.NumberOfInputFiles of the options. |
| BatchFit.USub | src/training/graph_group.cpp:491 | size_t subtraction is exact when there is no underflow, and wraps by 2^64 otherwise. |
| BatchFit.UAdd | src/training/graph_group.cpp:480 | size_t addition is exact below 2^64. |
| BatchFit.RoundUpToStep | src/training/graph_group.cpp:443-444 | The maximum length rounded up is a multiple of the step, and less than one step above. |
| BatchFit.LocalMaxes | src/training/graph_group.cpp:447-451 | One limit per input file: 1 for a "class" input, the rounded maximum length otherwise. |
| BatchFit.CappedLengths | src/training/graph_group.cpp:456-459 | Each file's tested length is the smaller of the tested length and its limit. |
| BatchFit.Doubling | src/training/graph_group.cpp:453-466 | The result is the first probed size that does not fit. Every earlier probe fitted and was smaller. Each probe records the oracle's answer. |
| BatchFit.DoublingSizes | src/training/graph_group.cpp:453-466 | The k-th probe is the start size doubled k times by addition, and the result is the last probe. |
| BatchFit.DoublingDoubles | src/training/graph_group.cpp:453-466 | The probes are b, 2b, 4b, …: the k-th is b·2^k, and the result is b·2^(n-1) for n probes. |
| BatchFit.DoubledTimesIsProduct | src/training/graph_group.cpp:465 | Doubling a size k times multiplies it by 2^k. |
| BatchFit.Next | src/training/graph_group.cpp:487-492 | A fitting midpoint moves start above it. Otherwise end moves below it, in size_t. |
| BatchFit.Search | src/training/graph_group.cpp:479-493 | The start only grows, and it stays put exactly when nothing fitted. A search that ends does so within its bracket with the exit test false. A hung one ends with end below start. |
| BatchFit.SearchProbes | src/training/graph_group.cpp:480-483 | Every probe is a size inside the starting bracket, recorded with the oracle's answer. |
| BatchFit.StepInRange | src/training/graph_group.cpp:480-493 | Inside the modelled range the midpoint does not wrap. The bracket shrinks, and an inverted bracket keeps the loop running. |
| BatchFit.StuckStep | src/training/graph_group.cpp:479-493 | From a stuck bracket, the exit test holds and the next bracket is stuck again. |
| BatchFit.StuckNeverExits | src/training/graph_group.cpp:479-493 | From a stuck bracket the loop test holds after any number of passes: the loop never exits. |
| BatchFit.SearchFromTwoHangsUnlessOneFits | src/training/graph_group.cpp:479-493 | A search from (1, 2) hangs exactly when one sentence does not fit. |
| BatchFit.SearchProbesBelowEnd | src/training/graph_group.cpp:479-493 | From a bracket with start below end, every probed size is below the end. |
| BatchFit.SearchLargestFitted | src/training/graph_group.cpp:479-493 | Every recorded size is below the final start. When any size fitted, the one just below the final start is recorded, so it is the largest. |
| BatchFit.FittedEntriesBelow | src/training/graph_group.cpp:487-488 | Probes all below a bound record only sizes below it. |
| BatchFit.FollowingSearchNoLarger | src/training/graph_group.cpp:479-495 | A search from (1, end) that recorded a size and did not hang has its largest size one below its final start. A search from (1, that final start) records nothing larger. |
| BatchFit.NextBucketNoLarger | src/training/graph_group.cpp:470-495 | After a length at which some size fitted, its largest recorded size is one below its final start. Every size the next length records is at most that. |
| BatchFit.SearchBrackets | src/training/graph_group.cpp:479-495 | For a monotone oracle, a search that ends leaves the size below start fitting and the size above end not fitting, at most step apart. |
| BatchFit.Buckets | src/training/graph_group.cpp:470-496 | One search per length i, i+step, … up to the maximum. Each starts from the previous final start, and a hung bucket is the last one. |
| BatchFit.BucketsWellFormed | src/training/graph_group.cpp:470-496 | Every bucket is searched from its capped lengths and its start bracket. Each bucket follows the previous one by one step, from that search's final start. Only a hung bucket ends the list before the maximum length. |
| BatchFit.CollectStatsSpec | src/training/graph_group.cpp:424-502 | Doubling from 512, then the length loop from the step, ending hung exactly when its last search hangs. |
| BatchFit.CollectStatsWellFormed | src/training/graph_group.cpp:424-502 | The buckets of collectStats are searched and chained as the length loop does it, from the doubled size. |
| BatchFit.FittedEntriesFit | src/training/graph_group.cpp:487-488 | Only probes whose answer was "fits" are recorded. |
| BatchFit.BucketStatsFit | src/training/graph_group.cpp:470-496 | Every entry of the statistics of searched buckets fits. |
| BatchFit.StatsOnlyHoldFittingBatches | src/training/graph_group.cpp:487-488 | Every statistics entry collectStats records is a batch the oracle accepted. |
| BatchFit.ChainMultiples | src/training/graph_group.cpp:470 | Lengths that start at a multiple of the step and grow by it stay multiples of the step. |
| BatchFit.BucketLengths | src/training/graph_group.cpp:443-476 | The tested lengths are step, 2·step, … in order, each capped per file. There are none exactly when max-length is 0. Unless a search hangs, they end at the rounded maximum length. |
| BatchFit.BucketsChainEnds | src/training/graph_group.cpp:470-496 | The first search starts from the doubled size. Each later one starts from the previous search's final start. |
| BatchFit.NoFitHangsNextBucket | src/training/graph_group.cpp:470-495 | A length at which nothing fits, followed by another length, makes the next search start from (1, 1) and never exit. |
| Training.ExpressionGraph.Fits | src/training/graph_group.cpp:461-463 | The graph's answer is the oracle's. It may only be asked with NaN checks off, as collectStats switches them off at :432. |
| Training.GraphGroup.LocalMaxes | src/training/graph_group.cpp:447-451 | The loop builds BatchFit.LocalMaxes. |
| Training.GraphGroup.CapLengths | src/training/graph_group.cpp:474-476 | The loop builds BatchFit.CappedLengths. |
| Training.GraphGroup.DoubleWhileFits | src/training/graph_group.cpp:453-466 | With NaN checks off, the while loop ends at BatchFit.Doubling's size. |
| Training.GraphGroup.SearchLength | src/training/graph_group.cpp:471-495 | With NaN checks off, the do-while loop records BatchFit.Search's fitted entries, or stops where it hangs, and returns its final start. |
| Training.GraphGroup.SearchLengths | src/training/graph_group.cpp:470-496 | With NaN checks off, the length loop collects the statistics of BatchFit.Buckets and reports whether the last one hangs. |
| Training.GraphGroup.CollectStats | src/training/graph_group.cpp:424-502 | The statistics and hang flag are those of BatchFit.CollectStatsSpec. throwNaN is off during the search: every probe goes through ExpressionGraph.Fits, which requires it off, and the search methods do not modify the graph. It is restored to its old value unless the search hangs. |

## Left out

- **Floats.** IEEE arithmetic and rounding are not modelled; floats are reals.
  - This includes the float `ceil` of the maximum-length rounding (:444), modelled as exact rounding up.
  - The `float` cast of the counters is also left out.
- **Maths library.** `std::log`, `std::exp`, `std::sqrt` and `isFinite` are oracles about which nothing is assumed.
- **Logging.** Not modelled. This includes the `nanPercent` of increaseCostScaleFactor (:88-89), which computes a comparison rather than a ratio and only feeds a log message.
- **Concurrency and MPI.** Processes are not modelled. Barriers, validation and scheduler I/O appear only as events in the trace.
- **Optimizer internals.** Scatter and gather are not modelled. The optimizer's load appears as an event. Its save (:367) is not an event: the items it returns are the input `optimizerItems` of SaveCheckpointSpec and SaveSpec. Its swap is an event too, but it is also given the exchange described under Checkpointing.SwapShards below.
- **Aborting.** An `ABORT_IF` ends the process. The model records it in `aborted`, and every persistence operation requires that no abort has happened yet.
- **Other members.** checkNanOrNorm (:137-158), initGraphs (:55-77), the constructor (:5-50), setTypicalTrgBatchWords and getTypicalTrgBatchWords (:504-510) are plain accessors or device-level code outside this model.
- **file_stream.cpp.** Not part of this model: file I/O is the `files` map.
- **Model files.** A model file is one `weights` item, and `load` of a model file that has no weights leaves the graph unchanged. A graph that loads a model file takes the file's tensor whole, element type included, although in the source a graph's element type is fixed when the graphs are created (:60-63); shapes and values are unaffected, but a following checkpoint restore converts to the file's type. The model and scheduler file formats are not modelled.
- Checkpointing.Convert: keeps the values as they are. Precision loss in fp16/bf16 conversion is not modelled.
- CostScaling.Increase: the size_t counters are unbounded naturals, so their wrap after 2^64 updates is not modelled. The same holds for CostScaling.Decrease.
- CostScaling.Increase: requires a non-zero frequency when scaling is on. In the source this is a division by zero.
- CostScaling.Decrease: requires a non-zero multiplier when scaling is on. In the source this is a division by zero.
- GradientNorm.ComputeNormalizationFactor: for a finite norm under dynamic scaling, requires a non-zero cost-scale factor (when cost scaling is on) and word count, and a non-zero running average for an outlier. Float division by zero, inf and NaN are not modelled.
- Checkpointing.SwapShards: each shard call `swapWithSmoothed(graphs[i], i, graphs.size(), …)` (:393, :402) is taken to exchange graph i's full parameters with one full smoothed copy. The source keeps the smoothed model in shards, passes the shard index and count, and `distribute` (:394, :403) assembles the result. That sharding, and what `distribute` propagates across graphs, are collapsed into this exchange. SwapBackRestores and SaveWritesSmoothedModelAndLiveCheckpoint rest on it.
- Checkpointing.RestoreSpec: the optimizer's load of the checkpoint items (:279) restores optimizer state, which may include the smoothed copies. The model records it only as a LoadOptimizer event and keeps the smoothed copies as they were.
- Checkpointing.LoadSpec: a pretrained model path that is missing, or a model file without weights, loads nothing and does not abort. The model-loading code that would report this is not part of this model.
- Checkpointing.SaveModelSpec: requires a model name of at least four characters when a snapshot is written. The source's `replace` on a shorter name throws.
- BatchFit.LocalMaxes: requires "class" input types to lie within the file count. The source writes out of bounds otherwise.
- BatchFit.Search: limited to sizes below 2^62 and a step below 2^63, so that the midpoint sum does not wrap. Wrap-around is modelled only in the loop test and in the `end = current - 1` update.
- BatchFit.CollectStatsSpec: requires a positive step and max-length + 3·step < 2^64. It also requires the oracle to reject every batch of the first lengths from some cap ≤ 2^61 on, so that the doubling ends. The source loops for ever otherwise.
- BatchFit.Search: where the source loops for ever, the model stops and reports `hung`. Training.GraphGroup.CollectStats then returns the statistics gathered so far and leaves `throwNaN` off.
- **Batch statistics details.** The statistics multiplier (:488), the fake batch construction and the model build are not modelled. A statistics entry is the lengths and the batch size.
