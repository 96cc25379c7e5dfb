/**
 * The GraphGroup object of graph_group.cpp: the state shared by all
 * training strategies (cost-scale counters, the finalized flag, the running
 * batch-word average, the graphs' parameters and the optimizer shards'
 * smoothed copies) and the operations that update it in place.
 *
 * Every method is proved against the value-level specification of its
 * module: CostScaling, GradientNorm, Checkpointing, BatchFit, InputFiles and
 * BatchWords. There the properties of the operations are stated and proved.
 */
module Training {
  import opened Paths
  import opened Checkpointing
  import CostScaling
  import GradientNorm
  import BatchFit
  import InputFiles
  import BatchWords

  /** validate(): aborts once training has been finalized, and does nothing otherwise. */
  function ValidateSpec(m: Machine, finalized: bool): (r: Machine)
    requires m.aborted.None?
    ensures r.aborted.Some? <==> finalized
    ensures finalized ==> r.aborted == Some(TrainingFinished) && r.params == m.params && r.files == m.files
    ensures !finalized ==> r == m
  {
    if finalized then Fail(m, TrainingFinished) else m
  }

  /** The last of a list of buckets is one whose search never returns. */
  predicate EndsHung(buckets: seq<BatchFit.Bucket>)
  {
    |buckets| > 0 && buckets[|buckets| - 1].search.hung
  }

  /** The computation graph collectStats builds its fake batches in. */
  class ExpressionGraph {
    /** Whether a NaN or Inf in the graph is fatal (getThrowNaN / setThrowNaN). */
    var throwNaN: bool
    /** Whether a fake batch of these lengths and this size fits into the workspace. */
    const fits: BatchFit.Fits

    constructor (throwNaN: bool, fits: BatchFit.Fits)
      ensures this.throwNaN == throwNaN && this.fits == fits
    {
      this.throwNaN := throwNaN;
      this.fits := fits;
    }

    /** Build the model on a fake batch and ask whether it fits; NaN checks must be off, as the fake batch is garbage. */
    method Fits(lengths: seq<nat>, size: nat) returns (ok: bool)
      requires !throwNaN
      ensures ok == fits(lengths, size)
    {
      ok := fits(lengths, size);
    }
  }

  class GraphGroup {
    // options, fixed at construction
    const costScaling: CostScaling.Config
    const normalizeGradient: bool        // normalize-gradient
    const dynamicScaling: bool           // dynamicGradientScaling_
    const dynamicScalingFactor: real     // dynamicGradientScalingFactor_
    const dynamicScalingUseLogs: bool    // dynamicGradientScalingUseLogs_
    const options: Options
    const inputs: InputFiles.InputOptions
    const fitStep: nat                   // mini-batch-fit-step
    const maxLength: nat                 // max-length
    const inputTypes: seq<string>        // input-types

    // cost scaling
    var costScaleFactor: real
    var nanSeen: nat
    var noNanSeen: nat

    var finalized: bool
    var typicalTrgBatchWords: real

    // graphs, optimizer shards, files and collaborators
    var params: seq<Tensor>
    var smoothed: seq<Tensor>
    var files: map<string, seq<Item>>
    var trace: seq<Event>
    var aborted: Option<Fatal>

    function Numerics(): CostScaling.Counters
      reads this
    {
      CostScaling.Counters(costScaleFactor, nanSeen, noNanSeen)
    }

    function State(): Machine
      reads this
    {
      Machine(params, smoothed, files, trace, aborted)
    }

    /** The options computeNormalizationFactor reads; cost scaling is the same costScale_ flag. */
    function Normalization(): GradientNorm.Config
      reads this
    {
      GradientNorm.Config(costScaling.enabled, normalizeGradient, dynamicScaling, dynamicScalingFactor, dynamicScalingUseLogs)
    }

    /** The options collectStats reads, with the number of input files. */
    function FitConfig(): BatchFit.Config
    {
      BatchFit.Config(fitStep, maxLength, InputFiles.NumberOfInputFiles(inputs), inputTypes)
    }

    /** The cost-scale counters, the finalized flag and the batch-word average are left alone. */
    twostate predicate KeepsTrainingState()
      reads this
    {
      Numerics() == old(Numerics()) && finalized == old(finalized) && typicalTrgBatchWords == old(typicalTrgBatchWords)
    }

    // ------------------------------------------------------------ cost scaling

    method IncreaseCostScaleFactor()
      requires costScaling.enabled ==> costScaling.freq > 0
      modifies this
      ensures Numerics() == CostScaling.Increase(costScaling, old(Numerics()))
      ensures State() == old(State()) && finalized == old(finalized) && typicalTrgBatchWords == old(typicalTrgBatchWords)
    {
      if !costScaling.enabled {
        return;
      }
      noNanSeen := noNanSeen + 1;
      if noNanSeen % costScaling.freq == 0 {
        costScaleFactor := costScaleFactor * costScaling.multiplier;
        noNanSeen := 0;
        nanSeen := 0;
      }
    }

    method DecreaseCostScaleFactor()
      requires costScaling.enabled ==> costScaling.multiplier != 0.0
      modifies this
      ensures Numerics() == CostScaling.Decrease(costScaling, old(Numerics()))
      ensures State() == old(State()) && finalized == old(finalized) && typicalTrgBatchWords == old(typicalTrgBatchWords)
    {
      if !costScaling.enabled {
        return;
      }
      nanSeen := nanSeen + 1;
      var total := nanSeen + noNanSeen;
      var nanPercent := nanSeen as real / total as real;
      if total >= costScaling.nanRange && nanPercent > costScaling.nanTolerance {
        if costScaleFactor > costScaling.factorMinimum {
          costScaleFactor := costScaleFactor / costScaling.multiplier;
        }
        noNanSeen := 0;
        nanSeen := 0;
      }
    }

    // ------------------------------------------------------------ normalization

    method ComputeNormalizationFactor(ops: GradientNorm.MathOracles, sched: GradientNorm.SchedulerView, gNorm: real, updateTrgWords: nat)
      returns (factor: real)
      requires GradientNorm.RescaleDefined(Normalization(), ops, sched, costScaleFactor, gNorm, updateTrgWords)
      ensures factor == GradientNorm.ComputeNormalizationFactor(Normalization(), ops, sched, costScaleFactor, gNorm, updateTrgWords)
    {
      factor := 1.0;
      if costScaling.enabled {
        factor := factor * costScaleFactor;
      }
      if normalizeGradient {
        factor := factor * updateTrgWords as real;
      }
      assert factor == GradientNorm.BaseFactor(Normalization(), costScaleFactor, updateTrgWords);
      if !ops.isFinite(gNorm) || !dynamicScaling {
        return;
      }
      var norm := NormalizedNorm(gNorm, updateTrgWords);
      var outlier, average := OutlierTest(ops, sched, norm);
      if outlier {
        factor := factor * (norm / average);
      }
    }

    /** The norm with cost scaling undone, per target word (lines 181-186). */
    method NormalizedNorm(gNorm: real, updateTrgWords: nat) returns (norm: real)
      requires costScaling.enabled ==> costScaleFactor != 0.0
      requires updateTrgWords > 0
      ensures norm == GradientNorm.NormalizedNorm(Normalization(), costScaleFactor, gNorm, updateTrgWords)
    {
      norm := gNorm;
      if costScaling.enabled {
        norm := norm / costScaleFactor;
      }
      norm := norm / updateTrgWords as real;
    }

    /** Lines 188-206: the statistics of the chosen mode, the average norm, and the outlier test. */
    method OutlierTest(ops: GradientNorm.MathOracles, sched: GradientNorm.SchedulerView, norm: real) returns (outlier: bool, average: real)
      ensures outlier == GradientNorm.IsOutlier(Normalization(), ops, sched, norm)
      ensures average == GradientNorm.AverageNorm(Normalization(), ops, sched)
    {
      var stats, normTransform;
      if dynamicScalingUseLogs {
        stats := sched.logNormStats;
        normTransform := ops.log(norm);
        average := ops.exp(stats.mean);
      } else {
        stats := sched.normStats;
        normTransform := norm;
        average := stats.mean;
      }
      var delta := normTransform - stats.mean;
      var deviation := ops.sqrt(stats.variance);
      outlier := sched.numberOfBatches >= stats.window && delta > dynamicScalingFactor * deviation;
    }

    // ------------------------------------------------------------ swaps

    method SwapWithSmoothed()
      requires aborted.None?
      modifies this
      ensures State() == Swap(old(State()), true)
      ensures KeepsTrainingState()
    {
      SwapShards(true);
    }

    method SwapWithOriginal()
      requires aborted.None?
      modifies this
      ensures State() == Swap(old(State()), false)
      ensures KeepsTrainingState()
    {
      SwapShards(false);
    }

    /** The body shared by the two swaps: check the counts, swap shard by shard, distribute. */
    method SwapShards(swapAvg: bool)
      requires aborted.None?
      modifies this
      ensures State() == Swap(old(State()), swapAvg)
      ensures KeepsTrainingState()
    {
      if |params| != |smoothed| {
        var f := CountMismatch(|params|, |smoothed|);
        aborted := Some(f);
        trace := trace + [Abort(f)];
        return;
      }
      ghost var m := State();
      var n := |params|;
      var ps, ss, t := params, smoothed, trace;
      var i := 0;
      while i < n
        invariant i <= n == |ps| == |ss| == |m.params| == |m.smoothed|
        invariant forall j :: 0 <= j < n ==>
          ps[j] == (if j < i then m.smoothed[j] else m.params[j]) &&
          ss[j] == (if j < i then m.params[j] else m.smoothed[j])
        invariant t == TraceWithSwaps(m.trace, n, swapAvg, i)
      {
        ps, ss := ps[i := ss[i]], ss[i := ps[i]];
        t := t + [SwapShard(i, n, swapAvg)];
        i := i + 1;
      }
      TraceWithAllSwaps(m.trace, n, swapAvg);
      assert ps == m.smoothed && ss == m.params;
      params, smoothed, trace := ps, ss, t + [Distribute];
    }

    // ------------------------------------------------------------ saving

    /** models_[0]->save(graphs_[0], path, saveConfig). */
    method WriteModelFile(path: string, saveConfig: bool)
      requires |params| > 0
      modifies this
      ensures State() == WriteModel(old(State()), path, old(params[0]), saveConfig)
      ensures KeepsTrainingState()
    {
      var w := params[0];
      files := files[path := [Item(ModelWeights, w)]];
      trace := trace + [Event.SaveModel(path, w, saveConfig)];
    }

    method SaveModel(isFinal: bool, numberOfBatches: nat)
      requires |params| > 0 && CanNameSnapshot(options, isFinal)
      modifies this
      ensures State() == SaveModelSpec(options, old(State()), isFinal, numberOfBatches)
      ensures KeepsTrainingState()
    {
      var name := options.model;
      if options.overwrite {
        WriteModelFile(name, true);
        if options.hasScheduler {
          trace := trace + [SaveScheduler(name)];
        }
      } else {
        if !isFinal {
          var tag := IterationLabel(options.hasScheduler, numberOfBatches);
          var nameOverwrite := SnapshotName(name, tag);
          WriteModelFile(nameOverwrite, false);
        }
        WriteModelFile(name, true);
        if options.hasScheduler {
          trace := trace + [SaveScheduler(name)];
        }
      }
    }

    method SaveCheckpoint(optimizerItems: seq<Item>)
      requires |params| > 0
      modifies this
      ensures State() == SaveCheckpointSpec(options, old(State()), optimizerItems)
      ensures KeepsTrainingState()
    {
      var checkpointName := CheckpointName(options.model);
      var items := optimizerItems;
      var k := 0;
      while k < |items| && items[k].name != MasterParameters
        invariant k <= |items|
        invariant forall j :: 0 <= j < k ==> items[j].name != MasterParameters
      {
        k := k + 1;
      }
      if k == |items| {
        items := items + [Item(MasterParameters, params[0])];
      }
      files := files[checkpointName := items];
      trace := trace + [WriteCheckpoint(checkpointName, items)];
    }

    method Save(isFinal: bool, isMainProcess: bool, numberOfBatches: nat, optimizerItems: seq<Item>)
      requires aborted.None? && |params| > 0 && CanNameSnapshot(options, isFinal)
      modifies this
      ensures State() == SaveSpec(options, old(State()), isFinal, isMainProcess, numberOfBatches, optimizerItems)
      ensures KeepsTrainingState()
    {
      trace := trace + [Barrier];
      if isMainProcess {
        SwapWithSmoothed();
        if aborted.Some? {
          return;
        }
        if isFinal && options.hasScheduler {
          trace := trace + [ValidateFinal(params)];
        }
        trace := trace + [Barrier];
        SaveModel(isFinal, numberOfBatches);
        SwapWithOriginal();
        SaveCheckpoint(optimizerItems);
      }
      trace := trace + [Barrier];
    }

    // ------------------------------------------------------------ loading

    /** models_[i]->load(graphs_[i], path) for every graph. */
    method LoadModels(path: string, markReloaded: bool)
      modifies this
      ensures State() == Checkpointing.LoadModels(old(State()), path, markReloaded, 0)
      ensures KeepsTrainingState()
    {
      ghost var m := State();
      ghost var target := Checkpointing.LoadModels(m, path, markReloaded, 0);
      var ps, t := params, trace;
      var i := 0;
      while i < |ps|
        invariant i <= |ps|
        invariant Checkpointing.LoadModels(m.(params := ps, trace := t), path, markReloaded, i) == target
      {
        var weights := if path in files then FindItem(files[path], ModelWeights) else None;
        if weights.Some? {
          ps := ps[i := weights.value];
        }
        t := t + [LoadModel(i, path, markReloaded)];
        i := i + 1;
      }
      params, trace := ps, t;
    }

    method RestoreFromCheckpoint()
      requires aborted.None?
      modifies this
      ensures State() == RestoreSpec(options, old(State()))
      ensures KeepsTrainingState()
    {
      var checkpointName := CheckpointName(options.model);
      if checkpointName !in files {
        return;
      }
      var items := files[checkpointName];
      trace := trace + [LoadOptimizer(items)];
      var found := FindItem(items, MasterParameters);
      if found.None? {
        return;
      }
      var master := found.value;
      ghost var m := State();
      ghost var target := RestoreParams(m, master, 0);
      var ps, t := params, trace;
      var i := 0;
      while i < |ps|
        invariant i <= |ps|
        invariant RestoreParams(m.(params := ps, trace := t), master, i) == target
      {
        t := t + [Forward(i)];
        if ps[i].shape != master.shape {
          aborted := Some(ShapeMismatch(i));
          params, trace := ps, t + [Abort(ShapeMismatch(i))];
          return;
        }
        if master.elemType != ps[i].elemType {
          master := Convert(master, ps[i].elemType);
        }
        ps := ps[i := master];
        t := t + [ClearGraph(i)];
        i := i + 1;
      }
      params, trace := ps, t;
    }

    method Load()
      requires aborted.None?
      modifies this
      ensures State() == LoadSpec(options, old(State()))
      ensures KeepsTrainingState()
    {
      if options.noReload {
        return;
      }
      var name := options.model;
      if name in files {
        if options.hasScheduler {
          trace := trace + [LoadScheduler(name)];
        }
        LoadModels(name, true);
        RestoreFromCheckpoint();
      } else if options.pretrainedModel != "" {
        LoadModels(options.pretrainedModel, false);
      }
    }

    // ------------------------------------------------------------ lifecycle

    method Validate()
      requires aborted.None?
      modifies this
      ensures State() == ValidateSpec(old(State()), finalized)
      ensures KeepsTrainingState()
    {
      if finalized {
        aborted := Some(TrainingFinished);
        trace := trace + [Abort(TrainingFinished)];
      }
    }

    method Finalize()
      modifies this
      ensures finalized
      ensures State() == old(State()) && Numerics() == old(Numerics()) && typicalTrgBatchWords == old(typicalTrgBatchWords)
    {
      finalized := true;
    }

    method UpdateAverageTrgBatchWords(trgBatchWords: nat)
      modifies this
      ensures typicalTrgBatchWords == BatchWords.Ema(old(typicalTrgBatchWords), trgBatchWords)
      ensures State() == old(State()) && Numerics() == old(Numerics()) && finalized == old(finalized)
    {
      typicalTrgBatchWords := 0.99 * typicalTrgBatchWords + 0.01 * trgBatchWords as real;
    }

    method NumberOfInputFiles() returns (n: nat)
      ensures n == InputFiles.NumberOfInputFiles(inputs)
    {
      if inputs.tsv {
        n := inputs.tsvFields;
        if n > 0 && inputs.guidedAlignment != "none" {
          n := n - 1;
        }
        if n > 0 && inputs.dataWeighting != "" {
          n := n - 1;
        }
        return;
      }
      n := |inputs.trainSets|;
    }

    // ------------------------------------------------------------ collectStats

    /** localMaxes: the maximum length for every file, 1 for the files whose input type is "class". */
    method LocalMaxes(numFiles: nat, maxLen: nat) returns (localMaxes: seq<nat>)
      requires forall i :: numFiles <= i < |inputTypes| ==> inputTypes[i] != "class"
      ensures localMaxes == BatchFit.LocalMaxes(numFiles, maxLen, inputTypes)
    {
      localMaxes := seq(numFiles, _ => maxLen);
      var i := 0;
      while i < |inputTypes|
        invariant i <= |inputTypes| && |localMaxes| == numFiles
        invariant forall j :: 0 <= j < numFiles ==>
          localMaxes[j] == if j < i && inputTypes[j] == "class" then 1 else maxLen
      {
        if inputTypes[i] == "class" {
          localMaxes := localMaxes[i := 1];
        }
        i := i + 1;
      }
    }

    /** The lengths of a fake batch for length i: i for every file, capped by the file's maximum. */
    method CapLengths(localMaxes: seq<nat>, i: nat) returns (lengths: seq<nat>)
      ensures lengths == BatchFit.CappedLengths(localMaxes, i)
    {
      lengths := seq(|localMaxes|, _ => i);
      var j := 0;
      while j < |lengths|
        invariant j <= |lengths| == |localMaxes|
        invariant forall k :: 0 <= k < |lengths| ==>
          lengths[k] == if k < j && localMaxes[k] < i then localMaxes[k] else i
      {
        if localMaxes[j] < lengths[j] {
          lengths := lengths[j := localMaxes[j]];
        }
        j := j + 1;
      }
    }

    /** Double the batch size from 512 while a batch of the first lengths fits. */
    method DoubleWhileFits(graph: ExpressionGraph, localMaxes: seq<nat>, first: nat, ghost cap: nat) returns (maxBatch: nat)
      requires !graph.throwNaN
      requires cap <= BatchFit.SIZE_MOD / 8
      requires forall x :: x >= cap ==> !graph.fits(BatchFit.CappedLengths(localMaxes, first), x)
      ensures maxBatch == BatchFit.Doubling(graph.fits, BatchFit.CappedLengths(localMaxes, first), BatchFit.FIRST_MAX_BATCH, cap).maxBatch
    {
      ghost var target := BatchFit.Doubling(graph.fits, BatchFit.CappedLengths(localMaxes, first), BatchFit.FIRST_MAX_BATCH, cap).maxBatch;
      maxBatch := BatchFit.FIRST_MAX_BATCH;
      var fits := true;
      while fits
        invariant 1 <= maxBatch
        invariant fits ==> BatchFit.Doubling(graph.fits, BatchFit.CappedLengths(localMaxes, first), maxBatch, cap).maxBatch == target
        invariant !fits ==> maxBatch == target
        decreases if fits then (if maxBatch <= cap then cap - maxBatch + 2 else 1) else 0
      {
        var lengths := CapLengths(localMaxes, first);
        fits := graph.Fits(lengths, maxBatch);
        if fits {
          maxBatch := BatchFit.UAdd(maxBatch, maxBatch);
        }
      }
    }

    /**
     * The do-while binary search for one length, from (1, maxBatch). The
     * sizes that fit are returned in order. When the body leaves end below
     * start the source loops for ever; the method stops there and reports
     * `hung`.
     */
    method SearchLength(graph: ExpressionGraph, lengths: seq<nat>, step: nat, maxBatch: nat)
      returns (entries: seq<BatchFit.StatsEntry>, start: nat, hung: bool)
      requires !graph.throwNaN
      requires 1 <= maxBatch < BatchFit.SIZE_BOUND && step < BatchFit.SIZE_MOD / 2
      ensures var s := BatchFit.Search(graph.fits, lengths, step, BatchFit.Bracket(1, maxBatch));
        entries == BatchFit.FittedEntries(s.probes) && start == s.final.start && hung == s.hung
    {
      ghost var s0 := BatchFit.Search(graph.fits, lengths, step, BatchFit.Bracket(1, maxBatch));
      ghost var goal := BatchFit.FittedEntries(s0.probes);
      start := 1;
      var end := maxBatch;
      entries := [];
      hung := false;
      var searching := true;
      while searching
        invariant searching ==> 1 <= start <= end < BatchFit.SIZE_BOUND && !hung
        invariant searching ==>
          var s := BatchFit.Search(graph.fits, lengths, step, BatchFit.Bracket(start, end));
          entries + BatchFit.FittedEntries(s.probes) == goal && s.final == s0.final && s.hung == s0.hung
        invariant !searching ==> entries == goal && start == s0.final.start && hung == s0.hung
        decreases if searching then end - start + 1 else 0
      {
        ghost var b, before := BatchFit.Bracket(start, end), entries;
        var current := BatchFit.Mid(BatchFit.Bracket(start, end));
        var fits := graph.Fits(lengths, current);
        if fits {
          entries := entries + [BatchFit.StatsEntry(lengths, current)];
          start := BatchFit.UAdd(current, 1);
        } else {
          end := BatchFit.USub(current, 1);
        }
        PassIsNext(graph.fits, lengths, b, before, BatchFit.Bracket(start, end), entries);
        if BatchFit.USub(end, start) > step && start <= end {
          SearchAdvanceContinues(graph.fits, lengths, step, b, before, goal, BatchFit.Bracket(start, end), entries);
        } else {
          // with end below start the loop test still holds: the search hangs
          SearchAdvanceStops(graph.fits, lengths, step, b, before, goal, BatchFit.Bracket(start, end), entries);
          searching := false;
          hung := BatchFit.USub(end, start) > step;
        }
      }
    }

    /** The loop over lengths step, 2*step, ... up to maxLen: one search per length, each from the previous result. */
    method SearchLengths(graph: ExpressionGraph, localMaxes: seq<nat>, step: nat, maxLen: nat, maxBatch: nat)
      returns (stats: seq<BatchFit.StatsEntry>, hung: bool)
      requires !graph.throwNaN
      requires step > 0 && maxLen + 2 * step < BatchFit.SIZE_MOD
      requires 1 <= maxBatch < BatchFit.SIZE_BOUND
      ensures var buckets := BatchFit.Buckets(graph.fits, localMaxes, step, maxLen, step, maxBatch);
        stats == BatchFit.BucketStats(buckets) && hung == EndsHung(buckets)
    {
      ghost var all := BatchFit.Buckets(graph.fits, localMaxes, step, maxLen, step, maxBatch);
      var end := maxBatch;
      var i := step;
      stats := [];
      hung := false;
      assert stats + BatchFit.BucketStats(all) == BatchFit.BucketStats(all);
      while i <= maxLen && !hung
        invariant 0 < i <= maxLen + step
        invariant !hung ==> 1 <= end < BatchFit.SIZE_BOUND
        invariant !hung ==> stats + BatchFit.BucketStats(BatchFit.Buckets(graph.fits, localMaxes, step, maxLen, i, end)) == BatchFit.BucketStats(all)
        invariant !hung ==> EndsHung(BatchFit.Buckets(graph.fits, localMaxes, step, maxLen, i, end)) == EndsHung(all)
        invariant hung ==> stats == BatchFit.BucketStats(all) && EndsHung(all)
        decreases maxLen + step - i, !hung
      {
        var lengths := CapLengths(localMaxes, i);
        var entries, start, h := SearchLength(graph, lengths, step, end);
        if h {
          BucketsAdvanceHung(graph.fits, localMaxes, step, maxLen, i, end, stats, BatchFit.BucketStats(all), EndsHung(all), entries);
          hung := true;
        } else {
          ghost var i0, end0 := i, end;
          end := start;
          i := BatchFit.NextLength(i, step);
          BucketsAdvance(graph.fits, localMaxes, step, maxLen, i0, end0, stats, BatchFit.BucketStats(all), EndsHung(all), entries, i, end);
        }
        stats := stats + entries;
      }
    }

    method CollectStats(graph: ExpressionGraph, ghost cap: nat) returns (stats: seq<BatchFit.StatsEntry>, hung: bool)
      requires BatchFit.ValidConfig(FitConfig()) && BatchFit.RejectsFrom(FitConfig(), graph.fits, cap)
      modifies graph
      ensures var spec := BatchFit.CollectStatsSpec(FitConfig(), graph.fits, cap);
        stats == BatchFit.BucketStats(spec.buckets) && hung == spec.hung
      ensures graph.throwNaN == if hung then false else old(graph.throwNaN)
    {
      ghost var c := FitConfig();
      var throwNaN := graph.throwNaN;
      graph.throwNaN := false;
      var numFiles := NumberOfInputFiles();
      var first := fitStep;
      var step := fitStep;
      var maxLen := BatchFit.RoundUpToStep(maxLength, step);
      var localMaxes := LocalMaxes(numFiles, maxLen);
      assert maxLen == BatchFit.MaxLengthOf(c) && localMaxes == BatchFit.LocalMaxesOf(c);
      assert BatchFit.FirstLengths(c) == BatchFit.CappedLengths(localMaxes, first);
      var maxBatch := DoubleWhileFits(graph, localMaxes, first, cap);
      assert maxLen + 2 * step < BatchFit.SIZE_MOD;
      stats, hung := SearchLengths(graph, localMaxes, step, maxLen, maxBatch);
      if !hung {
        graph.throwNaN := throwNaN;
      }
    }
  }

  /** The invariant of the length loop across one length whose search hangs: the statistics are complete. */
  lemma BucketsAdvanceHung(fits: BatchFit.Fits, localMaxes: seq<nat>, step: nat, maxLength: nat, i: nat, end: nat,
                           stats: seq<BatchFit.StatsEntry>, goal: seq<BatchFit.StatsEntry>, endsHung: bool, entries: seq<BatchFit.StatsEntry>)
    requires step > 0 && i > 0 && maxLength + 2 * step < BatchFit.SIZE_MOD && i <= maxLength
    requires 1 <= end < BatchFit.SIZE_BOUND
    requires var rest := BatchFit.Buckets(fits, localMaxes, step, maxLength, i, end);
      stats + BatchFit.BucketStats(rest) == goal && EndsHung(rest) == endsHung
    requires var s := BatchFit.Search(fits, BatchFit.CappedLengths(localMaxes, i), step, BatchFit.Bracket(1, end));
      entries == BatchFit.FittedEntries(s.probes) && s.hung
    ensures stats + entries == goal && endsHung
  {
    BucketsUnfold(fits, localMaxes, step, maxLength, i, end);
  }

  /**
   * The invariant of the length loop across one length whose search ends:
   * the statistics so far plus those of the remaining lengths are the whole.
   */
  lemma BucketsAdvance(fits: BatchFit.Fits, localMaxes: seq<nat>, step: nat, maxLength: nat, i: nat, end: nat,
                       stats: seq<BatchFit.StatsEntry>, goal: seq<BatchFit.StatsEntry>, endsHung: bool, entries: seq<BatchFit.StatsEntry>,
                       i': nat, end': nat)
    requires step > 0 && i > 0 && maxLength + 2 * step < BatchFit.SIZE_MOD && i <= maxLength
    requires 1 <= end < BatchFit.SIZE_BOUND
    requires var rest := BatchFit.Buckets(fits, localMaxes, step, maxLength, i, end);
      stats + BatchFit.BucketStats(rest) == goal && EndsHung(rest) == endsHung
    requires var s := BatchFit.Search(fits, BatchFit.CappedLengths(localMaxes, i), step, BatchFit.Bracket(1, end));
      entries == BatchFit.FittedEntries(s.probes) && end' == s.final.start && !s.hung
    requires i' == BatchFit.NextLength(i, step)
    ensures 1 <= end' < BatchFit.SIZE_BOUND
    ensures var next := BatchFit.Buckets(fits, localMaxes, step, maxLength, i', end');
      (stats + entries) + BatchFit.BucketStats(next) == goal && EndsHung(next) == endsHung
  {
    BucketsUnfold(fits, localMaxes, step, maxLength, i, end);
    var b := BatchFit.BucketStats(BatchFit.Buckets(fits, localMaxes, step, maxLength, i', end'));
    AppendAssoc(stats, entries, b);
  }

  /** One pass of the search loop: the new bracket is Next's, and the entries grow by the probe's. */
  lemma PassIsNext(fits: BatchFit.Fits, lengths: seq<nat>, b: BatchFit.Bracket, entries: seq<BatchFit.StatsEntry>,
                   n: BatchFit.Bracket, e: seq<BatchFit.StatsEntry>)
    requires var mid := BatchFit.Mid(b);
      || (fits(lengths, mid) && n == BatchFit.Bracket(BatchFit.UAdd(mid, 1), b.end) && e == entries + [BatchFit.StatsEntry(lengths, mid)])
      || (!fits(lengths, mid) && n == BatchFit.Bracket(b.start, BatchFit.USub(mid, 1)) && e == entries)
    ensures n == BatchFit.Next(fits, lengths, b)
    ensures e == entries + BatchFit.FittedEntries([BatchFit.ProbeAt(fits, lengths, b)])
  {
    var p := BatchFit.ProbeAt(fits, lengths, b);
    assert [p][1..] == [];
  }

  /**
   * The invariant of the search loop across one pass, when the pass ends the
   * search: the entries so far plus those of this pass are those of the whole
   * search, and the new bracket n is its result.
   */
  lemma SearchAdvanceStops(fits: BatchFit.Fits, lengths: seq<nat>, step: nat, b: BatchFit.Bracket, entries: seq<BatchFit.StatsEntry>, goal: seq<BatchFit.StatsEntry>,
                           n: BatchFit.Bracket, e: seq<BatchFit.StatsEntry>)
    requires 1 <= b.start <= b.end < BatchFit.SIZE_BOUND && step < BatchFit.SIZE_MOD / 2
    requires entries + BatchFit.FittedEntries(BatchFit.Search(fits, lengths, step, b).probes) == goal
    requires n == BatchFit.Next(fits, lengths, b)
    requires e == entries + BatchFit.FittedEntries([BatchFit.ProbeAt(fits, lengths, b)])
    ensures var s := BatchFit.Search(fits, lengths, step, b);
      && (!BatchFit.Continues(step, n) ==> e == goal && n == s.final && !s.hung)
      && (BatchFit.Continues(step, n) && n.end < n.start ==> e == goal && n == s.final && s.hung)
  {
    BatchFit.SearchUnfoldStops(fits, lengths, step, b);
  }

  /** The invariant of the search loop across a pass after which the search goes on from n. */
  lemma SearchAdvanceContinues(fits: BatchFit.Fits, lengths: seq<nat>, step: nat, b: BatchFit.Bracket, entries: seq<BatchFit.StatsEntry>, goal: seq<BatchFit.StatsEntry>,
                               n: BatchFit.Bracket, e: seq<BatchFit.StatsEntry>)
    requires 1 <= b.start <= b.end < BatchFit.SIZE_BOUND && step < BatchFit.SIZE_MOD / 2
    requires entries + BatchFit.FittedEntries(BatchFit.Search(fits, lengths, step, b).probes) == goal
    requires n == BatchFit.Next(fits, lengths, b) && BatchFit.Continues(step, n) && n.start <= n.end
    requires e == entries + BatchFit.FittedEntries([BatchFit.ProbeAt(fits, lengths, b)])
    ensures 1 <= n.start <= n.end < BatchFit.SIZE_BOUND && n.end - n.start < b.end - b.start
    ensures var s, r := BatchFit.Search(fits, lengths, step, b), BatchFit.Search(fits, lengths, step, n);
      e + BatchFit.FittedEntries(r.probes) == goal && r.final == s.final && r.hung == s.hung
  {
    BatchFit.SearchUnfoldContinues(fits, lengths, step, b, n);
    var r := BatchFit.Search(fits, lengths, step, n);
    BatchFit.FittedEntriesCons(BatchFit.ProbeAt(fits, lengths, b), r.probes);
    var fp := BatchFit.FittedEntries([BatchFit.ProbeAt(fits, lengths, b)]);
    var fr := BatchFit.FittedEntries(r.probes);
    AppendAssoc(entries, fp, fr);
  }

  /** One bucket of the loop: its search's entries, then the following buckets unless it hangs. */
  lemma BucketsUnfold(fits: BatchFit.Fits, localMaxes: seq<nat>, step: nat, maxLength: nat, i: nat, maxBatch: nat)
    requires step > 0 && i > 0 && maxLength + 2 * step < BatchFit.SIZE_MOD && i <= maxLength
    requires 1 <= maxBatch < BatchFit.SIZE_BOUND
    ensures var s := BatchFit.Search(fits, BatchFit.CappedLengths(localMaxes, i), step, BatchFit.Bracket(1, maxBatch));
      var rest := BatchFit.Buckets(fits, localMaxes, step, maxLength, i, maxBatch);
      && (s.hung ==> BatchFit.BucketStats(rest) == BatchFit.FittedEntries(s.probes) && EndsHung(rest))
      && (!s.hung ==>
            1 <= s.final.start < BatchFit.SIZE_BOUND
            && var next := BatchFit.Buckets(fits, localMaxes, step, maxLength, BatchFit.NextLength(i, step), s.final.start);
            BatchFit.BucketStats(rest) == BatchFit.FittedEntries(s.probes) + BatchFit.BucketStats(next)
            && EndsHung(rest) == EndsHung(next))
  {
    var s := BatchFit.Search(fits, BatchFit.CappedLengths(localMaxes, i), step, BatchFit.Bracket(1, maxBatch));
    var rest := BatchFit.Buckets(fits, localMaxes, step, maxLength, i, maxBatch);
    assert rest[1..] == if s.hung then [] else BatchFit.Buckets(fits, localMaxes, step, maxLength, BatchFit.NextLength(i, step), s.final.start);
  }
}
