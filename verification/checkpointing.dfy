/**
 * Persistence of GraphGroup (graph_group.cpp:217-404): loading a model,
 * restoring parameters from a training checkpoint, saving the smoothed model
 * and the checkpoint, and the two swaps that bring the smoothed parameters in
 * and back out.
 *
 * The state is a `Machine`. It holds the live parameters of each graph, the
 * smoothed copy kept by the optimizer shard of the same index, the files on
 * disk and a trace of the side effects the code asks of its collaborators:
 * barriers, per-shard swaps, validation, writes and loads. A fatal ABORT_IF
 * is recorded in `aborted`, and every operation requires that no abort has
 * happened yet, because an abort ends the process.
 */
module Checkpointing {
  import opened Paths

  datatype Option<T> = None | Some(value: T)

  datatype ElemType = Float32 | Float16 | BFloat16

  /** A parameter tensor: its shape, its element type and its values. */
  datatype Tensor = Tensor(shape: seq<nat>, elemType: ElemType, values: seq<real>)

  /** An io::Item: a named tensor in a file. */
  datatype Item = Item(name: string, tensor: Tensor)

  /** The reserved name of the full-precision copy of the parameters in a checkpoint. */
  const MasterParameters: string := "master_parameters"

  /** The name under which a model file holds a graph's weights. */
  const ModelWeights: string := "weights"

  /** The fatal conditions of the persistence code and of validate. */
  datatype Fatal =
    | CountMismatch(graphs: nat, optimizers: nat)  // swapWithSmoothed / swapWithOriginal
    | ShapeMismatch(graph: nat)                    // restoreFromCheckpoint
    | TrainingFinished                             // validate after finalize

  /** The side effects the code asks of its collaborators, in order. */
  datatype Event =
    | Barrier
    | SwapShard(shard: nat, shards: nat, swapAvg: bool)
    | Distribute
    | ValidateFinal(validated: seq<Tensor>)
    | LoadScheduler(path: string)
    | SaveScheduler(path: string)
    | LoadModel(graph: nat, path: string, markReloaded: bool)
    | SaveModel(path: string, saved: Tensor, saveConfig: bool)
    | LoadOptimizer(items: seq<Item>)
    | Forward(graph: nat)
    | ClearGraph(graph: nat)
    | WriteCheckpoint(path: string, items: seq<Item>)
    | Abort(reason: Fatal)

  datatype Machine = Machine(
    params: seq<Tensor>,            // graphs_[i]->params()->vals()
    smoothed: seq<Tensor>,          // the smoothed copy held by optimizerShards_[i]
    files: map<string, seq<Item>>,  // the file system
    trace: seq<Event>,
    aborted: Option<Fatal>)

  /** The options the persistence code reads, and whether a scheduler is attached. */
  datatype Options = Options(
    model: string,            // model
    noReload: bool,           // no-reload
    pretrainedModel: string,  // pretrained-model ("" when absent)
    overwrite: bool,          // overwrite
    hasScheduler: bool)       // scheduler_ != nullptr

  function Emit(m: Machine, e: Event): (r: Machine)
    ensures r.trace == m.trace + [e]
    ensures r.params == m.params && r.smoothed == m.smoothed && r.files == m.files && r.aborted == m.aborted
  {
    m.(trace := m.trace + [e])
  }

  function Fail(m: Machine, f: Fatal): (r: Machine)
    ensures r.aborted == Some(f) && r.trace == m.trace + [Abort(f)]
    ensures r.params == m.params && r.smoothed == m.smoothed && r.files == m.files
  {
    m.(trace := m.trace + [Abort(f)], aborted := Some(f))
  }

  predicate HasItem(items: seq<Item>, name: string)
  {
    exists i :: 0 <= i < |items| && items[i].name == name
  }

  /** The first item with the given name (std::find_if). */
  function FindItem(items: seq<Item>, name: string): (r: Option<Tensor>)
    ensures r.Some? <==> HasItem(items, name)
    ensures r.Some? ==> exists i :: 0 <= i < |items| && items[i] == Item(name, r.value)
                           && forall j :: 0 <= j < i ==> items[j].name != name
  {
    if items == [] then None
    else if items[0].name == name then Some(items[0].tensor)
    else
      var r := FindItem(items[1..], name);
      assert r.Some? ==> exists i :: 0 <= i < |items| && items[i] == Item(name, r.value)
                           && forall j :: 0 <= j < i ==> items[j].name != name by {
        if r.Some? {
          var i :| 0 <= i < |items| - 1 && items[1..][i] == Item(name, r.value)
                   && forall j :: 0 <= j < i ==> items[1..][j].name != name;
          assert items[i + 1] == Item(name, r.value);
        }
      }
      assert HasItem(items, name) ==> HasItem(items[1..], name) by {
        if HasItem(items, name) {
          var i :| 0 <= i < |items| && items[i].name == name;
          assert items[1..][i - 1].name == name;
        }
      }
      r
  }

  /** io::Item::convert: the element type changes; values are kept (rounding is not modelled). */
  function Convert(t: Tensor, to: ElemType): (r: Tensor)
    ensures r.shape == t.shape && r.values == t.values && r.elemType == to
  {
    t.(elemType := to)
  }

  // ---------------------------------------------------------------- swaps

  /** The swap calls a shard-by-shard swap makes, for shards from..n-1. */
  function SwapEvents(from: nat, n: nat, swapAvg: bool): (r: seq<Event>)
    requires from <= n
    ensures |r| == n - from
    ensures forall k :: 0 <= k < |r| ==> r[k] == SwapShard(from + k, n, swapAvg)
  {
    seq(n - from, k requires 0 <= k < n - from => SwapShard(from + k, n, swapAvg))
  }

  /** The trace t0 after the swap events of shards 0..i, appended one at a time. */
  function TraceWithSwaps(t0: seq<Event>, n: nat, swapAvg: bool, i: nat): seq<Event>
  {
    if i == 0 then t0 else TraceWithSwaps(t0, n, swapAvg, i - 1) + [SwapShard(i - 1, n, swapAvg)]
  }

  /** Appending the events of all n shards one at a time appends SwapEvents. */
  lemma TraceWithAllSwaps(t0: seq<Event>, n: nat, swapAvg: bool)
    ensures TraceWithSwaps(t0, n, swapAvg, n) == t0 + SwapEvents(0, n, swapAvg)
  {
    TraceWithSwapsPrefix(t0, n, swapAvg, n);
    assert SwapEvents(0, n, swapAvg)[..n] == SwapEvents(0, n, swapAvg);
  }

  lemma {:induction false} TraceWithSwapsPrefix(t0: seq<Event>, n: nat, swapAvg: bool, i: nat)
    requires i <= n
    ensures TraceWithSwaps(t0, n, swapAvg, i) == t0 + SwapEvents(0, n, swapAvg)[..i]
  {
    if i > 0 {
      TraceWithSwapsPrefix(t0, n, swapAvg, i - 1);
      var e := SwapEvents(0, n, swapAvg);
      assert e[..i] == e[..i - 1] + [SwapShard(i - 1, n, swapAvg)];
      AppendAssoc(t0, e[..i - 1], [SwapShard(i - 1, n, swapAvg)]);
    }
  }

  /** Shards i.. exchange the graph's parameters with the optimizer's smoothed copy, then distribute. */
  function SwapShards(m: Machine, swapAvg: bool, i: nat): (r: Machine)
    requires |m.params| == |m.smoothed| && i <= |m.params|
    ensures |r.params| == |r.smoothed| == |m.params|
    ensures forall j :: 0 <= j < |m.params| ==>
      r.params[j] == (if j < i then m.params[j] else m.smoothed[j]) &&
      r.smoothed[j] == (if j < i then m.smoothed[j] else m.params[j])
    ensures r.trace == m.trace + SwapEvents(i, |m.params|, swapAvg) + [Distribute]
    ensures r.files == m.files && r.aborted == m.aborted
    decreases |m.params| - i
  {
    if i == |m.params| then Emit(m, Distribute)
    else
      var e := SwapShard(i, |m.params|, swapAvg);
      var next := m.(params := m.params[i := m.smoothed[i]],
                     smoothed := m.smoothed[i := m.params[i]],
                     trace := m.trace + [e]);
      assert SwapEvents(i, |m.params|, swapAvg) == [e] + SwapEvents(i + 1, |m.params|, swapAvg);
      assert next.trace + SwapEvents(i + 1, |m.params|, swapAvg) == m.trace + SwapEvents(i, |m.params|, swapAvg);
      SwapShards(next, swapAvg, i + 1)
  }

  /**
   * swapWithSmoothed (swapAvg true) and swapWithOriginal (swapAvg false):
   * abort when the graph count and the optimizer count differ, otherwise swap
   * every shard in order and distribute.
   */
  function Swap(m: Machine, swapAvg: bool): (r: Machine)
    requires m.aborted.None?
    ensures |m.params| != |m.smoothed| ==> r == Fail(m, CountMismatch(|m.params|, |m.smoothed|))
    ensures |m.params| == |m.smoothed| ==>
      && r.params == m.smoothed && r.smoothed == m.params
      && r.files == m.files && r.aborted.None?
      && r.trace == m.trace + SwapEvents(0, |m.params|, swapAvg) + [Distribute]
  {
    if |m.params| != |m.smoothed| then Fail(m, CountMismatch(|m.params|, |m.smoothed|))
    else
      var r := SwapShards(m, swapAvg, 0);
      assert r.params == m.smoothed && r.smoothed == m.params;
      r
  }

  /** Swapping in the smoothed parameters and swapping back restores both copies. */
  lemma SwapBackRestores(m: Machine)
    requires m.aborted.None?
    requires |m.params| == |m.smoothed|
    ensures var r := Swap(Swap(m, true), false);
      r.params == m.params && r.smoothed == m.smoothed && r.files == m.files && r.aborted.None?
  {
  }

  // ---------------------------------------------------------------- saving

  function WriteModel(m: Machine, path: string, w: Tensor, saveConfig: bool): (r: Machine)
    ensures r.files == m.files[path := [Item(ModelWeights, w)]]
    ensures r.trace == m.trace + [SaveModel(path, w, saveConfig)]
    ensures r.params == m.params && r.smoothed == m.smoothed && r.aborted == m.aborted
  {
    m.(files := m.files[path := [Item(ModelWeights, w)]], trace := m.trace + [SaveModel(path, w, saveConfig)])
  }

  /** Whether saveModel writes a numbered snapshot besides the model file. */
  predicate WritesSnapshot(o: Options, isFinal: bool)
  {
    !o.overwrite && !isFinal
  }

  /** What saveModel needs of the model name: room for the replaced ".npz" extension. */
  predicate CanNameSnapshot(o: Options, isFinal: bool)
  {
    WritesSnapshot(o, isFinal) ==> |o.model| >= 4
  }

  /** The events of saveModel for weights w: snapshot, model file with configuration, scheduler state. */
  function ModelWriteEvents(o: Options, isFinal: bool, numberOfBatches: nat, w: Tensor): seq<Event>
    requires CanNameSnapshot(o, isFinal)
  {
    (if WritesSnapshot(o, isFinal)
     then [SaveModel(SnapshotName(o.model, IterationLabel(o.hasScheduler, numberOfBatches)), w, false)]
     else [])
    + [SaveModel(o.model, w, true)]
    + (if o.hasScheduler then [SaveScheduler(o.model)] else [])
  }

  /**
   * saveModel: graph 0's parameters go to a numbered snapshot (only when not
   * overwriting and not final) and then to the model file, with the
   * translator configuration; the scheduler state is saved alongside.
   */
  function SaveModelSpec(o: Options, m: Machine, isFinal: bool, numberOfBatches: nat): (r: Machine)
    requires |m.params| > 0 && CanNameSnapshot(o, isFinal)
    ensures r.params == m.params && r.smoothed == m.smoothed && r.aborted == m.aborted
    ensures r.trace == m.trace + ModelWriteEvents(o, isFinal, numberOfBatches, m.params[0])
  {
    var w := m.params[0];
    var m1 := if WritesSnapshot(o, isFinal)
      then WriteModel(m, SnapshotName(o.model, IterationLabel(o.hasScheduler, numberOfBatches)), w, false)
      else m;
    var m2 := WriteModel(m1, o.model, w, true);
    if o.hasScheduler then Emit(m2, SaveScheduler(o.model)) else m2
  }

  /** The item list saveCheckpoint writes: the optimizer's items, plus a master copy of graph 0's parameters if they had none. */
  function WithMaster(items: seq<Item>, params0: Tensor): (r: seq<Item>)
    ensures HasItem(r, MasterParameters)
    ensures |r| == |items| <==> HasItem(items, MasterParameters)
    ensures |r| == |items| || |r| == |items| + 1
    ensures r[..|items|] == items
    ensures |r| == |items| + 1 ==> r[|items|] == Item(MasterParameters, params0)
  {
    if HasItem(items, MasterParameters) then items
    else
      var r := items + [Item(MasterParameters, params0)];
      assert r[|items|].name == MasterParameters;
      r
  }

  /** The master tensor a checkpoint written by saveCheckpoint holds: the optimizer's own, or graph 0's parameters. */
  lemma CheckpointMaster(items: seq<Item>, params0: Tensor)
    ensures FindItem(WithMaster(items, params0), MasterParameters)
         == if HasItem(items, MasterParameters) then FindItem(items, MasterParameters) else Some(params0)
  {
    var r := WithMaster(items, params0);
    if !HasItem(items, MasterParameters) {
      var t := FindItem(r, MasterParameters);
      var i :| 0 <= i < |r| && r[i] == Item(MasterParameters, t.value)
               && forall j :: 0 <= j < i ==> r[j].name != MasterParameters;
      if i < |items| {
        assert false;
      }
    }
  }

  /** saveCheckpoint: the item list with a master copy is written to `<model>.optimizer.npz`. */
  function SaveCheckpointSpec(o: Options, m: Machine, optimizerItems: seq<Item>): (r: Machine)
    requires |m.params| > 0
    ensures var path := CheckpointName(o.model);
      && r.files == m.files[path := WithMaster(optimizerItems, m.params[0])]
      && r.trace == m.trace + [WriteCheckpoint(path, WithMaster(optimizerItems, m.params[0]))]
    ensures r.params == m.params && r.smoothed == m.smoothed && r.aborted == m.aborted
  {
    var path := CheckpointName(o.model);
    var items := WithMaster(optimizerItems, m.params[0]);
    m.(files := m.files[path := items], trace := m.trace + [WriteCheckpoint(path, items)])
  }

  /**
   * save: barrier; on the main process swap in the smoothed parameters,
   * validate them if this is the final save and there is a scheduler,
   * barrier, save the model, swap back, save the checkpoint; barrier.
   * `numberOfBatches` and `optimizerItems` are what the scheduler and
   * optimizer shard 0 report.
   */
  function SaveSpec(o: Options, m: Machine, isFinal: bool, isMainProcess: bool, numberOfBatches: nat, optimizerItems: seq<Item>): (r: Machine)
    requires m.aborted.None? && |m.params| > 0 && CanNameSnapshot(o, isFinal)
    ensures r.params == m.params && r.smoothed == m.smoothed
    ensures r.aborted.None? <==> !isMainProcess || |m.params| == |m.smoothed|
    ensures r.aborted.Some? ==> r.aborted == Some(CountMismatch(|m.params|, |m.smoothed|)) && r.files == m.files
  {
    var m1 := Emit(m, Barrier);
    if !isMainProcess then Emit(m1, Barrier)
    else
      var m2 := Swap(m1, true);
      if m2.aborted.Some? then m2
      else
        var m3 := if isFinal && o.hasScheduler then Emit(m2, ValidateFinal(m2.params)) else m2;
        var m4 := SaveModelSpec(o, Emit(m3, Barrier), isFinal, numberOfBatches);
        var m5 := Swap(m4, false);
        Emit(SaveCheckpointSpec(o, m5, optimizerItems), Barrier)
  }

  /** A process other than the main one only takes part in the two barriers. */
  lemma SaveOffMainOnlySynchronizes(o: Options, m: Machine, isFinal: bool, numberOfBatches: nat, optimizerItems: seq<Item>)
    requires m.aborted.None? && |m.params| > 0 && CanNameSnapshot(o, isFinal)
    ensures SaveSpec(o, m, isFinal, false, numberOfBatches, optimizerItems) == m.(trace := m.trace + [Barrier, Barrier])
  {
  }

  /** With different graph and optimizer counts the main process aborts in the first swap, before any write. */
  lemma SaveAbortsOnCountMismatch(o: Options, m: Machine, isFinal: bool, numberOfBatches: nat, optimizerItems: seq<Item>)
    requires m.aborted.None? && |m.params| > 0 && CanNameSnapshot(o, isFinal)
    requires |m.params| != |m.smoothed|
    ensures var r := SaveSpec(o, m, isFinal, true, numberOfBatches, optimizerItems);
      && r.aborted == Some(CountMismatch(|m.params|, |m.smoothed|))
      && r.files == m.files && r.params == m.params
      && r.trace == m.trace + [Barrier, Abort(CountMismatch(|m.params|, |m.smoothed|))]
  {
  }

  /** The new events of a save on the main process, in order. */
  function MainSaveEvents(o: Options, m: Machine, isFinal: bool, numberOfBatches: nat, optimizerItems: seq<Item>): seq<Event>
    requires |m.params| == |m.smoothed| > 0 && CanNameSnapshot(o, isFinal)
  {
    var n := |m.params|;
    [Barrier] + SwapEvents(0, n, true) + [Distribute]
    + (if isFinal && o.hasScheduler then [ValidateFinal(m.smoothed)] else [])
    + [Barrier] + ModelWriteEvents(o, isFinal, numberOfBatches, m.smoothed[0])
    + SwapEvents(0, n, false) + [Distribute]
    + [WriteCheckpoint(CheckpointName(o.model), WithMaster(optimizerItems, m.params[0]))]
    + [Barrier]
  }

  /**
   * A save on the main process with matching counts does not abort, leaves
   * the live and smoothed parameters as they were, and performs its steps in
   * the order: barrier, swap to smoothed, final validation of the smoothed
   * parameters, barrier, model writes of the smoothed parameters of graph 0,
   * swap back, checkpoint write, barrier.
   */
  lemma SaveOnMain(o: Options, m: Machine, isFinal: bool, numberOfBatches: nat, optimizerItems: seq<Item>)
    requires m.aborted.None? && |m.params| == |m.smoothed| > 0 && CanNameSnapshot(o, isFinal)
    ensures var r := SaveSpec(o, m, isFinal, true, numberOfBatches, optimizerItems);
      && r.aborted.None?
      && r.params == m.params && r.smoothed == m.smoothed
      && r.trace == m.trace + MainSaveEvents(o, m, isFinal, numberOfBatches, optimizerItems)
  {
    var n := |m.params|;
    var m1 := Emit(m, Barrier);
    var m2 := Swap(m1, true);
    var m3 := if isFinal && o.hasScheduler then Emit(m2, ValidateFinal(m2.params)) else m2;
    var m4 := SaveModelSpec(o, Emit(m3, Barrier), isFinal, numberOfBatches);
    var m5 := Swap(m4, false);
    var r := Emit(SaveCheckpointSpec(o, m5, optimizerItems), Barrier);
    var t := m.trace;
    var validate: seq<Event> := if isFinal && o.hasScheduler then [ValidateFinal(m.smoothed)] else [];
    var e1 := [Barrier] + SwapEvents(0, n, true);
    var e2 := e1 + [Distribute];
    var e3 := e2 + validate;
    var e4 := e3 + [Barrier];
    var e5 := e4 + ModelWriteEvents(o, isFinal, numberOfBatches, m.smoothed[0]);
    var e6 := e5 + SwapEvents(0, n, false);
    var e7 := e6 + [Distribute];
    var e8 := e7 + [WriteCheckpoint(CheckpointName(o.model), WithMaster(optimizerItems, m.params[0]))];
    AppendAssoc(t, [Barrier], SwapEvents(0, n, true));
    AppendAssoc(t, e1, [Distribute]);
    assert m3.trace == t + e2 + validate;
    AppendAssoc(t, e2, validate);
    AppendAssoc(t, e3, [Barrier]);
    AppendAssoc(t, e4, ModelWriteEvents(o, isFinal, numberOfBatches, m.smoothed[0]));
    AppendAssoc(t, e5, SwapEvents(0, n, false));
    AppendAssoc(t, e6, [Distribute]);
    AppendAssoc(t, e7, [WriteCheckpoint(CheckpointName(o.model), WithMaster(optimizerItems, m.params[0]))]);
    AppendAssoc(t, e8, [Barrier]);
  }

  /** Concatenation is associative. */
  lemma AppendAssoc<T>(a: seq<T>, b: seq<T>, c: seq<T>)
    ensures a + (b + c) == (a + b) + c
  {
  }

  /**
   * The files a save on the main process leaves: the model file and, when
   * written, the snapshot hold the smoothed parameters of graph 0; the
   * checkpoint holds the optimizer's items and a master copy taken from the
   * live (not smoothed) parameters; no other modelled file changes.
   */
  lemma SaveWritesSmoothedModelAndLiveCheckpoint(o: Options, m: Machine, isFinal: bool, numberOfBatches: nat, optimizerItems: seq<Item>)
    requires m.aborted.None? && |m.params| == |m.smoothed| > 0 && CanNameSnapshot(o, isFinal)
    ensures var r := SaveSpec(o, m, isFinal, true, numberOfBatches, optimizerItems);
      var ckpt := CheckpointName(o.model);
      var snap := if WritesSnapshot(o, isFinal) then SnapshotName(o.model, IterationLabel(o.hasScheduler, numberOfBatches)) else o.model;
      && r.files[o.model] == [Item(ModelWeights, m.smoothed[0])]
      && r.files[snap] == [Item(ModelWeights, m.smoothed[0])]
      && r.files[ckpt] == WithMaster(optimizerItems, m.params[0])
      && (forall p :: p != o.model && p != ckpt && p != snap ==> (p in r.files <==> p in m.files))
      && (forall p :: p != o.model && p != ckpt && p != snap && p in m.files ==> r.files[p] == m.files[p])
  {
    var m1 := Emit(m, Barrier);
    var m2 := Swap(m1, true);
    var m3 := if isFinal && o.hasScheduler then Emit(m2, ValidateFinal(m2.params)) else m2;
    var m4 := SaveModelSpec(o, Emit(m3, Barrier), isFinal, numberOfBatches);
    var m5 := Swap(m4, false);
    var r := Emit(SaveCheckpointSpec(o, m5, optimizerItems), Barrier);
    assert r == SaveSpec(o, m, isFinal, true, numberOfBatches, optimizerItems);
    if WritesSnapshot(o, isFinal) {
      SnapshotNameIsFresh(o.model, IterationLabel(o.hasScheduler, numberOfBatches));
    }
    assert o.model != CheckpointName(o.model) by {
      assert |CheckpointName(o.model)| > |o.model|;
    }
  }

  // ---------------------------------------------------------------- loading

  /** Graph i loads the weights of the model file at `path`, if there are any. */
  function LoadWeights(m: Machine, i: nat, path: string, markReloaded: bool): (r: Machine)
    requires i < |m.params|
    ensures r.trace == m.trace + [LoadModel(i, path, markReloaded)]
    ensures r.smoothed == m.smoothed && r.files == m.files && r.aborted == m.aborted
    ensures |r.params| == |m.params|
    ensures forall j :: 0 <= j < |m.params| && j != i ==> r.params[j] == m.params[j]
    ensures path in m.files && HasItem(m.files[path], ModelWeights) ==> r.params[i] == FindItem(m.files[path], ModelWeights).value
    ensures !(path in m.files && HasItem(m.files[path], ModelWeights)) ==> r.params == m.params
  {
    var w := if path in m.files then FindItem(m.files[path], ModelWeights) else None;
    var m1 := if w.Some? then m.(params := m.params[i := w.value]) else m;
    Emit(m1, LoadModel(i, path, markReloaded))
  }

  /** The load calls for graphs from..n-1, in order. */
  function LoadEvents(path: string, markReloaded: bool, from: nat, n: nat): (r: seq<Event>)
    requires from <= n
    ensures |r| == n - from
    ensures forall k :: 0 <= k < |r| ==> r[k] == LoadModel(from + k, path, markReloaded)
  {
    seq(n - from, k requires 0 <= k < n - from => LoadModel(from + k, path, markReloaded))
  }

  /** models_[j]->load(graph_j, path) for the graphs j = i.. in order. */
  function LoadModels(m: Machine, path: string, markReloaded: bool, i: nat): (r: Machine)
    requires i <= |m.params|
    ensures r.smoothed == m.smoothed && r.files == m.files && r.aborted == m.aborted
    ensures |r.params| == |m.params| && r.params[..i] == m.params[..i]
    ensures path in m.files && HasItem(m.files[path], ModelWeights) ==>
      forall j :: i <= j < |m.params| ==> r.params[j] == FindItem(m.files[path], ModelWeights).value
    ensures r.trace == m.trace + LoadEvents(path, markReloaded, i, |m.params|)
    decreases |m.params| - i
  {
    if i == |m.params| then m
    else
      var m1 := LoadWeights(m, i, path, markReloaded);
      assert m1.params[..i] == m.params[..i];
      var e := LoadModel(i, path, markReloaded);
      assert LoadEvents(path, markReloaded, i, |m.params|) == [e] + LoadEvents(path, markReloaded, i + 1, |m.params|);
      AppendAssoc(m.trace, [e], LoadEvents(path, markReloaded, i + 1, |m.params|));
      LoadModels(m1, path, markReloaded, i + 1)
  }

  /**
   * Graphs i.. receive the master copy: each one runs a forward pass, is
   * checked for equal shape (fatal otherwise), converts the master copy to its
   * element type when they differ (the converted copy is kept for the
   * following graphs), takes its values, and is cleared.
   */
  function RestoreParams(m: Machine, master: Tensor, i: nat): (r: Machine)
    requires m.aborted.None? && i <= |m.params|
    ensures r.smoothed == m.smoothed && r.files == m.files
    ensures |r.params| == |m.params| && r.params[..i] == m.params[..i]
    decreases |m.params| - i
  {
    if i == |m.params| then m
    else
      var m1 := Emit(m, Forward(i));
      if m.params[i].shape != master.shape then Fail(m1, ShapeMismatch(i))
      else
        var m2 := RestoreOne(m1, master, i);
        var r := RestoreParams(m2, Converted(master, m.params[i]), i + 1);
        assert r.params[..i] == m.params[..i] by {
          assert r.params[..i] == r.params[..i + 1][..i];
        }
        r
  }

  /** The master copy as graph `live` receives it: converted to the graph's element type when they differ. */
  function Converted(master: Tensor, live: Tensor): (r: Tensor)
    ensures r.shape == master.shape && r.values == master.values && r.elemType == live.elemType
  {
    if master.elemType != live.elemType then Convert(master, live.elemType) else master
  }

  /** Graph i takes the values of the master copy and is cleared. */
  function RestoreOne(m: Machine, master: Tensor, i: nat): (r: Machine)
    requires i < |m.params|
    ensures r.params == m.params[i := Converted(master, m.params[i])]
    ensures r.smoothed == m.smoothed && r.files == m.files && r.aborted == m.aborted
  {
    Emit(m.(params := m.params[i := Converted(master, m.params[i])]), ClearGraph(i))
  }

  /** When every graph from i on has the master's shape, all of them take the master values, keeping their element types. */
  lemma {:induction false} RestoreParamsAllMatch(m: Machine, master: Tensor, i: nat)
    requires m.aborted.None? && i <= |m.params|
    requires forall j :: i <= j < |m.params| ==> m.params[j].shape == master.shape
    ensures var r := RestoreParams(m, master, i);
      && r.aborted.None?
      && forall j :: i <= j < |m.params| ==>
           r.params[j].shape == master.shape && r.params[j].values == master.values && r.params[j].elemType == m.params[j].elemType
    decreases |m.params| - i
  {
    if i < |m.params| {
      var m2 := RestoreOne(Emit(m, Forward(i)), master, i);
      var converted := Converted(master, m.params[i]);
      RestoreParamsAllMatch(m2, converted, i + 1);
      var r := RestoreParams(m2, converted, i + 1);
      assert r == RestoreParams(m, master, i);
      assert r.params[i] == converted by {
        assert r.params[..i + 1][i] == m2.params[..i + 1][i];
      }
    }
  }

  /** The first graph whose shape differs from the master's aborts the restore, before its parameters are touched. */
  lemma {:induction false} RestoreParamsFirstMismatch(m: Machine, master: Tensor, i: nat, k: nat)
    requires m.aborted.None? && i <= k < |m.params|
    requires m.params[k].shape != master.shape
    requires forall j :: i <= j < k ==> m.params[j].shape == master.shape
    ensures var r := RestoreParams(m, master, i);
      r.aborted == Some(ShapeMismatch(k)) && r.params[k..] == m.params[k..]
    decreases k - i
  {
    if i < k {
      var m2 := RestoreOne(Emit(m, Forward(i)), master, i);
      var converted := Converted(master, m.params[i]);
      assert m2.params[k..] == m.params[k..];
      RestoreParamsFirstMismatch(m2, converted, i + 1, k);
    }
  }

  /**
   * restoreFromCheckpoint: nothing happens without a checkpoint file; with
   * one, its items are handed to the optimizer, and, if it holds a master
   * copy, every graph's parameters are replaced by it.
   */
  function RestoreSpec(o: Options, m: Machine): (r: Machine)
    requires m.aborted.None?
    ensures CheckpointName(o.model) !in m.files ==> r == m
    ensures CheckpointName(o.model) in m.files && !HasItem(m.files[CheckpointName(o.model)], MasterParameters) ==>
      r == Emit(m, LoadOptimizer(m.files[CheckpointName(o.model)]))
    ensures r.smoothed == m.smoothed && r.files == m.files && |r.params| == |m.params|
  {
    var path := CheckpointName(o.model);
    if path !in m.files then m
    else
      var items := m.files[path];
      var m1 := Emit(m, LoadOptimizer(items));
      match FindItem(items, MasterParameters)
      case None => m1
      case Some(master) => RestoreParams(m1, master, 0)
  }

  /**
   * load: with reloading on and an existing model file, the scheduler state,
   * then the model into every graph, then the checkpoint; otherwise the
   * pretrained model into every graph when one is named; otherwise nothing.
   */
  function LoadSpec(o: Options, m: Machine): (r: Machine)
    requires m.aborted.None?
    ensures o.noReload ==> r == m
    ensures !o.noReload && o.model !in m.files && o.pretrainedModel == "" ==> r == m
    ensures r.smoothed == m.smoothed && r.files == m.files && |r.params| == |m.params|
    ensures o.model !in m.files ==> r.aborted.None?
  {
    if o.noReload then m
    else if o.model in m.files then
      var m1 := if o.hasScheduler then Emit(m, LoadScheduler(o.model)) else m;
      RestoreSpec(o, LoadModels(m1, o.model, true, 0))
    else if o.pretrainedModel != "" then LoadModels(m, o.pretrainedModel, false, 0)
    else m
  }

  /**
   * Restoring a checkpoint whose master copy has the shape of every graph's
   * parameters gives every graph the master values, keeping its element type.
   */
  lemma RestoreGivesMasterValues(o: Options, m: Machine, master: Tensor)
    requires m.aborted.None?
    requires CheckpointName(o.model) in m.files
    requires FindItem(m.files[CheckpointName(o.model)], MasterParameters) == Some(master)
    requires forall j :: 0 <= j < |m.params| ==> m.params[j].shape == master.shape
    ensures var r := RestoreSpec(o, m);
      && r.aborted.None?
      && forall j :: 0 <= j < |m.params| ==>
           r.params[j].values == master.values && r.params[j].shape == master.shape && r.params[j].elemType == m.params[j].elemType
  {
    RestoreParamsAllMatch(Emit(m, LoadOptimizer(m.files[CheckpointName(o.model)])), master, 0);
  }

  /** A master copy of another shape than some graph's parameters is fatal, at the first such graph. */
  lemma RestoreAbortsOnShapeMismatch(o: Options, m: Machine, master: Tensor, k: nat)
    requires m.aborted.None?
    requires CheckpointName(o.model) in m.files
    requires FindItem(m.files[CheckpointName(o.model)], MasterParameters) == Some(master)
    requires k < |m.params| && m.params[k].shape != master.shape
    requires forall j :: 0 <= j < k ==> m.params[j].shape == master.shape
    ensures RestoreSpec(o, m).aborted == Some(ShapeMismatch(k))
    ensures RestoreSpec(o, m).params[k..] == m.params[k..]
  {
    RestoreParamsFirstMismatch(Emit(m, LoadOptimizer(m.files[CheckpointName(o.model)])), master, 0, k);
  }

  /**
   * Saving on the main process and loading again (reloading on) into any
   * replicas, of the same number but whatever parameters and smoothed copies,
   * gives every graph the values graph 0 had when it was saved: the model
   * file brings in the smoothed weights, and the checkpoint's master copy,
   * taken from the live parameters, overwrites them.
   */
  lemma CheckpointRoundTrip(o: Options, m: Machine, isFinal: bool, numberOfBatches: nat, optimizerItems: seq<Item>, ps: seq<Tensor>, ss: seq<Tensor>)
    requires m.aborted.None? && |m.params| == |m.smoothed| > 0 && CanNameSnapshot(o, isFinal)
    requires !o.noReload
    requires !HasItem(optimizerItems, MasterParameters)
    requires m.smoothed[0].shape == m.params[0].shape
    requires |ps| == |m.params|
    ensures var saved := SaveSpec(o, m, isFinal, true, numberOfBatches, optimizerItems);
      var loaded := LoadSpec(o, saved.(params := ps, smoothed := ss));
      && saved.aborted.None?
      && loaded.aborted.None?
      && forall j :: 0 <= j < |m.params| ==>
           loaded.params[j].values == m.params[0].values && loaded.params[j].shape == m.params[0].shape
  {
    var saved := SaveSpec(o, m, isFinal, true, numberOfBatches, optimizerItems);
    SaveOnMain(o, m, isFinal, numberOfBatches, optimizerItems);
    SaveWritesSmoothedModelAndLiveCheckpoint(o, m, isFinal, numberOfBatches, optimizerItems);
    CheckpointMaster(optimizerItems, m.params[0]);
    LoadRestoresMaster(o, saved.(params := ps, smoothed := ss), m.smoothed[0], m.params[0]);
  }

  /**
   * Loading (reloading on) from a model file holding `weights` and a
   * checkpoint whose master copy has the same shape gives every graph the
   * master values.
   */
  lemma LoadRestoresMaster(o: Options, m: Machine, weights: Tensor, master: Tensor)
    requires m.aborted.None? && !o.noReload
    requires o.model in m.files && m.files[o.model] == [Item(ModelWeights, weights)]
    requires CheckpointName(o.model) in m.files
    requires FindItem(m.files[CheckpointName(o.model)], MasterParameters) == Some(master)
    requires weights.shape == master.shape
    ensures var r := LoadSpec(o, m);
      && r.aborted.None?
      && forall j :: 0 <= j < |m.params| ==> r.params[j].values == master.values && r.params[j].shape == master.shape
  {
    var modelItems := [Item(ModelWeights, weights)];
    assert FindItem(modelItems, ModelWeights) == Some(weights);
    assert HasItem(modelItems, ModelWeights) by {
      assert modelItems[0].name == ModelWeights;
    }
    var m1 := if o.hasScheduler then Emit(m, LoadScheduler(o.model)) else m;
    var m2 := LoadModels(m1, o.model, true, 0);
    RestoreGivesMasterValues(o, m2, master);
  }

  /**
   * Reloading from a model file with weights and no checkpoint file: the
   * scheduler state and then the model are loaded into every graph in order,
   * nothing aborts, and every graph holds the model's weights.
   */
  lemma LoadModelWithoutCheckpoint(o: Options, m: Machine)
    requires m.aborted.None? && !o.noReload
    requires o.model in m.files && HasItem(m.files[o.model], ModelWeights)
    requires CheckpointName(o.model) !in m.files
    ensures var r := LoadSpec(o, m);
      && r.aborted.None?
      && (forall j :: 0 <= j < |m.params| ==> r.params[j] == FindItem(m.files[o.model], ModelWeights).value)
      && r.trace == m.trace + (if o.hasScheduler then [LoadScheduler(o.model)] else []) + LoadEvents(o.model, true, 0, |m.params|)
  {
    var m1 := if o.hasScheduler then Emit(m, LoadScheduler(o.model)) else m;
    assert m1.trace == m.trace + (if o.hasScheduler then [LoadScheduler(o.model)] else []);
  }

  /**
   * Reloading from a model file with weights and a checkpoint without a
   * master copy: the checkpoint's items go to the optimizer after the model
   * loads, nothing aborts, and every graph holds the model's weights.
   */
  lemma LoadModelCheckpointWithoutMaster(o: Options, m: Machine)
    requires m.aborted.None? && !o.noReload
    requires o.model in m.files && HasItem(m.files[o.model], ModelWeights)
    requires CheckpointName(o.model) in m.files && !HasItem(m.files[CheckpointName(o.model)], MasterParameters)
    ensures var r := LoadSpec(o, m);
      && r.aborted.None?
      && (forall j :: 0 <= j < |m.params| ==> r.params[j] == FindItem(m.files[o.model], ModelWeights).value)
      && r.trace == m.trace + (if o.hasScheduler then [LoadScheduler(o.model)] else []) + LoadEvents(o.model, true, 0, |m.params|)
                    + [LoadOptimizer(m.files[CheckpointName(o.model)])]
  {
    var m1 := if o.hasScheduler then Emit(m, LoadScheduler(o.model)) else m;
    assert m1.trace == m.trace + (if o.hasScheduler then [LoadScheduler(o.model)] else []);
  }

  /**
   * Without a model file, a named pretrained model with weights is loaded
   * into every graph, not marked as a reload; neither the scheduler state nor
   * a checkpoint is read, and nothing aborts.
   */
  lemma LoadPretrained(o: Options, m: Machine)
    requires m.aborted.None? && !o.noReload
    requires o.model !in m.files && o.pretrainedModel != ""
    requires o.pretrainedModel in m.files && HasItem(m.files[o.pretrainedModel], ModelWeights)
    ensures var r := LoadSpec(o, m);
      && r.aborted.None?
      && (forall j :: 0 <= j < |m.params| ==> r.params[j] == FindItem(m.files[o.pretrainedModel], ModelWeights).value)
      && r.trace == m.trace + LoadEvents(o.pretrainedModel, false, 0, |m.params|)
  {
  }
}
