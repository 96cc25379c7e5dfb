/**
 * The batch-fit search of GraphGroup::collectStats (graph_group.cpp:424-502).
 * It finds, for each sentence length, how large a fake batch still fits into
 * the workspace. It first doubles the batch size from 512 until a batch no
 * longer fits. Then, for the lengths step, 2*step, ..., up to the rounded
 * maximum length, it runs a binary search whose upper end is the previous
 * length's result. Every size that fits is recorded in the statistics.
 *
 * Whether a batch fits is an oracle `fits(lengths, size)` (build the graph
 * for the fake batch and ask whether it fits). The counters of the search
 * are size_t; the arithmetic of the search step is modelled modulo 2^64,
 * because its exit test `end - start > step` depends on wrap-around.
 */
module BatchFit {
  import opened Arith

  /** size_t values are taken modulo 2^64. */
  const SIZE_MOD: nat := 0x1_0000_0000_0000_0000

  /** Sizes stay below this bound in the model, so the midpoint sum never wraps. */
  const SIZE_BOUND: nat := SIZE_MOD / 4

  /** The batch size the doubling starts from. */
  const FIRST_MAX_BATCH: nat := 512

  /** The answer of building a fake batch of `size` sentences with these per-file lengths. */
  type Fits = (seq<nat>, nat) -> bool

  /** One fake batch that was built, and whether it fitted. */
  datatype Probe = Probe(lengths: seq<nat>, size: nat, fitted: bool)

  /** An entry of the batch statistics: per-file lengths and a batch size that fits. */
  datatype StatsEntry = StatsEntry(lengths: seq<nat>, batchSize: nat)

  /** The options collectStats reads. */
  datatype Config = Config(
    step: nat,                 // mini-batch-fit-step
    maxLength: nat,            // max-length
    numFiles: nat,             // numberOfInputFiles()
    inputTypes: seq<string>)   // input-types

  /** size_t subtraction: the difference modulo 2^64. */
  function USub(a: nat, b: nat): (r: nat)
    ensures r < SIZE_MOD && (r - (a - b)) % SIZE_MOD == 0
    ensures a < SIZE_MOD && b <= a ==> r == a - b
    ensures b < SIZE_MOD && a < b ==> r == SIZE_MOD + a - b
  {
    if b <= a < SIZE_MOD then a - b
    else if a < b < SIZE_MOD then SIZE_MOD + a - b
    else (a - b) % SIZE_MOD
  }

  /** size_t addition: the sum modulo 2^64. */
  function UAdd(a: nat, b: nat): (r: nat)
    ensures r < SIZE_MOD && (r - (a + b)) % SIZE_MOD == 0
    ensures a + b < SIZE_MOD ==> r == a + b
  {
    if a + b < SIZE_MOD then a + b else (a + b) % SIZE_MOD
  }

  /** The maximum length rounded up to a multiple of the step. */
  function RoundUpToStep(n: nat, step: nat): (r: nat)
    requires step > 0
    ensures r % step == 0
    ensures n <= r < n + step
  {
    var q := (n + step - 1) / step;
    assert q * step <= n + step - 1 < q * step + step;
    MulMod(q, step);
    q * step
  }

  lemma MulMod(q: nat, step: nat)
    requires step > 0
    ensures (q * step) % step == 0
  {
    DivModUnique(q * step, step, q, 0);
  }

  /** The per-file length limit: 1 for inputs of type "class", the maximum length otherwise. */
  function LocalMaxes(numFiles: nat, maxLength: nat, inputTypes: seq<string>): (r: seq<nat>)
    requires forall i :: numFiles <= i < |inputTypes| ==> inputTypes[i] != "class"
    ensures |r| == numFiles
    ensures forall j :: 0 <= j < numFiles ==> r[j] == if j < |inputTypes| && inputTypes[j] == "class" then 1 else maxLength
  {
    seq(numFiles, j requires 0 <= j < numFiles => if j < |inputTypes| && inputTypes[j] == "class" then 1 else maxLength)
  }

  /** The lengths tested for length i: i, capped per file. */
  function CappedLengths(localMaxes: seq<nat>, i: nat): (r: seq<nat>)
    ensures |r| == |localMaxes|
    ensures forall j :: 0 <= j < |r| ==> r[j] <= i && r[j] <= localMaxes[j] && (r[j] == i || r[j] == localMaxes[j])
  {
    seq(|localMaxes|, j requires 0 <= j < |localMaxes| => if i <= localMaxes[j] then i else localMaxes[j])
  }

  // ---------------------------------------------------------------- doubling

  datatype Doubled = Doubled(probes: seq<Probe>, maxBatch: nat)

  /** 2^k. */
  function Pow2(k: nat): (r: nat)
    ensures r >= 1
  {
    if k == 0 then 1 else 2 * Pow2(k - 1)
  }

  /** b doubled k times, one addition at a time. */
  function DoubledTimes(b: nat, k: nat): nat
    decreases k
  {
    if k == 0 then b else DoubledTimes(b + b, k - 1)
  }

  /** Doubling k times multiplies by 2^k. */
  lemma {:induction false} DoubledTimesIsProduct(b: nat, k: nat)
    ensures DoubledTimes(b, k) == b * Pow2(k)
    decreases k
  {
    if k > 0 {
      DoubledTimesIsProduct(b + b, k - 1);
      assert (b + b) * Pow2(k - 1) == b * (2 * Pow2(k - 1));
    }
  }

  /** While the current size fits, double it (the loop of lines 453-466). */
  function Doubling(fits: Fits, lengths: seq<nat>, b: nat, cap: nat): (r: Doubled)
    requires 1 <= b && cap <= SIZE_MOD / 8
    requires forall x :: x >= cap ==> !fits(lengths, x)
    ensures !fits(lengths, r.maxBatch)
    ensures b <= r.maxBatch && (r.maxBatch == b || r.maxBatch < 2 * cap)
    ensures |r.probes| >= 1 && r.probes[|r.probes| - 1] == Probe(lengths, r.maxBatch, false)
    ensures forall k :: 0 <= k < |r.probes| - 1 ==> r.probes[k].fitted && r.probes[k].size < r.maxBatch
    ensures forall k :: 0 <= k < |r.probes| ==> r.probes[k] == Probe(lengths, r.probes[k].size, fits(lengths, r.probes[k].size))
    decreases cap - b
  {
    if fits(lengths, b) then
      var r := Doubling(fits, lengths, UAdd(b, b), cap);
      Doubled([Probe(lengths, b, true)] + r.probes, r.maxBatch)
    else Doubled([Probe(lengths, b, false)], b)
  }

  /** A fitting size is probed first, then the doubling goes on from twice that size. */
  lemma DoublingUnfold(fits: Fits, lengths: seq<nat>, b: nat, cap: nat)
    requires 1 <= b && cap <= SIZE_MOD / 8
    requires forall x :: x >= cap ==> !fits(lengths, x)
    requires fits(lengths, b)
    ensures b + b < cap + cap
    ensures var r := Doubling(fits, lengths, b + b, cap);
      Doubling(fits, lengths, b, cap) == Doubled([Probe(lengths, b, true)] + r.probes, r.maxBatch)
  {
  }

  /** The sizes probed are b doubled 0, 1, 2, … times, and the result is the last of them. */
  lemma {:induction false} DoublingSizes(fits: Fits, lengths: seq<nat>, b: nat, cap: nat)
    requires 1 <= b && cap <= SIZE_MOD / 8
    requires forall x :: x >= cap ==> !fits(lengths, x)
    ensures var r := Doubling(fits, lengths, b, cap);
      && (forall k :: 0 <= k < |r.probes| ==> r.probes[k].size == DoubledTimes(b, k))
      && r.maxBatch == DoubledTimes(b, |r.probes| - 1)
    decreases cap - b
  {
    if fits(lengths, b) {
      DoublingUnfold(fits, lengths, b, cap);
      DoublingSizes(fits, lengths, b + b, cap);
      var r := Doubling(fits, lengths, b + b, cap);
      var probes := [Probe(lengths, b, true)] + r.probes;
      forall k | 1 <= k < |probes|
        ensures probes[k].size == DoubledTimes(b, k)
      {
        assert probes[k] == r.probes[k - 1];
      }
    }
  }

  /** The sizes probed are b, 2b, 4b, …: the k-th is b * 2^k, and the result is the last of them. */
  lemma DoublingDoubles(fits: Fits, lengths: seq<nat>, b: nat, cap: nat)
    requires 1 <= b && cap <= SIZE_MOD / 8
    requires forall x :: x >= cap ==> !fits(lengths, x)
    ensures var r := Doubling(fits, lengths, b, cap);
      && (forall k :: 0 <= k < |r.probes| ==> r.probes[k].size == b * Pow2(k))
      && r.maxBatch == b * Pow2(|r.probes| - 1)
  {
    var r := Doubling(fits, lengths, b, cap);
    DoublingSizes(fits, lengths, b, cap);
    forall k | 0 <= k < |r.probes|
      ensures r.probes[k].size == b * Pow2(k)
    {
      DoubledTimesIsProduct(b, k);
    }
  }

  // ---------------------------------------------------------------- binary search

  /** The (start, end) pair of the do-while loop. */
  datatype Bracket = Bracket(start: nat, end: nat)

  /** `(start + end) / 2` in size_t. */
  function Mid(b: Bracket): nat
  {
    UAdd(b.start, b.end) / 2
  }

  /** The loop body's probe of the middle size. */
  function ProbeAt(fits: Fits, lengths: seq<nat>, b: Bracket): Probe
  {
    Probe(lengths, Mid(b), fits(lengths, Mid(b)))
  }

  /** The loop body's update: start above the middle when it fits, end below it (size_t) otherwise. */
  function Next(fits: Fits, lengths: seq<nat>, b: Bracket): (r: Bracket)
    ensures fits(lengths, Mid(b)) ==> r == Bracket(UAdd(Mid(b), 1), b.end)
    ensures !fits(lengths, Mid(b)) ==> r == Bracket(b.start, USub(Mid(b), 1))
  {
    if fits(lengths, Mid(b)) then Bracket(UAdd(Mid(b), 1), b.end) else Bracket(b.start, USub(Mid(b), 1))
  }

  /** The loop test `end - start > step`, in size_t. */
  predicate Continues(step: nat, b: Bracket)
  {
    USub(b.end, b.start) > step
  }

  datatype Searched = Searched(probes: seq<Probe>, final: Bracket, hung: bool)

  /**
   * The do-while loop of lines 479-493 from the bracket b. When the body
   * leaves end below start, the wrapped test keeps the loop running for ever
   * (see StuckNeverExits); the search stops there and reports `hung`.
   */
  function Search(fits: Fits, lengths: seq<nat>, step: nat, b: Bracket): (r: Searched)
    requires 1 <= b.start <= b.end < SIZE_BOUND && step < SIZE_MOD / 2
    ensures |r.probes| >= 1
    ensures r.final.start >= b.start
    ensures r.final.start == b.start <==> FittedEntries(r.probes) == []
    ensures !r.hung ==> b.start <= r.final.start <= r.final.end <= b.end && !Continues(step, r.final)
    ensures r.hung ==> r.final.end < r.final.start <= b.end + 1
    decreases b.end - b.start
  {
    var p := ProbeAt(fits, lengths, b);
    var n := Next(fits, lengths, b);
    StepInRange(fits, lengths, step, b);
    assert [p][0] == p;
    if !Continues(step, n) then Searched([p], n, false)
    else if n.end < n.start then Searched([p], n, true)
    else
      var r := Search(fits, lengths, step, n);
      var probes := [p] + r.probes;
      assert probes[0] == p && probes[1..] == r.probes;
      Searched(probes, r.final, r.hung)
  }

  /** Probes of these lengths, at sizes inside the bracket, each recorded with the oracle's answer. */
  predicate ProbesRecorded(fits: Fits, lengths: seq<nat>, b: Bracket, probes: seq<Probe>)
  {
    forall k :: 0 <= k < |probes| ==>
      probes[k] == Probe(lengths, probes[k].size, fits(lengths, probes[k].size)) && b.start <= probes[k].size <= b.end
  }

  /** Every probe of a search is a size inside the starting bracket, recorded with the oracle's answer. */
  lemma {:induction false} SearchProbes(fits: Fits, lengths: seq<nat>, step: nat, b: Bracket)
    requires 1 <= b.start <= b.end < SIZE_BOUND && step < SIZE_MOD / 2
    ensures ProbesRecorded(fits, lengths, b, Search(fits, lengths, step, b).probes)
    decreases b.end - b.start
  {
    var p := ProbeAt(fits, lengths, b);
    var n := Next(fits, lengths, b);
    StepInRange(fits, lengths, step, b);
    if Continues(step, n) && n.start <= n.end {
      SearchProbes(fits, lengths, step, n);
      var r := Search(fits, lengths, step, n);
      var probes := Search(fits, lengths, step, b).probes;
      assert b.start <= n.start && n.end <= b.end;
      assert probes == [p] + r.probes;
      forall k | 0 <= k < |probes|
        ensures probes[k] == Probe(lengths, probes[k].size, fits(lengths, probes[k].size)) && b.start <= probes[k].size <= b.end
      {
        if k > 0 {
          assert probes[k] == r.probes[k - 1];
        }
      }
    } else {
      assert Search(fits, lengths, step, b).probes == [p];
    }
  }

  /** Inside the modelled range one pass neither wraps the midpoint nor the bounds. */
  lemma StepInRange(fits: Fits, lengths: seq<nat>, step: nat, b: Bracket)
    requires 1 <= b.start <= b.end < SIZE_BOUND
    ensures Mid(b) == (b.start + b.end) / 2 && b.start <= Mid(b) <= b.end
    ensures var n := Next(fits, lengths, b);
      && (fits(lengths, Mid(b)) ==> n == Bracket(Mid(b) + 1, b.end))
      && (!fits(lengths, Mid(b)) ==> n == Bracket(b.start, Mid(b) - 1))
      && (n.start <= n.end ==> (Continues(step, n) <==> n.end - n.start > step))
      && (n.end < n.start && step < SIZE_MOD / 2 ==> Continues(step, n))
      && (n.start <= n.end ==> n.end - n.start < b.end - b.start)
  {
  }

  /** The do-while body applied k times. */
  function Iterate(fits: Fits, lengths: seq<nat>, b: Bracket, k: nat): Bracket
  {
    if k == 0 then b else Next(fits, lengths, Iterate(fits, lengths, b, k - 1))
  }

  /** The brackets from which the loop cannot leave: end below start, or the wrapped (1, 2^64 - 1). */
  predicate Stuck(b: Bracket)
  {
    (b.end < b.start <= SIZE_BOUND) || b == Bracket(1, SIZE_MOD - 1)
  }

  lemma StuckStep(fits: Fits, lengths: seq<nat>, step: nat, b: Bracket)
    requires step < SIZE_MOD / 2 && Stuck(b)
    ensures Continues(step, b) && Stuck(Next(fits, lengths, b))
  {
    if b == Bracket(1, SIZE_MOD - 1) {
      assert Mid(b) == 0;
    }
  }

  /** From a stuck bracket the loop runs for ever: after any number of passes the test still holds. */
  lemma {:induction false} StuckNeverExits(fits: Fits, lengths: seq<nat>, step: nat, b: Bracket, k: nat)
    requires step < SIZE_MOD / 2 && Stuck(b)
    ensures Stuck(Iterate(fits, lengths, b, k)) && Continues(step, Iterate(fits, lengths, b, k))
  {
    if k > 0 {
      StuckNeverExits(fits, lengths, step, b, k - 1);
      StuckStep(fits, lengths, step, Iterate(fits, lengths, b, k - 1));
    }
    StuckStep(fits, lengths, step, Iterate(fits, lengths, b, k));
  }

  /**
   * A search from (1, 2) hangs exactly when a single sentence does not fit:
   * the previous length fitted only one sentence and this one fits none.
   */
  lemma SearchFromTwoHangsUnlessOneFits(fits: Fits, lengths: seq<nat>, step: nat)
    requires step < SIZE_MOD / 2
    ensures Search(fits, lengths, step, Bracket(1, 2)).hung <==> !fits(lengths, 1)
  {
    var b := Bracket(1, 2);
    assert Mid(b) == 1;
    if fits(lengths, 1) {
      assert Next(fits, lengths, b) == Bracket(2, 2);
    } else {
      assert Next(fits, lengths, b) == Bracket(1, 0);
    }
  }

  /** Smaller batches of the same lengths fit whenever a larger one does. */
  ghost predicate Monotone(fits: Fits, lengths: seq<nat>)
  {
    forall x, y :: x <= y && fits(lengths, y) ==> fits(lengths, x)
  }

  /** A pass after which the search stops: its probe is the only one, and the next bracket is the result. */
  lemma SearchUnfoldStops(fits: Fits, lengths: seq<nat>, step: nat, b: Bracket)
    requires 1 <= b.start <= b.end < SIZE_BOUND && step < SIZE_MOD / 2
    ensures var s := Search(fits, lengths, step, b);
      var p := ProbeAt(fits, lengths, b);
      var n := Next(fits, lengths, b);
      && (!Continues(step, n) ==> s == Searched([p], n, false))
      && (Continues(step, n) && n.end < n.start ==> s == Searched([p], n, true))
  {
  }

  /** A pass after which the search goes on: its probe comes first, then those of the search from the next bracket. */
  lemma SearchUnfoldContinues(fits: Fits, lengths: seq<nat>, step: nat, b: Bracket, n: Bracket)
    requires 1 <= b.start <= b.end < SIZE_BOUND && step < SIZE_MOD / 2
    requires n == Next(fits, lengths, b) && Continues(step, n) && n.start <= n.end
    ensures 1 <= n.start <= n.end < SIZE_BOUND && n.end - n.start < b.end - b.start
    ensures var s, r := Search(fits, lengths, step, b), Search(fits, lengths, step, n);
      && s.final == r.final && s.hung == r.hung
      && s.probes == [ProbeAt(fits, lengths, b)] + r.probes
  {
    StepInRange(fits, lengths, step, b);
  }

  /**
   * A search result that brackets the largest fitting size below `end`: the
   * size just below the final start fits (unless nothing fitted), the size
   * just above the final end does not (unless end never moved), and the two
   * are at most step apart.
   */
  predicate Brackets(fits: Fits, lengths: seq<nat>, step: nat, end: nat, r: Searched)
  {
    !r.hung ==>
      && r.final.start >= 1 && (r.final.start == 1 || fits(lengths, r.final.start - 1))
      && (r.final.end == end || !fits(lengths, r.final.end + 1))
      && r.final.end - r.final.start <= step
  }

  /** For a monotone oracle a search that ends brackets the largest fitting size. */
  lemma {:induction false} SearchBrackets(fits: Fits, lengths: seq<nat>, step: nat, b: Bracket)
    requires 1 <= b.start <= b.end < SIZE_BOUND && step < SIZE_MOD / 2
    requires Monotone(fits, lengths)
    requires b.start == 1 || fits(lengths, b.start - 1)
    ensures Brackets(fits, lengths, step, b.end, Search(fits, lengths, step, b))
    decreases b.end - b.start
  {
    var n := Next(fits, lengths, b);
    StepInRange(fits, lengths, step, b);
    if n.start <= n.end && Continues(step, n) {
      SearchBrackets(fits, lengths, step, n);
      BracketsCarry(fits, lengths, step, b, n);
    } else {
      BracketsStop(fits, lengths, step, b, n);
    }
  }

  /** The search stops after one pass: the next bracket is the result. */
  lemma BracketsStop(fits: Fits, lengths: seq<nat>, step: nat, b: Bracket, n: Bracket)
    requires 1 <= b.start <= b.end < SIZE_BOUND && step < SIZE_MOD / 2
    requires Monotone(fits, lengths)
    requires b.start == 1 || fits(lengths, b.start - 1)
    requires n == Next(fits, lengths, b) && !(n.start <= n.end && Continues(step, n))
    ensures Brackets(fits, lengths, step, b.end, Search(fits, lengths, step, b))
  {
    StepInRange(fits, lengths, step, b);
    SearchUnfoldStops(fits, lengths, step, b);
    if n.start <= n.end && n.end != b.end {
      assert !fits(lengths, n.end + 1);
    }
  }

  /** The search goes on: what brackets from the next bracket brackets from this one. */
  lemma BracketsCarry(fits: Fits, lengths: seq<nat>, step: nat, b: Bracket, n: Bracket)
    requires 1 <= b.start <= b.end < SIZE_BOUND && step < SIZE_MOD / 2
    requires Monotone(fits, lengths)
    requires n == Next(fits, lengths, b) && n.start <= n.end && Continues(step, n)
    requires Brackets(fits, lengths, step, n.end, Search(fits, lengths, step, n))
    ensures Brackets(fits, lengths, step, b.end, Search(fits, lengths, step, b))
  {
    StepInRange(fits, lengths, step, b);
    SearchUnfoldContinues(fits, lengths, step, b, n);
    var r := Search(fits, lengths, step, n);
    if !r.hung && r.final.end != b.end && n.end != b.end {
      assert n.end == Mid(b) - 1 && !fits(lengths, Mid(b));
      if r.final.end == n.end {
        assert !fits(lengths, r.final.end + 1);
      }
    }
  }

  // ---------------------------------------------------------------- buckets

  /** The search for one length: i, the capped lengths, the end it started from, and its result. */
  datatype Bucket = Bucket(length: nat, lengths: seq<nat>, initialEnd: nat, search: Searched)

  /** A bucket as the loop produces it: capped lengths, a length within the maximum, and the search from (1, initialEnd). */
  predicate SearchedBucket(fits: Fits, localMaxes: seq<nat>, step: nat, maxLength: nat, bk: Bucket)
  {
    && bk.lengths == CappedLengths(localMaxes, bk.length)
    && bk.length <= maxLength
    && 1 <= bk.initialEnd < SIZE_BOUND && step < SIZE_MOD / 2
    && bk.search == Search(fits, bk.lengths, step, Bracket(1, bk.initialEnd))
  }

  /** Every bucket of the list is as the loop produces it. */
  predicate AllSearched(fits: Fits, localMaxes: seq<nat>, step: nat, maxLength: nat, r: seq<Bucket>)
  {
    forall k :: 0 <= k < |r| ==> SearchedBucket(fits, localMaxes, step, maxLength, r[k])
  }

  /** Bucket b follows bucket a: a did not hang, the length grows by the step, and the end carries over. */
  predicate Linked(step: nat, a: Bucket, b: Bucket)
  {
    && !a.search.hung
    && b.length == a.length + step
    && b.initialEnd == a.search.final.start
  }

  /** Consecutive buckets are linked. */
  predicate Chained(step: nat, r: seq<Bucket>)
  {
    forall k :: 0 <= k < |r| - 1 ==> Linked(step, r[k], r[k + 1])
  }

  /** The length after i in the loop over lengths. */
  function NextLength(i: nat, step: nat): nat
  {
    i + step
  }

  /**
   * The buckets i, i + step, ... up to maxLength. Each search starts from
   * (1, maxBatch), and maxBatch becomes the previous search's final start.
   * A bucket that hangs is the last one.
   */
  function Buckets(fits: Fits, localMaxes: seq<nat>, step: nat, maxLength: nat, i: nat, maxBatch: nat): (r: seq<Bucket>)
    requires step > 0 && i > 0 && maxLength + 2 * step < SIZE_MOD && i <= maxLength + step
    requires 1 <= maxBatch < SIZE_BOUND
    ensures |r| == 0 <==> i > maxLength
    ensures |r| > 0 ==> r[0].length == i && r[0].initialEnd == maxBatch
    decreases maxLength + step - i
  {
    if i > maxLength then []
    else
      var lengths := CappedLengths(localMaxes, i);
      var s := Search(fits, lengths, step, Bracket(1, maxBatch));
      var bucket := Bucket(i, lengths, maxBatch, s);
      if s.hung then [bucket]
      else [bucket] + Buckets(fits, localMaxes, step, maxLength, NextLength(i, step), s.final.start)
  }

  /**
   * The buckets are searched as the loop searches them and chained as the
   * loop chains them; only a hung bucket ends the list before the maximum length.
   */
  lemma {:induction false} BucketsWellFormed(fits: Fits, localMaxes: seq<nat>, step: nat, maxLength: nat, i: nat, maxBatch: nat)
    requires step > 0 && i > 0 && maxLength + 2 * step < SIZE_MOD && i <= maxLength + step
    requires 1 <= maxBatch < SIZE_BOUND
    ensures var r := Buckets(fits, localMaxes, step, maxLength, i, maxBatch);
      && AllSearched(fits, localMaxes, step, maxLength, r)
      && Chained(step, r)
      && (|r| > 0 && !r[|r| - 1].search.hung ==> r[|r| - 1].length + step > maxLength)
    decreases maxLength + step - i
  {
    var r := Buckets(fits, localMaxes, step, maxLength, i, maxBatch);
    if i <= maxLength {
      var lengths := CappedLengths(localMaxes, i);
      var s := Search(fits, lengths, step, Bracket(1, maxBatch));
      var bucket := Bucket(i, lengths, maxBatch, s);
      assert SearchedBucket(fits, localMaxes, step, maxLength, bucket);
      if s.hung {
        assert r == [bucket] && r[1..] == [];
      } else {
        var rest := Buckets(fits, localMaxes, step, maxLength, NextLength(i, step), s.final.start);
        BucketsWellFormed(fits, localMaxes, step, maxLength, NextLength(i, step), s.final.start);
        assert r == [bucket] + rest;
        ConsWellFormed(fits, localMaxes, step, maxLength, bucket, rest);
      }
    }
  }

  /** A searched bucket that did not hang, in front of a well-formed list that continues from it. */
  lemma ConsWellFormed(fits: Fits, localMaxes: seq<nat>, step: nat, maxLength: nat, bucket: Bucket, rest: seq<Bucket>)
    requires SearchedBucket(fits, localMaxes, step, maxLength, bucket) && !bucket.search.hung
    requires AllSearched(fits, localMaxes, step, maxLength, rest) && Chained(step, rest)
    requires |rest| > 0 ==> rest[0].length == bucket.length + step && rest[0].initialEnd == bucket.search.final.start
    requires |rest| == 0 ==> bucket.length + step > maxLength
    requires |rest| > 0 && !rest[|rest| - 1].search.hung ==> rest[|rest| - 1].length + step > maxLength
    ensures var r := [bucket] + rest;
      && AllSearched(fits, localMaxes, step, maxLength, r)
      && Chained(step, r)
      && (!r[|r| - 1].search.hung ==> r[|r| - 1].length + step > maxLength)
  {
    ConsAllSearched(fits, localMaxes, step, maxLength, bucket, rest);
    ConsChained(step, bucket, rest);
    var r := [bucket] + rest;
    if |rest| > 0 {
      assert r[|r| - 1] == rest[|rest| - 1];
    }
  }

  /** Every bucket of the longer list is searched as the loop does. */
  lemma ConsAllSearched(fits: Fits, localMaxes: seq<nat>, step: nat, maxLength: nat, bucket: Bucket, rest: seq<Bucket>)
    requires SearchedBucket(fits, localMaxes, step, maxLength, bucket)
    requires AllSearched(fits, localMaxes, step, maxLength, rest)
    ensures AllSearched(fits, localMaxes, step, maxLength, [bucket] + rest)
  {
    var r := [bucket] + rest;
    assert forall k :: 0 < k < |r| ==> r[k] == rest[k - 1];
  }

  /** The longer list still follows bucket to bucket. */
  lemma ConsChained(step: nat, bucket: Bucket, rest: seq<Bucket>)
    requires !bucket.search.hung && Chained(step, rest)
    requires |rest| > 0 ==> rest[0].length == bucket.length + step && rest[0].initialEnd == bucket.search.final.start
    ensures Chained(step, [bucket] + rest)
  {
    var r := [bucket] + rest;
    assert forall k :: 0 < k < |r| ==> r[k] == rest[k - 1];
  }

  // ---------------------------------------------------------------- collectStats

  datatype Outcome = Outcome(doubling: Doubled, buckets: seq<Bucket>, hung: bool)

  /** What collectStats needs: a positive step, no size_t overflow of the length loop, and input types that fit the file count. */
  predicate ValidConfig(c: Config)
  {
    && c.step > 0
    && c.maxLength + 3 * c.step < SIZE_MOD
    && forall i :: c.numFiles <= i < |c.inputTypes| ==> c.inputTypes[i] != "class"
  }

  function MaxLengthOf(c: Config): nat
    requires ValidConfig(c)
  {
    RoundUpToStep(c.maxLength, c.step)
  }

  function LocalMaxesOf(c: Config): seq<nat>
    requires ValidConfig(c)
  {
    LocalMaxes(c.numFiles, MaxLengthOf(c), c.inputTypes)
  }

  /** The lengths of the doubling phase: the step, capped per file. */
  function FirstLengths(c: Config): seq<nat>
    requires ValidConfig(c)
  {
    CappedLengths(LocalMaxesOf(c), c.step)
  }

  /** The oracle rejects every batch of the first lengths from `cap` on, so the doubling ends. */
  ghost predicate RejectsFrom(c: Config, fits: Fits, cap: nat)
    requires ValidConfig(c)
  {
    cap <= SIZE_MOD / 8 && forall x :: x >= cap ==> !fits(FirstLengths(c), x)
  }

  /** The buckets of collectStats are searched and chained as the loop does it. */
  lemma CollectStatsWellFormed(c: Config, fits: Fits, cap: nat)
    requires ValidConfig(c) && RejectsFrom(c, fits, cap)
    ensures var r := CollectStatsSpec(c, fits, cap).buckets;
      && AllSearched(fits, LocalMaxesOf(c), c.step, MaxLengthOf(c), r)
      && Chained(c.step, r)
      && (|r| > 0 && !r[|r| - 1].search.hung ==> r[|r| - 1].length + c.step > MaxLengthOf(c))
  {
    var d := CollectStatsSpec(c, fits, cap).doubling;
    assert MaxLengthOf(c) < c.maxLength + c.step;
    assert d.maxBatch == FIRST_MAX_BATCH || d.maxBatch < 2 * cap;
    BucketsWellFormed(fits, LocalMaxesOf(c), c.step, MaxLengthOf(c), c.step, d.maxBatch);
  }

  /** collectStats: doubling, then one search per length; `hung` when a search never returns. */
  function CollectStatsSpec(c: Config, fits: Fits, cap: nat): (r: Outcome)
    requires ValidConfig(c) && RejectsFrom(c, fits, cap)
    ensures r.doubling == Doubling(fits, FirstLengths(c), FIRST_MAX_BATCH, cap)
    ensures r.buckets == Buckets(fits, LocalMaxesOf(c), c.step, MaxLengthOf(c), c.step, r.doubling.maxBatch)
    ensures r.hung <==> |r.buckets| > 0 && r.buckets[|r.buckets| - 1].search.hung
  {
    var d := Doubling(fits, FirstLengths(c), FIRST_MAX_BATCH, cap);
    assert MaxLengthOf(c) + 2 * c.step < SIZE_MOD by {
      assert MaxLengthOf(c) < c.maxLength + c.step;
    }
    assert 1 <= d.maxBatch < SIZE_BOUND by {
      assert d.maxBatch == FIRST_MAX_BATCH || d.maxBatch < 2 * cap;
    }
    var buckets := Buckets(fits, LocalMaxesOf(c), c.step, MaxLengthOf(c), c.step, d.maxBatch);
    Outcome(d, buckets, |buckets| > 0 && buckets[|buckets| - 1].search.hung)
  }

  /** The statistics entries of a list of probes: the sizes that fitted, in order. */
  function FittedEntries(probes: seq<Probe>): (r: seq<StatsEntry>)
  {
    if probes == [] then []
    else
      var rest := FittedEntries(probes[1..]);
      if probes[0].fitted then [StatsEntry(probes[0].lengths, probes[0].size)] + rest else rest
  }

  /** The statistics of all buckets, in bucket order. */
  function BucketStats(buckets: seq<Bucket>): seq<StatsEntry>
  {
    if buckets == [] then [] else FittedEntries(buckets[0].search.probes) + BucketStats(buckets[1..])
  }

  lemma {:induction false} FittedEntriesFit(fits: Fits, probes: seq<Probe>)
    requires forall k :: 0 <= k < |probes| ==> probes[k].fitted == fits(probes[k].lengths, probes[k].size)
    ensures forall e :: e in FittedEntries(probes) ==> fits(e.lengths, e.batchSize)
  {
    if probes != [] {
      FittedEntriesFit(fits, probes[1..]);
    }
  }

  /** The fitted entries of a probe followed by others. */
  lemma FittedEntriesCons(p: Probe, rest: seq<Probe>)
    ensures FittedEntries([p] + rest) == FittedEntries([p]) + FittedEntries(rest)
  {
    assert ([p] + rest)[1..] == rest;
    assert [p][1..] == [];
  }

  /** The fitted entries of probes all below a bound are below it. */
  lemma {:induction false} FittedEntriesBelow(probes: seq<Probe>, bound: nat)
    requires forall k :: 0 <= k < |probes| ==> probes[k].size < bound
    ensures forall e :: e in FittedEntries(probes) ==> e.batchSize < bound
  {
    if probes != [] {
      FittedEntriesBelow(probes[1..], bound);
    }
  }

  /** Only batch sizes the oracle accepted are recorded. */
  lemma {:induction false} BucketStatsFit(fits: Fits, localMaxes: seq<nat>, step: nat, maxLength: nat, buckets: seq<Bucket>)
    requires AllSearched(fits, localMaxes, step, maxLength, buckets)
    ensures forall e :: e in BucketStats(buckets) ==> fits(e.lengths, e.batchSize)
  {
    if buckets != [] {
      var b := buckets[0];
      assert SearchedBucket(fits, localMaxes, step, maxLength, b);
      SearchProbes(fits, b.lengths, step, Bracket(1, b.initialEnd));
      forall k | 0 <= k < |b.search.probes|
        ensures b.search.probes[k].fitted == fits(b.search.probes[k].lengths, b.search.probes[k].size)
      {
        var q := b.search.probes[k];
        assert q == Probe(b.lengths, q.size, fits(b.lengths, q.size));
      }
      FittedEntriesFit(fits, b.search.probes);
      BucketStatsFit(fits, localMaxes, step, maxLength, buckets[1..]);
    }
  }

  /** Every statistics entry collectStats records is a batch the oracle accepted. */
  lemma StatsOnlyHoldFittingBatches(c: Config, fits: Fits, cap: nat)
    requires ValidConfig(c) && RejectsFrom(c, fits, cap)
    ensures forall e :: e in BucketStats(CollectStatsSpec(c, fits, cap).buckets) ==> fits(e.lengths, e.batchSize)
  {
    var r := CollectStatsSpec(c, fits, cap);
    CollectStatsWellFormed(c, fits, cap);
    BucketStatsFit(fits, LocalMaxesOf(c), c.step, MaxLengthOf(c), r.buckets);
  }

  /** In a chain that starts at a multiple of the step, every length is a multiple of the step. */
  lemma {:induction false} ChainMultiples(step: nat, r: seq<Bucket>)
    requires step > 0 && Chained(step, r)
    requires |r| > 0 ==> r[0].length % step == 0
    ensures forall k :: 0 <= k < |r| ==> r[k].length % step == 0
  {
    if |r| >= 2 {
      StepMultiple(r[0].length, step);
      ChainMultiples(step, r[1..]);
      assert forall k :: 1 <= k < |r| ==> r[k] == r[1..][k - 1];
    }
  }

  /**
   * The lengths tested are step, 2*step, ... in increasing order, each capped
   * per file; unless a search hangs, they run up to the maximum length
   * rounded up to a multiple of the step.
   */
  lemma BucketLengths(c: Config, fits: Fits, cap: nat)
    requires ValidConfig(c) && RejectsFrom(c, fits, cap)
    ensures var r := CollectStatsSpec(c, fits, cap);
      && (|r.buckets| > 0 <==> c.maxLength > 0)
      && (|r.buckets| > 0 ==> r.buckets[0].length == c.step)
      && (forall k :: 0 <= k < |r.buckets| - 1 ==> r.buckets[k + 1].length == r.buckets[k].length + c.step)
      && (forall k :: 0 <= k < |r.buckets| ==> r.buckets[k].length % c.step == 0)
      && (forall k :: 0 <= k < |r.buckets| ==> r.buckets[k].lengths == CappedLengths(LocalMaxesOf(c), r.buckets[k].length))
      && (!r.hung && |r.buckets| > 0 ==> r.buckets[|r.buckets| - 1].length == MaxLengthOf(c))
  {
    var r := CollectStatsSpec(c, fits, cap);
    var b := r.buckets;
    var m := MaxLengthOf(c);
    CollectStatsWellFormed(c, fits, cap);
    assert c.maxLength > 0 ==> c.step <= m by {
      if 0 < m < c.step {
        DivModUnique(m, c.step, 0, m);
      }
    }
    forall k | 0 <= k < |b| - 1
      ensures b[k + 1].length == b[k].length + c.step
    {
      assert Linked(c.step, b[k], b[k + 1]);
    }
    forall k | 0 <= k < |b|
      ensures b[k].lengths == CappedLengths(LocalMaxesOf(c), b[k].length)
    {
      assert SearchedBucket(fits, LocalMaxesOf(c), c.step, m, b[k]);
    }
    MulMod(1, c.step);
    ChainMultiples(c.step, b);
    if !r.hung && |b| > 0 {
      var last := b[|b| - 1].length;
      assert SearchedBucket(fits, LocalMaxesOf(c), c.step, m, b[|b| - 1]);
      assert last <= m < last + c.step;
      SameMultiple(last, m, c.step);
    }
  }

  lemma StepMultiple(a: nat, step: nat)
    requires step > 0 && a % step == 0
    ensures (a + step) % step == 0
  {
    DivModUnique(a + step, step, a / step + 1, 0);
  }

  lemma SameMultiple(a: nat, b: nat, step: nat)
    requires step > 0 && a % step == 0 && b % step == 0 && a <= b < a + step
    ensures a == b
  {
    var qa, qb := a / step, b / step;
    assert a == qa * step && b == qb * step;
    if qa < qb {
      MulGap(qa, qb, step);
      assert false;
    }
  }

  /** Each search's upper end is the previous search's result; the first one starts from the doubled size. */
  lemma BucketsChainEnds(c: Config, fits: Fits, cap: nat)
    requires ValidConfig(c) && RejectsFrom(c, fits, cap)
    ensures var r := CollectStatsSpec(c, fits, cap);
      && (|r.buckets| > 0 ==> r.buckets[0].initialEnd == r.doubling.maxBatch)
      && forall k :: 0 <= k < |r.buckets| - 1 ==> r.buckets[k + 1].initialEnd == r.buckets[k].search.final.start
  {
    var r := CollectStatsSpec(c, fits, cap);
    CollectStatsWellFormed(c, fits, cap);
    forall k | 0 <= k < |r.buckets| - 1
      ensures r.buckets[k + 1].initialEnd == r.buckets[k].search.final.start
    {
      assert Linked(c.step, r.buckets[k], r.buckets[k + 1]);
    }
  }

  /** Every size a search probes from a non-empty bracket is below the bracket's end. */
  lemma {:induction false} SearchProbesBelowEnd(fits: Fits, lengths: seq<nat>, step: nat, b: Bracket)
    requires 1 <= b.start < b.end < SIZE_BOUND && step < SIZE_MOD / 2
    ensures forall k :: 0 <= k < |Search(fits, lengths, step, b).probes| ==> Search(fits, lengths, step, b).probes[k].size < b.end
    decreases b.end - b.start
  {
    var n := Next(fits, lengths, b);
    StepInRange(fits, lengths, step, b);
    if Continues(step, n) && n.start <= n.end {
      SearchUnfoldContinues(fits, lengths, step, b, n);
      SearchProbesBelowEnd(fits, lengths, step, n);
      var probes := Search(fits, lengths, step, b).probes;
      var r := Search(fits, lengths, step, n);
      forall k | 0 <= k < |probes|
        ensures probes[k].size < b.end
      {
        if k > 0 {
          assert probes[k] == r.probes[k - 1];
        }
      }
    } else {
      SearchUnfoldStops(fits, lengths, step, b);
    }
  }

  /** Every recorded size of a search result is below its final start. */
  predicate FittedBelowStart(r: Searched)
  {
    forall e :: e in FittedEntries(r.probes) ==> e.batchSize < r.final.start
  }

  /** When a search result recorded a size, the one just below its final start is recorded. */
  predicate RecordsBelowStart(lengths: seq<nat>, r: Searched)
  {
    FittedEntries(r.probes) != [] ==> r.final.start >= 1 && StatsEntry(lengths, r.final.start - 1) in FittedEntries(r.probes)
  }

  /** What SearchLargestFitted states of one search result. */
  predicate LargestFitted(lengths: seq<nat>, r: Searched)
  {
    FittedBelowStart(r) && RecordsBelowStart(lengths, r)
  }

  /** The probe of one pass records at most its midpoint, and only when it fits. */
  lemma FittedEntriesOfProbe(fits: Fits, lengths: seq<nat>, b: Bracket)
    ensures var p := ProbeAt(fits, lengths, b);
      FittedEntries([p]) == if p.fitted then [StatsEntry(lengths, Mid(b))] else []
  {
    assert [ProbeAt(fits, lengths, b)][1..] == [];
  }

  /**
   * A search's statistics lie below its final start, and when any size
   * fitted, the one just below the final start is among them: the final
   * start is one above the largest recorded size.
   */
  lemma {:induction false} SearchLargestFitted(fits: Fits, lengths: seq<nat>, step: nat, b: Bracket)
    requires 1 <= b.start <= b.end < SIZE_BOUND && step < SIZE_MOD / 2
    ensures LargestFitted(lengths, Search(fits, lengths, step, b))
    decreases b.end - b.start
  {
    var n := Next(fits, lengths, b);
    StepInRange(fits, lengths, step, b);
    if Continues(step, n) && n.start <= n.end {
      SearchLargestFitted(fits, lengths, step, n);
      SearchUnfoldContinues(fits, lengths, step, b, n);
      LargestFittedCons(lengths, ProbeAt(fits, lengths, b), Search(fits, lengths, step, b), Search(fits, lengths, step, n), n.start);
    } else {
      SearchUnfoldStops(fits, lengths, step, b);
      FittedEntriesOfProbe(fits, lengths, b);
    }
  }

  /**
   * A probe ahead of a search result, with the same final bracket: if the
   * probe fitted it is just below `start`, which is at most the final start,
   * and the final start is `start` itself when the later probes recorded
   * nothing. Then the largest recorded size carries over.
   */
  lemma LargestFittedCons(lengths: seq<nat>, p: Probe, s: Searched, r: Searched, start: nat)
    requires s.probes == [p] + r.probes && s.final == r.final
    requires p.fitted ==> p.lengths == lengths && p.size + 1 == start
    requires start <= r.final.start
    requires FittedEntries(r.probes) == [] ==> r.final.start == start
    requires LargestFitted(lengths, r)
    ensures LargestFitted(lengths, s)
  {
    FittedEntriesCons(p, r.probes);
    assert [p][1..] == [];
    var head, rest := FittedEntries([p]), FittedEntries(r.probes);
    assert head == if p.fitted then [StatsEntry(lengths, start - 1)] else [];
    FittedBelowCarry(head, rest, s, r);
    RecordsBelowCarry(lengths, head, rest, s, r, start);
  }

  /** Entries below the final start, ahead of others below it, are all below it. */
  lemma FittedBelowCarry(head: seq<StatsEntry>, rest: seq<StatsEntry>, s: Searched, r: Searched)
    requires FittedEntries(s.probes) == head + rest && rest == FittedEntries(r.probes) && s.final == r.final
    requires forall e :: e in head ==> e.batchSize < s.final.start
    requires FittedBelowStart(r)
    ensures FittedBelowStart(s)
  {
  }

  /** The size below the final start is recorded: by the later search, or else by the probe ahead of it. */
  lemma RecordsBelowCarry(lengths: seq<nat>, head: seq<StatsEntry>, rest: seq<StatsEntry>, s: Searched, r: Searched, start: nat)
    requires FittedEntries(s.probes) == head + rest && rest == FittedEntries(r.probes) && s.final == r.final
    requires rest == [] ==> r.final.start == start
    requires head != [] ==> start >= 1 && head == [StatsEntry(lengths, start - 1)]
    requires RecordsBelowStart(lengths, r)
    ensures RecordsBelowStart(lengths, s)
  {
    if rest != [] {
      assert StatsEntry(lengths, r.final.start - 1) in rest;
    } else if head != [] {
      assert (head + rest)[0] == StatsEntry(lengths, start - 1);
    }
  }

  /**
   * A search from (1, end) that recorded a size and ended, followed by a
   * search from (1, its final start): the first one's largest size is one
   * below its final start, and the second records nothing larger.
   */
  lemma FollowingSearchNoLarger(fits: Fits, lengths: seq<nat>, nextLengths: seq<nat>, step: nat, end: nat)
    requires 1 <= end < SIZE_BOUND && step < SIZE_MOD / 2
    requires !Search(fits, lengths, step, Bracket(1, end)).hung
    requires FittedEntries(Search(fits, lengths, step, Bracket(1, end)).probes) != []
    ensures var s := Search(fits, lengths, step, Bracket(1, end));
      var best := s.final.start - 1;
      && StatsEntry(lengths, best) in FittedEntries(s.probes)
      && (forall e :: e in FittedEntries(s.probes) ==> e.batchSize <= best)
      && (forall e :: e in FittedEntries(Search(fits, nextLengths, step, Bracket(1, s.final.start)).probes) ==> e.batchSize <= best)
  {
    var s := Search(fits, lengths, step, Bracket(1, end));
    SearchLargestFitted(fits, lengths, step, Bracket(1, end));
    assert LargestFitted(lengths, s);
    var b := Bracket(1, s.final.start);
    SearchProbesBelowEnd(fits, nextLengths, step, b);
    FittedEntriesBelow(Search(fits, nextLengths, step, b).probes, b.end);
  }

  /**
   * Buckets do not grow as the length grows: after a bucket that recorded a
   * size, its largest size is one below its final start, and every size the
   * next bucket records is at most that, since the next search's end is that
   * final start and it probes only below its end.
   */
  lemma NextBucketNoLarger(fits: Fits, localMaxes: seq<nat>, step: nat, maxLength: nat, buckets: seq<Bucket>, k: nat)
    requires AllSearched(fits, localMaxes, step, maxLength, buckets) && Chained(step, buckets)
    requires k + 1 < |buckets|
    requires FittedEntries(buckets[k].search.probes) != []
    ensures var best := buckets[k].search.final.start - 1;
      && StatsEntry(buckets[k].lengths, best) in FittedEntries(buckets[k].search.probes)
      && (forall e :: e in FittedEntries(buckets[k].search.probes) ==> e.batchSize <= best)
      && (forall e :: e in FittedEntries(buckets[k + 1].search.probes) ==> e.batchSize <= best)
  {
    var a, next := buckets[k], buckets[k + 1];
    assert Linked(step, a, next);
    assert SearchedBucket(fits, localMaxes, step, maxLength, a);
    assert SearchedBucket(fits, localMaxes, step, maxLength, next);
    FollowingSearchNoLarger(fits, a.lengths, next.lengths, step, a.initialEnd);
  }

  /**
   * When a search other than the last finds no fitting size, its start stays
   * 1, the next search starts from (1, 1), leaves end below start after one
   * probe, and the size_t loop test never lets it exit.
   */
  lemma NoFitHangsNextBucket(fits: Fits, localMaxes: seq<nat>, step: nat, maxLength: nat, buckets: seq<Bucket>, k: nat, passes: nat)
    requires step < SIZE_MOD / 2
    requires AllSearched(fits, localMaxes, step, maxLength, buckets) && Chained(step, buckets)
    requires k + 1 < |buckets|
    requires FittedEntries(buckets[k].search.probes) == []
    ensures var next := buckets[k + 1];
      && next.initialEnd == 1
      && next.search.hung
      && Stuck(next.search.final)
      && Continues(step, Iterate(fits, next.lengths, next.search.final, passes))
  {
    assert Linked(step, buckets[k], buckets[k + 1]);
    assert SearchedBucket(fits, localMaxes, step, maxLength, buckets[k]);
    assert SearchedBucket(fits, localMaxes, step, maxLength, buckets[k + 1]);
    var next := buckets[k + 1];
    assert next.initialEnd == 1;
    assert Mid(Bracket(1, 1)) == 1;
    StuckNeverExits(fits, next.lengths, step, next.search.final, passes);
  }
}
