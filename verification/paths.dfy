/**
 * File names derived from the model path: the training checkpoint
 * (graph_group.cpp:266 and :364) and the numbered model snapshot written by
 * saveModel (graph_group.cpp:346-350).
 */
module Paths {

  /** Appended to the model path to name the checkpoint. */
  const CheckpointSuffix: string := ".optimizer.npz"

  /** `name + ".optimizer.npz"`. */
  function CheckpointName(model: string): (r: string)
    ensures |r| == |model| + |CheckpointSuffix|
    ensures r[..|model|] == model && r[|model|..] == CheckpointSuffix
  {
    model + CheckpointSuffix
  }

  /** Different models never share a checkpoint. */
  lemma CheckpointNameInjective(a: string, b: string)
    requires CheckpointName(a) == CheckpointName(b)
    ensures a == b
  {
    assert |a| == |b|;
    assert a == CheckpointName(a)[..|a|];
  }

  function DigitChar(d: nat): (ch: char)
    requires d < 10
    ensures '0' <= ch <= '9'
  {
    ('0' as int + d) as char
  }

  predicate IsDigits(s: string)
  {
    forall i :: 0 <= i < |s| ==> '0' <= s[i] <= '9'
  }

  /** std::to_string of an unsigned count: decimal, no leading zero. */
  function Decimal(n: nat): (s: string)
    ensures |s| >= 1 && IsDigits(s)
    ensures |s| > 1 ==> s[0] != '0'
  {
    if n < 10 then [DigitChar(n)] else Decimal(n / 10) + [DigitChar(n % 10)]
  }

  /** Reads a digit string back as a number. */
  function ParseDecimal(s: string): nat
    requires IsDigits(s)
  {
    if s == [] then 0 else 10 * ParseDecimal(s[..|s| - 1]) + (s[|s| - 1] as int - '0' as int)
  }

  lemma {:induction false} ParseDecimalInvertsDecimal(n: nat)
    ensures ParseDecimal(Decimal(n)) == n
  {
    if n >= 10 {
      var s := Decimal(n);
      assert s[..|s| - 1] == Decimal(n / 10);
      ParseDecimalInvertsDecimal(n / 10);
    }
  }

  /** The iteration label of the snapshot: the scheduler's batch count, or "unknown" without a scheduler. */
  function IterationLabel(hasScheduler: bool, numberOfBatches: nat): (tag: string)
    ensures hasScheduler ==> IsDigits(tag) && ParseDecimal(tag) == numberOfBatches
    ensures !hasScheduler ==> tag == "unknown"
  {
    if hasScheduler then
      ParseDecimalInvertsDecimal(numberOfBatches);
      Decimal(numberOfBatches)
    else "unknown"
  }

  /** The last 4 characters of the model name (its ".npz") replaced by `.iter<label>.npz`. */
  function SnapshotName(model: string, tag: string): (r: string)
    requires |model| >= 4
    ensures |r| == |model| + 5 + |tag|
    ensures r[..|model| - 4] == model[..|model| - 4]
    ensures r[|model| - 4..|model| + 1] == ".iter" && r[|r| - 4..] == ".npz"
    ensures r[|model| + 1..|r| - 4] == tag
  {
    model[..|model| - 4] + ".iter" + tag + ".npz"
  }

  /** Snapshots taken at different batch counts have different names. */
  lemma SnapshotNamesDistinct(model: string, n1: nat, n2: nat)
    requires |model| >= 4
    requires SnapshotName(model, IterationLabel(true, n1)) == SnapshotName(model, IterationLabel(true, n2))
    ensures n1 == n2
  {
    var s1 := SnapshotName(model, IterationLabel(true, n1));
    var s2 := SnapshotName(model, IterationLabel(true, n2));
    assert IterationLabel(true, n1) == s1[|model| + 1..|s1| - 4];
    assert IterationLabel(true, n2) == s2[|model| + 1..|s2| - 4];
  }

  /** A snapshot never overwrites the model file or its checkpoint. */
  lemma SnapshotNameIsFresh(model: string, tag: string)
    requires |model| >= 4
    ensures SnapshotName(model, tag) != model
    ensures SnapshotName(model, tag) != CheckpointName(model)
  {
    var s, k := SnapshotName(model, tag), CheckpointName(model);
    if |s| == |k| {
      assert s[|model|] == 'r';
      assert k[|model|] == '.';
    }
  }
}
