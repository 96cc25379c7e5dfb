/**
 * The running average of target words per batch kept by GraphGroup
 * (typicalTrgBatchWords_, graph_group.cpp:512-514): each update keeps 99% of
 * the old average and adds 1% of the new batch's word count. Floats are
 * modelled as reals.
 */
module BatchWords {

  const Keep: real := 0.99
  const Blend: real := 0.01

  /** One update of the running average with a batch of `words` target words. */
  function Ema(typical: real, words: nat): (r: real)
    ensures typical <= words as real ==> typical <= r <= words as real
    ensures words as real <= typical ==> words as real <= r <= typical
  {
    Keep * typical + Blend * words as real
  }

  /** The update moves the average 1% of the way to the new count. */
  lemma EmaContracts(typical: real, words: nat)
    ensures Ema(typical, words) - words as real == Keep * (typical - words as real)
  {
  }

  /** Keep^k. */
  function KeepPower(k: nat): (p: real)
    ensures 0.0 < p <= 1.0
  {
    if k == 0 then 1.0 else Keep * KeepPower(k - 1)
  }

  /** k updates with the same count. */
  function EmaTimes(typical: real, words: nat, k: nat): real
  {
    if k == 0 then typical else Ema(EmaTimes(typical, words, k - 1), words)
  }

  /**
   * After k batches of the same size the distance to that size has shrunk by
   * the factor 0.99^k, so the average converges to the steady batch size.
   */
  lemma {:induction false} EmaTimesGeometric(typical: real, words: nat, k: nat)
    ensures EmaTimes(typical, words, k) - words as real == KeepPower(k) * (typical - words as real)
  {
    if k > 0 {
      EmaTimesGeometric(typical, words, k - 1);
      EmaContracts(EmaTimes(typical, words, k - 1), words);
    }
  }

  /** A batch of exactly the average size leaves the average unchanged. */
  lemma EmaFixedPoint(words: nat)
    ensures Ema(words as real, words) == words as real
  {
  }
}
