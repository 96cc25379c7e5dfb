/** Facts about natural-number division and products that the other modules share. */
module Arith {

  /** Consecutive multiples of f are at least f apart. */
  lemma {:induction false} MulGap(x: nat, y: nat, f: nat)
    requires x < y
    ensures x * f + f <= y * f
    decreases y
  {
    assert y * f == (y - 1) * f + f;
    if x < y - 1 {
      MulGap(x, y - 1, f);
    }
  }

  /** Quotient and remainder are the unique pair with a == q * f + r and r < f. */
  lemma DivModUnique(a: nat, f: nat, q: nat, r: nat)
    requires f > 0 && r < f && a == q * f + r
    ensures a / f == q && a % f == r
  {
    var q', r' := a / f, a % f;
    if q' < q {
      MulGap(q', q, f);
      assert false;
    } else if q < q' {
      MulGap(q, q', f);
      assert false;
    }
  }

  /** A share of a positive total lies in [0, 1] and is 1 exactly when it is the whole. */
  lemma Share(a: nat, t: nat)
    requires 0 < t && a <= t
    ensures 0.0 <= a as real / t as real <= 1.0
    ensures a as real / t as real == 1.0 <==> a == t
  {
    var p := a as real / t as real;
    assert p * t as real == a as real;
    assert (1.0 - p) * t as real == (t - a) as real;
    if p == 1.0 {
      assert a as real == 1.0 * t as real;
    }
  }

  /** The remainder never exceeds the dividend. */
  lemma ModAtMost(a: nat, f: nat)
    requires f > 0
    ensures a % f <= a
  {
    if a < f {
      DivModUnique(a, f, 0, a);
    }
  }

  /** When the remainder of a is f - 1, a + 1 is the next multiple of f. */
  lemma DivModWrap(a: nat, f: nat)
    requires f > 0 && a % f + 1 == f
    ensures (a + 1) % f == 0 && (a + 1) / f == a / f + 1
  {
    var q := a / f;
    assert a + 1 == q * f + f;
    assert q * f + f == (q + 1) * f;
    DivModUnique(a + 1, f, q + 1, 0);
  }

  /** Otherwise a + 1 has the same quotient and the next remainder. */
  lemma DivModCount(a: nat, f: nat)
    requires f > 0 && a % f + 1 < f
    ensures (a + 1) % f == a % f + 1 && (a + 1) / f == a / f
  {
    DivModUnique(a + 1, f, a / f, a % f + 1);
  }
}
