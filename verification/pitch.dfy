/**
 Pitch-coupled scroll rate of the background grid.

 The grid moves BaseRate pixels per millisecond for key 0 and a factor `ratio`
 faster for each semitone above it. keyboard.js uses a double that approximates
 the irrational twelfth root of two; here it is a parameter, so every statement below holds
 for any ratio with the stated sign.
 */
module Pitch {

  /** Pixels per millisecond while key 0 is held. */
  const BaseRate: real := 0.05

  /** Number of semitones in one octave. */
  const Octave: nat := 12

  /** r raised to the n-th power; a positive base has a positive power. */
  function Pow(r: real, n: nat): (p: real)
    ensures r > 0.0 ==> p > 0.0
    decreases n
  {
    if n == 0 then 1.0 else r * Pow(r, n - 1)
  }

  /**
   Scroll rate while key k is held, for semitone ratio `ratio`: key 0 scrolls
   at the base rate, and with a positive ratio every key scrolls forwards.
   */
  function Rate(ratio: real, k: nat): (r: real)
    ensures k == 0 ==> r == BaseRate
    ensures ratio > 0.0 ==> r > 0.0
  {
    BaseRate * Pow(ratio, k)
  }

  lemma {:induction false} PowAdd(r: real, a: nat, b: nat)
    ensures Pow(r, a + b) == Pow(r, a) * Pow(r, b)
    decreases a
  {
    if a > 0 {
      PowAdd(r, a - 1, b);
      calc {
        Pow(r, a + b);
        r * Pow(r, (a - 1) + b);
        r * (Pow(r, a - 1) * Pow(r, b));
        (r * Pow(r, a - 1)) * Pow(r, b);
      }
    }
  }

  lemma ProductPositive(a: real, b: real)
    requires a > 0.0 && b > 0.0
    ensures a * b > 0.0
  {
  }

  /** One semitone up never scrolls slower, and strictly faster when the ratio exceeds 1. */
  lemma RateStep(ratio: real, k: nat)
    requires ratio >= 1.0
    ensures Rate(ratio, k) <= Rate(ratio, k + 1)
    ensures ratio > 1.0 ==> Rate(ratio, k) < Rate(ratio, k + 1)
  {
    var p := Pow(ratio, k);
    var d := ratio - 1.0;
    var gap := d * p;
    assert Rate(ratio, k + 1) - Rate(ratio, k) == BaseRate * gap;
    if d > 0.0 {
      assert p > 0.0;
      ProductPositive(d, p);
      ProductPositive(BaseRate, gap);
    }
  }

  /** A higher key never scrolls slower, and strictly faster when the ratio exceeds 1. */
  lemma {:induction false} RateIncreasing(ratio: real, i: nat, j: nat)
    requires ratio >= 1.0 && i <= j
    ensures Rate(ratio, i) <= Rate(ratio, j)
    ensures ratio > 1.0 && i < j ==> Rate(ratio, i) < Rate(ratio, j)
    decreases j - i
  {
    if i < j {
      RateIncreasing(ratio, i, j - 1);
      RateStep(ratio, j - 1);
    }
  }

  /** Moving up by n semitones multiplies the rate by ratio^n. */
  lemma RateShift(ratio: real, k: nat, n: nat)
    ensures Rate(ratio, k + n) == Rate(ratio, k) * Pow(ratio, n)
  {
  }

  /**
   With the exact twelfth root of two as the ratio, the key an octave up
   scrolls the grid twice as fast.
   */
  lemma OctaveDoublesRate(ratio: real, k: nat)
    requires Pow(ratio, Octave) == 2.0
    ensures Rate(ratio, k + Octave) == 2.0 * Rate(ratio, k)
  {
    RateShift(ratio, k, Octave);
  }
}
