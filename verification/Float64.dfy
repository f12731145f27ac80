/** What a 64-bit pattern means as a number (IEEE 754 binary64), and that `f64::total_cmp` orders patterns by it. */
module Float64 {
  import opened Arithmetic
  import opened Bytes
  import opened Streams

  const SIGN: nat := 0x8000_0000_0000_0000
  const HIDDEN: nat := 0x10_0000_0000_0000 // 2^52, the bit in front of a normal number's fraction

  function Exponent(bits: nat): nat {
    bits % SIGN / HIDDEN
  }

  function Fraction(bits: nat): nat {
    bits % HIDDEN
  }

  predicate Negative(bits: nat) {
    bits >= SIGN
  }

  /** Neither infinite nor not a number. */
  predicate IsFinite(bits: nat) {
    bits < U64_LIMIT && Exponent(bits) < 2047
  }

  /** The distance from zero, in units of the least positive number. */
  function Magnitude(bits: nat): nat {
    if Exponent(bits) == 0 then Fraction(bits) else (HIDDEN + Fraction(bits)) * Power2(Exponent(bits) - 1)
  }

  /** The number a finite pattern means, in the same units. */
  function Meaning(bits: nat): int {
    if Negative(bits) then 0 - Magnitude(bits) else Magnitude(bits)
  }

  lemma {:induction false} PartsOf(bits: nat)
    requires bits < U64_LIMIT
    ensures bits == (if Negative(bits) then SIGN else 0) + Exponent(bits) * HIDDEN + Fraction(bits)
  {
  }

  lemma {:induction false} Power2AtLeast(a: nat, b: nat)
    requires a <= b
    ensures Power2(a) <= Power2(b)
  {
    if a < b { Power2AtLeast(a, b - 1); }
  }

  lemma {:induction false} NormalBounds(fraction: nat, e: nat)
    requires fraction < HIDDEN && e > 0
    ensures HIDDEN * Power2(e - 1) <= (HIDDEN + fraction) * Power2(e - 1) < HIDDEN * Power2(e)
  {
    var p := Power2(e - 1);
    MulLess(HIDDEN + fraction, 2 * HIDDEN, p);
    assert Power2(e) == 2 * p && HIDDEN * (2 * p) == 2 * HIDDEN * p;
    assert (HIDDEN + fraction) * p == HIDDEN * p + fraction * p;
  }

  /** A greater pattern of one sign is farther from zero. */
  lemma {:induction false} MagnitudeGrows(a: nat, b: nat)
    requires IsFinite(a) && IsFinite(b) && Negative(a) == Negative(b) && a < b
    ensures Magnitude(a) < Magnitude(b)
  {
    hide Power2;
    PartsOf(a);
    PartsOf(b);
    var ea, eb, fa, fb := Exponent(a), Exponent(b), Fraction(a), Fraction(b);
    if ea == eb {
      if ea > 0 { MulLess(HIDDEN + fa, HIDDEN + fb, Power2(ea - 1)); }
    } else {
      NormalBounds(fb, eb);
      Power2AtLeast(0, eb - 1);
      assert Power2(0) == 1 by { PowerZero(); }
      if ea > 0 {
        NormalBounds(fa, ea);
        Power2AtLeast(ea, eb - 1);
      }
    }
  }

  lemma {:induction false} PowerZero()
    ensures Power2(0) == 1
  {
  }

  /** On finite patterns the writer's order of times is the order of the numbers, and -0 comes before +0. */
  lemma {:induction false} OrderIsNumeric(a: nat, b: nat)
    requires IsFinite(a) && IsFinite(b)
    ensures TotalKey(a) < TotalKey(b) <==>
      Meaning(a) < Meaning(b) || (Meaning(a) == Meaning(b) == 0 && Negative(a) && !Negative(b))
  {
    hide Magnitude;
    if Negative(a) == Negative(b) {
      if a < b { MagnitudeGrows(a, b); } else if b < a { MagnitudeGrows(b, a); }
    }
  }
}
