/** The multiplication and the S-box of AES (src/crypto.rs) are those of FIPS 197: `gmul` is the product of the field,
    and the table is the affine map of the inverse. */
module AesProduct {
  import opened AesField

  const ONE: Octet := Octet(1)

  // ---------------------------------------------------------------- sums

  lemma {:induction false} Swap(a: Octet, b: Octet, c: Octet, d: Octet)
    ensures Xor(Xor(a, b), Xor(c, d)) == Xor(Xor(a, c), Xor(b, d))
  {
  }

  lemma {:induction false} XorSelf(a: Octet)
    ensures Xor(a, a) == ZERO && Xor(a, ZERO) == a
  {
  }

  lemma {:induction false} TermAdds(a: Octet, c: Octet, b: Octet)
    ensures Term(Xor(a, c), b) == Xor(Term(a, b), Term(c, b))
  {
    hide Xor, Odd;
    XorSelf(ZERO);
  }

  lemma {:induction false} TermDoubled(a: Octet, b: Octet)
    ensures Term(Xtime(a), b) == Xtime(Term(a, b))
  {
    hide Xtime, Odd;
    XtimeAdds(ZERO, ZERO);
  }

  // ---------------------------------------------------------------- the laws of the product

  lemma {:induction false} FromAdds(a: Octet, c: Octet, b: Octet, p: Octet, q: Octet, n: nat)
    ensures TimesFrom(Xor(a, c), b, Xor(p, q), n) == Xor(TimesFrom(a, b, p, n), TimesFrom(c, b, q, n))
    decreases n
  {
    hide Xor, Xtime, Half, Term;
    if n != 0 {
      XtimeAdds(a, c);
      TermAdds(a, c, b);
      Swap(p, q, Term(a, b), Term(c, b));
      FromAdds(Xtime(a), Xtime(c), Half(b), Xor(p, Term(a, b)), Xor(q, Term(c, b)), n - 1);
    }
  }

  lemma {:induction false} FromDoubled(a: Octet, b: Octet, p: Octet, n: nat)
    ensures TimesFrom(Xtime(a), b, Xtime(p), n) == Xtime(TimesFrom(a, b, p, n))
    decreases n
  {
    hide Xor, Xtime, Half, Term;
    if n != 0 {
      TermDoubled(a, b);
      XtimeAdds(p, Term(a, b));
      FromDoubled(Xtime(a), Half(b), Xor(p, Term(a, b)), n - 1);
    }
  }

  lemma {:induction false} TimesAdds(a: Octet, c: Octet, b: Octet)
    ensures Times(Xor(a, c), b) == Xor(Times(a, b), Times(c, b))
  {
    hide Xor, TimesFrom;
    XorSelf(ZERO);
    FromAdds(a, c, b, ZERO, ZERO, 8);
  }

  lemma {:induction false} TimesDoubles(a: Octet, b: Octet)
    ensures Times(Xtime(a), b) == Xtime(Times(a, b))
  {
    hide Xtime, TimesFrom;
    XtimeAdds(ZERO, ZERO);
    FromDoubled(a, b, ZERO, 8);
  }

  // ---------------------------------------------------------------- the loop on bits

  // The last one to eight turns of the loop.
  function Turns1(a: bv8, b: bv8, p: bv8): bv8 { p ^ ((0 - (b & 1)) & a) }
  function Turns2(a: bv8, b: bv8, p: bv8): bv8 { Turns1((a << 1) ^ ((0 - (a >> 7)) & 0x1b), b >> 1, p ^ ((0 - (b & 1)) & a)) }
  function Turns3(a: bv8, b: bv8, p: bv8): bv8 { Turns2((a << 1) ^ ((0 - (a >> 7)) & 0x1b), b >> 1, p ^ ((0 - (b & 1)) & a)) }
  function Turns4(a: bv8, b: bv8, p: bv8): bv8 { Turns3((a << 1) ^ ((0 - (a >> 7)) & 0x1b), b >> 1, p ^ ((0 - (b & 1)) & a)) }
  function Turns5(a: bv8, b: bv8, p: bv8): bv8 { Turns4((a << 1) ^ ((0 - (a >> 7)) & 0x1b), b >> 1, p ^ ((0 - (b & 1)) & a)) }
  function Turns6(a: bv8, b: bv8, p: bv8): bv8 { Turns5((a << 1) ^ ((0 - (a >> 7)) & 0x1b), b >> 1, p ^ ((0 - (b & 1)) & a)) }
  function Turns7(a: bv8, b: bv8, p: bv8): bv8 { Turns6((a << 1) ^ ((0 - (a >> 7)) & 0x1b), b >> 1, p ^ ((0 - (b & 1)) & a)) }
  function Turns8(a: bv8, b: bv8, p: bv8): bv8 { Turns7((a << 1) ^ ((0 - (a >> 7)) & 0x1b), b >> 1, p ^ ((0 - (b & 1)) & a)) }

  lemma {:induction false} OneTurn(a: bv8, b: bv8, p: bv8)
    ensures Xtime(Octet(a)) == Octet((a << 1) ^ ((0 - (a >> 7)) & 0x1b)) && Half(Octet(b)) == Octet(b >> 1)
    ensures Xor(Octet(p), Term(Octet(a), Octet(b))) == Octet(p ^ ((0 - (b & 1)) & a))
  {
  }

  lemma {:induction false} Step(a: Octet, b: Octet, p: Octet, n: nat)
    requires n > 0
    ensures TimesFrom(a, b, p, n) == TimesFrom(Xtime(a), Half(b), Xor(p, Term(a, b)), n - 1)
  {
    hide Xtime, Half, Xor, Term;
  }

  lemma {:induction false} NoStep(a: Octet, b: Octet, p: Octet)
    ensures TimesFrom(a, b, p, 0) == p
  {
  }

  lemma {:induction false} BitTurn(a: bv8, b: bv8, p: bv8, n: nat)
    requires n > 0
    ensures TimesFrom(Octet(a), Octet(b), Octet(p), n)
         == TimesFrom(Octet((a << 1) ^ ((0 - (a >> 7)) & 0x1b)), Octet(b >> 1), Octet(p ^ ((0 - (b & 1)) & a)), n - 1)
  {
    hide TimesFrom;
    Step(Octet(a), Octet(b), Octet(p), n);
    OneTurn(a, b, p);
  }

  lemma {:induction false} Bits1(a: bv8, b: bv8, p: bv8)
    ensures TimesFrom(Octet(a), Octet(b), Octet(p), 1) == Octet(Turns1(a, b, p))
  {
    hide TimesFrom;
    BitTurn(a, b, p, 1);
    NoStep(Octet((a << 1) ^ ((0 - (a >> 7)) & 0x1b)), Octet(b >> 1), Octet(p ^ ((0 - (b & 1)) & a)));
  }

  lemma {:induction false} Bits2(a: bv8, b: bv8, p: bv8)
    ensures TimesFrom(Octet(a), Octet(b), Octet(p), 2) == Octet(Turns2(a, b, p))
  {
    hide TimesFrom, Turns1;
    BitTurn(a, b, p, 2);
    Bits1((a << 1) ^ ((0 - (a >> 7)) & 0x1b), b >> 1, p ^ ((0 - (b & 1)) & a));
  }

  lemma {:induction false} Bits3(a: bv8, b: bv8, p: bv8)
    ensures TimesFrom(Octet(a), Octet(b), Octet(p), 3) == Octet(Turns3(a, b, p))
  {
    hide TimesFrom, Turns2;
    BitTurn(a, b, p, 3);
    Bits2((a << 1) ^ ((0 - (a >> 7)) & 0x1b), b >> 1, p ^ ((0 - (b & 1)) & a));
  }

  lemma {:induction false} Bits4(a: bv8, b: bv8, p: bv8)
    ensures TimesFrom(Octet(a), Octet(b), Octet(p), 4) == Octet(Turns4(a, b, p))
  {
    hide TimesFrom, Turns3;
    BitTurn(a, b, p, 4);
    Bits3((a << 1) ^ ((0 - (a >> 7)) & 0x1b), b >> 1, p ^ ((0 - (b & 1)) & a));
  }

  lemma {:induction false} Bits5(a: bv8, b: bv8, p: bv8)
    ensures TimesFrom(Octet(a), Octet(b), Octet(p), 5) == Octet(Turns5(a, b, p))
  {
    hide TimesFrom, Turns4;
    BitTurn(a, b, p, 5);
    Bits4((a << 1) ^ ((0 - (a >> 7)) & 0x1b), b >> 1, p ^ ((0 - (b & 1)) & a));
  }

  lemma {:induction false} Bits6(a: bv8, b: bv8, p: bv8)
    ensures TimesFrom(Octet(a), Octet(b), Octet(p), 6) == Octet(Turns6(a, b, p))
  {
    hide TimesFrom, Turns5;
    BitTurn(a, b, p, 6);
    Bits5((a << 1) ^ ((0 - (a >> 7)) & 0x1b), b >> 1, p ^ ((0 - (b & 1)) & a));
  }

  lemma {:induction false} Bits7(a: bv8, b: bv8, p: bv8)
    ensures TimesFrom(Octet(a), Octet(b), Octet(p), 7) == Octet(Turns7(a, b, p))
  {
    hide TimesFrom, Turns6;
    BitTurn(a, b, p, 7);
    Bits6((a << 1) ^ ((0 - (a >> 7)) & 0x1b), b >> 1, p ^ ((0 - (b & 1)) & a));
  }

  lemma {:induction false} Bits8(a: bv8, b: bv8, p: bv8)
    ensures TimesFrom(Octet(a), Octet(b), Octet(p), 8) == Octet(Turns8(a, b, p))
  {
    hide TimesFrom, Turns7;
    BitTurn(a, b, p, 8);
    Bits7((a << 1) ^ ((0 - (a >> 7)) & 0x1b), b >> 1, p ^ ((0 - (b & 1)) & a));
  }

  function ProductBits(a: bv8, b: bv8): bv8 {
    Turns8(a, b, 0)
  }

  lemma {:induction false} TimesIsBits(a: bv8, b: bv8)
    ensures Times(Octet(a), Octet(b)) == Octet(ProductBits(a, b))
  {
    hide TimesFrom, Turns8;
    Bits8(a, b, 0);
  }

  lemma {:induction false} OneTimesBits(b: bv8)
    ensures ProductBits(1, b) == b
  {
  }

  lemma {:induction false} OneTimes(b: Octet)
    ensures Times(ONE, b) == b
  {
    hide Times, ProductBits;
    TimesIsBits(1, b.bits);
    OneTimesBits(b.bits);
  }

  lemma {:induction false} PowersOfX()
    ensures Xtime(ONE) == Octet(0x02) && Xtime(Xtime(ONE)) == Octet(0x04) && Xtime(Xtime(Xtime(ONE))) == Octet(0x08)
  {
  }

  // ---------------------------------------------------------------- products by the constants of InvMixColumns

  /** Products by x, x^2 and x^3. */
  lemma {:induction false} TimesPowers(b: Octet)
    ensures Times(Octet(0x02), b) == Xtime(b) && Times(Octet(0x04), b) == Xtime(Xtime(b))
    ensures Times(Octet(0x08), b) == Xtime(Xtime(Xtime(b)))
  {
    hide Times, Xtime;
    PowersOfX();
    OneTimes(b);
    TimesDoubles(ONE, b);
    TimesDoubles(Xtime(ONE), b);
    TimesDoubles(Xtime(Xtime(ONE)), b);
  }

  lemma {:induction false} ConstantSums()
    ensures Octet(0x09) == Xor(Octet(0x08), ONE) && Octet(0x0b) == Xor(Xor(Octet(0x08), Octet(0x02)), ONE)
    ensures Octet(0x0d) == Xor(Xor(Octet(0x08), Octet(0x04)), ONE) && Octet(0x0e) == Xor(Xor(Octet(0x08), Octet(0x04)), Octet(0x02))
  {
  }

  lemma {:induction false} TimesThree(x: Octet, y: Octet, z: Octet, b: Octet)
    ensures Times(Xor(Xor(x, y), z), b) == Xor(Xor(Times(x, b), Times(y, b)), Times(z, b))
  {
    hide Times, Xor;
    TimesAdds(Xor(x, y), z, b);
    TimesAdds(x, y, b);
  }

  lemma {:induction false} Times9(b: Octet)
    ensures Times(Octet(0x09), b) == By9(b)
  {
    hide Times, Xtime, Xor;
    ConstantSums();
    TimesPowers(b);
    OneTimes(b);
    TimesAdds(Octet(0x08), ONE, b);
  }

  lemma {:induction false} TimesB(b: Octet)
    ensures Times(Octet(0x0b), b) == ByB(b)
  {
    hide Times, Xtime, Xor;
    ConstantSums();
    TimesPowers(b);
    OneTimes(b);
    TimesThree(Octet(0x08), Octet(0x02), ONE, b);
  }

  lemma {:induction false} TimesD(b: Octet)
    ensures Times(Octet(0x0d), b) == ByD(b)
  {
    hide Times, Xtime, Xor;
    ConstantSums();
    TimesPowers(b);
    OneTimes(b);
    TimesThree(Octet(0x08), Octet(0x04), ONE, b);
  }

  lemma {:induction false} TimesE(b: Octet)
    ensures Times(Octet(0x0e), b) == ByE(b)
  {
    hide Times, Xtime, Xor;
    ConstantSums();
    TimesPowers(b);
    TimesThree(Octet(0x08), Octet(0x04), Octet(0x02), b);
  }

  /** The constants of MixColumns. */
  lemma {:induction false} TimesTwoThree(b: Octet)
    ensures Times(Octet(0x02), b) == Xtime(b) && Times(Octet(0x03), b) == By3(b)
  {
    hide Times, Xtime;
    TimesPowers(b);
    OneTimes(b);
    TimesAdds(Octet(0x02), ONE, b);
    assert Octet(0x03) == Xor(Octet(0x02), ONE);
  }

  // ---------------------------------------------------------------- the laws determine the product

  type Operation = (Octet, Octet) -> Octet

  /** What multiplying polynomials modulo x^8 + x^4 + x^3 + x + 1 does: one changes nothing, x doubles, sums distribute. */
  ghost predicate Multiplies(f: Operation) {
    && (forall b: Octet :: f(ONE, b) == b)
    && (forall a: Octet, b: Octet :: f(Xtime(a), b) == Xtime(f(a, b)))
    && (forall a: Octet, c: Octet, b: Octet :: f(Xor(a, c), b) == Xor(f(a, b), f(c, b)))
  }

  function Product(): Operation {
    (a: Octet, b: Octet) => Times(a, b)
  }

  lemma {:induction false} TimesMultiplies()
    ensures Multiplies(Product())
  {
    hide Times, Xtime, Xor;
    var f := Product();
    forall b: Octet ensures f(ONE, b) == b { OneTimes(b); }
    forall a: Octet, b: Octet ensures f(Xtime(a), b) == Xtime(f(a, b)) { TimesDoubles(a, b); }
    forall a: Octet, c: Octet, b: Octet ensures f(Xor(a, c), b) == Xor(f(a, b), f(c, b)) { TimesAdds(a, c, b); }
  }

  lemma {:induction false} ZeroGivesZero(f: Operation, b: Octet)
    requires Multiplies(f)
    ensures f(ZERO, b) == ZERO
  {
    hide Xor, Xtime;
    XorSelf(ZERO);
    XorSelf(f(ZERO, b));
    assert f(Xor(ZERO, ZERO), b) == Xor(f(ZERO, b), f(ZERO, b));
  }

  lemma {:induction false} TermUnder(f: Operation, c: Octet, a: Octet, b: Octet)
    requires Multiplies(f)
    ensures f(Term(c, a), b) == Term(f(c, b), a)
  {
    hide Multiplies, Odd;
    ZeroGivesZero(f, b);
  }

  lemma {:induction false} LawsAt(f: Operation, a: Octet, c: Octet, b: Octet)
    requires Multiplies(f)
    ensures f(ONE, b) == b && f(Xtime(a), b) == Xtime(f(a, b)) && f(Xor(a, c), b) == Xor(f(a, b), f(c, b))
  {
  }

  /** Such an operation passes through the loop of `gmul`. */
  lemma {:induction false} ThroughLoop(f: Operation, c: Octet, a: Octet, p: Octet, n: nat, b: Octet)
    requires Multiplies(f)
    ensures f(TimesFrom(c, a, p, n), b) == TimesFrom(f(c, b), a, f(p, b), n)
    decreases n
  {
    hide Multiplies, Xor, Xtime, Half, Term;
    if n != 0 {
      TermUnder(f, c, a, b);
      LawsAt(f, c, p, b);
      LawsAt(f, p, Term(c, a), b);
      ThroughLoop(f, Xtime(c), Half(a), Xor(p, Term(c, a)), n - 1, b);
    }
  }

  lemma {:induction false} TurnsRound(f: Operation, a: Octet, b: Octet)
    requires Multiplies(f)
    ensures f(a, b) == Times(b, a)
  {
    hide Multiplies, TimesFrom;
    OneTimes(a);
    ZeroGivesZero(f, b);
    LawsAt(f, a, a, b);
    ThroughLoop(f, ONE, a, ZERO, 8, b);
  }

  lemma {:induction false} Commutes(a: Octet, b: Octet)
    ensures Times(a, b) == Times(b, a)
  {
    hide Multiplies, Times;
    TimesMultiplies();
    TurnsRound(Product(), a, b);
  }

  /** The product is the one operation with these laws. */
  lemma {:induction false} OnlyProduct(f: Operation, a: Octet, b: Octet)
    requires Multiplies(f)
    ensures f(a, b) == Times(a, b)
  {
    hide Multiplies, Times;
    TurnsRound(f, a, b);
    Commutes(a, b);
  }

  lemma {:induction false} Associates(a: Octet, b: Octet, c: Octet)
    ensures Times(Times(a, b), c) == Times(a, Times(b, c))
  {
    hide Multiplies, TimesFrom;
    TimesMultiplies();
    var f := Product();
    ThroughLoop(f, a, b, ZERO, 8, c);
    ZeroGivesZero(f, c);
    assert f(Times(a, b), c) == Times(Times(a, c), b);
    PassesSecond(a, b, c);
  }

  /** A factor passes the second factor. */
  lemma {:induction false} PassesSecond(a: Octet, b: Octet, c: Octet)
    ensures Times(Times(a, c), b) == Times(a, Times(b, c))
  {
    hide Multiplies, TimesFrom;
    TimesMultiplies();
    var f := Product();
    ThroughLoop(f, b, c, ZERO, 8, a);
    ZeroGivesZero(f, a);
    assert f(Times(b, c), a) == Times(Times(b, a), c);
    ThroughLoop(f, a, c, ZERO, 8, b);
    ZeroGivesZero(f, b);
    assert f(Times(a, c), b) == Times(Times(a, b), c);
    Commutes(a, b);
    Commutes(a, Times(b, c));
  }

  /** The laws of the field's product (section 4.2 of FIPS 197); multiplying by x is `Xtime`, the shift and reduction of
      section 4.2.1. */
  lemma {:induction false} FieldLaws(a: Octet, b: Octet, c: Octet)
    ensures Times(ONE, b) == b && Times(Octet(2), b) == Xtime(b)
    ensures Times(Xtime(a), b) == Xtime(Times(a, b))
    ensures Times(Xor(a, c), b) == Xor(Times(a, b), Times(c, b)) && Times(b, Xor(a, c)) == Xor(Times(b, a), Times(b, c))
    ensures Times(a, b) == Times(b, a) && Times(Times(a, b), c) == Times(a, Times(b, c))
  {
    hide Times, Xtime, Xor;
    OneTimes(b);
    PowersOfX();
    TimesDoubles(ONE, b);
    TimesDoubles(a, b);
    TimesAdds(a, c, b);
    Commutes(b, Xor(a, c));
    Commutes(a, b);
    Commutes(c, b);
    Associates(a, b, c);
  }

  // ---------------------------------------------------------------- the S-box

  function AffineBits(b: bv8): bv8 {
    b ^ ((b << 1) | (b >> 7)) ^ ((b << 2) | (b >> 6)) ^ ((b << 3) | (b >> 5)) ^ ((b << 4) | (b >> 4)) ^ 0x63
  }

  function InvAffineBits(b: bv8): bv8 {
    ((b << 1) | (b >> 7)) ^ ((b << 3) | (b >> 5)) ^ ((b << 6) | (b >> 2)) ^ 0x05
  }

  /** The affine map of section 5.1.1 of FIPS 197. */
  function Affine(y: Octet): Octet {
    Octet(AffineBits(y.bits))
  }

  /** What the table's entry is the affine map of. */
  function Inverse(x: Octet): Octet {
    Octet(InvAffineBits(SboxBits(x.bits)))
  }

  lemma {:induction false} AffineBack(b: bv8)
    ensures AffineBits(InvAffineBits(b)) == b
  {
  }

  /** `s` is the affine map of an inverse of `x`, or of zero at zero. */
  predicate Gives(x: bv8, s: bv8) {
    ProductBits(x, InvAffineBits(s)) == if x == 0 then 0 else 1
  }

  /** A row's entries are those due from `h` on. */
  predicate RowGives(h: bv8, r: Row) {
    && Gives(h, r.v0) && Gives(h | 1, r.v1) && Gives(h | 2, r.v2) && Gives(h | 3, r.v3)
    && Gives(h | 4, r.v4) && Gives(h | 5, r.v5) && Gives(h | 6, r.v6) && Gives(h | 7, r.v7)
    && Gives(h | 8, r.v8) && Gives(h | 9, r.v9) && Gives(h | 10, r.v10) && Gives(h | 11, r.v11)
    && Gives(h | 12, r.v12) && Gives(h | 13, r.v13) && Gives(h | 14, r.v14) && Gives(h | 15, r.v15)
  }

  // Each row of the table, spelt out: every product below is one of constants.

  lemma {:induction false} Row0()
    ensures RowGives(0x00, Row(0x63, 0x7c, 0x77, 0x7b, 0xf2, 0x6b, 0x6f, 0xc5, 0x30, 0x01, 0x67, 0x2b, 0xfe, 0xd7, 0xab, 0x76))
  {
  }

  lemma {:induction false} Row1()
    ensures RowGives(0x10, Row(0xca, 0x82, 0xc9, 0x7d, 0xfa, 0x59, 0x47, 0xf0, 0xad, 0xd4, 0xa2, 0xaf, 0x9c, 0xa4, 0x72, 0xc0))
  {
  }

  lemma {:induction false} Row2()
    ensures RowGives(0x20, Row(0xb7, 0xfd, 0x93, 0x26, 0x36, 0x3f, 0xf7, 0xcc, 0x34, 0xa5, 0xe5, 0xf1, 0x71, 0xd8, 0x31, 0x15))
  {
  }

  lemma {:induction false} Row3()
    ensures RowGives(0x30, Row(0x04, 0xc7, 0x23, 0xc3, 0x18, 0x96, 0x05, 0x9a, 0x07, 0x12, 0x80, 0xe2, 0xeb, 0x27, 0xb2, 0x75))
  {
  }

  lemma {:induction false} Row4()
    ensures RowGives(0x40, Row(0x09, 0x83, 0x2c, 0x1a, 0x1b, 0x6e, 0x5a, 0xa0, 0x52, 0x3b, 0xd6, 0xb3, 0x29, 0xe3, 0x2f, 0x84))
  {
  }

  lemma {:induction false} Row5()
    ensures RowGives(0x50, Row(0x53, 0xd1, 0x00, 0xed, 0x20, 0xfc, 0xb1, 0x5b, 0x6a, 0xcb, 0xbe, 0x39, 0x4a, 0x4c, 0x58, 0xcf))
  {
  }

  lemma {:induction false} Row6()
    ensures RowGives(0x60, Row(0xd0, 0xef, 0xaa, 0xfb, 0x43, 0x4d, 0x33, 0x85, 0x45, 0xf9, 0x02, 0x7f, 0x50, 0x3c, 0x9f, 0xa8))
  {
  }

  lemma {:induction false} Row7()
    ensures RowGives(0x70, Row(0x51, 0xa3, 0x40, 0x8f, 0x92, 0x9d, 0x38, 0xf5, 0xbc, 0xb6, 0xda, 0x21, 0x10, 0xff, 0xf3, 0xd2))
  {
  }

  lemma {:induction false} Row8()
    ensures RowGives(0x80, Row(0xcd, 0x0c, 0x13, 0xec, 0x5f, 0x97, 0x44, 0x17, 0xc4, 0xa7, 0x7e, 0x3d, 0x64, 0x5d, 0x19, 0x73))
  {
  }

  lemma {:induction false} Row9()
    ensures RowGives(0x90, Row(0x60, 0x81, 0x4f, 0xdc, 0x22, 0x2a, 0x90, 0x88, 0x46, 0xee, 0xb8, 0x14, 0xde, 0x5e, 0x0b, 0xdb))
  {
  }

  lemma {:induction false} RowA()
    ensures RowGives(0xa0, Row(0xe0, 0x32, 0x3a, 0x0a, 0x49, 0x06, 0x24, 0x5c, 0xc2, 0xd3, 0xac, 0x62, 0x91, 0x95, 0xe4, 0x79))
  {
  }

  lemma {:induction false} RowB()
    ensures RowGives(0xb0, Row(0xe7, 0xc8, 0x37, 0x6d, 0x8d, 0xd5, 0x4e, 0xa9, 0x6c, 0x56, 0xf4, 0xea, 0x65, 0x7a, 0xae, 0x08))
  {
  }

  lemma {:induction false} RowC()
    ensures RowGives(0xc0, Row(0xba, 0x78, 0x25, 0x2e, 0x1c, 0xa6, 0xb4, 0xc6, 0xe8, 0xdd, 0x74, 0x1f, 0x4b, 0xbd, 0x8b, 0x8a))
  {
  }

  lemma {:induction false} RowD()
    ensures RowGives(0xd0, Row(0x70, 0x3e, 0xb5, 0x66, 0x48, 0x03, 0xf6, 0x0e, 0x61, 0x35, 0x57, 0xb9, 0x86, 0xc1, 0x1d, 0x9e))
  {
  }

  lemma {:induction false} RowE()
    ensures RowGives(0xe0, Row(0xe1, 0xf8, 0x98, 0x11, 0x69, 0xd9, 0x8e, 0x94, 0x9b, 0x1e, 0x87, 0xe9, 0xce, 0x55, 0x28, 0xdf))
  {
  }

  lemma {:induction false} RowF()
    ensures RowGives(0xf0, Row(0x8c, 0xa1, 0x89, 0x0d, 0xbf, 0xe6, 0x42, 0x68, 0x41, 0x99, 0x2d, 0x0f, 0xb0, 0x54, 0xbb, 0x16))
  {
  }

  lemma {:induction false} EveryRow(h: bv8)
    requires h & 0xf0 == 0
    ensures RowGives(h << 4, SboxRow(h))
  {
    hide RowGives;
    if h == 0x00 { Row0(); }
    if h == 0x01 { Row1(); }
    if h == 0x02 { Row2(); }
    if h == 0x03 { Row3(); }
    if h == 0x04 { Row4(); }
    if h == 0x05 { Row5(); }
    if h == 0x06 { Row6(); }
    if h == 0x07 { Row7(); }
    if h == 0x08 { Row8(); }
    if h == 0x09 { Row9(); }
    if h == 0x0a { RowA(); }
    if h == 0x0b { RowB(); }
    if h == 0x0c { RowC(); }
    if h == 0x0d { RowD(); }
    if h == 0x0e { RowE(); }
    if h == 0x0f { RowF(); }
  }

  lemma {:induction false} InRow(h: bv8, r: Row, n: bv8)
    requires RowGives(h, r) && n & 0xf0 == 0
    ensures Gives(h | n, At(r, n))
  {
    hide Gives;
  }

  lemma {:induction false} EveryEntry(x: bv8)
    ensures Gives(x, SboxBits(x))
  {
    hide RowGives, Gives, SboxRow, At;
    EveryRow(x >> 4);
    InRow((x >> 4) << 4, SboxRow(x >> 4), x & 0x0f);
    assert ((x >> 4) << 4) | (x & 0x0f) == x;
  }

  lemma {:induction false} ZeroEntry()
    ensures InvAffineBits(SboxBits(0)) == 0
  {
  }

  /** The S-box is that of FIPS 197, section 5.1.1: the affine map of the multiplicative inverse, zero being its own. */
  lemma {:induction false} SboxIsAffineOfInverse(x: Octet)
    ensures Sbox(x) == Affine(Inverse(x))
    ensures x == ZERO ==> Inverse(x) == ZERO
    ensures x != ZERO ==> Times(x, Inverse(x)) == ONE && forall y :: Times(x, y) == ONE <==> y == Inverse(x)
  {
    hide Times, SboxBits, AffineBits, InvAffineBits, ProductBits;
    AffineBack(SboxBits(x.bits));
    ZeroEntry();
    EveryEntry(x.bits);
    TimesIsBits(x.bits, Inverse(x).bits);
    if x != ZERO {
      forall y | Times(x, y) == ONE ensures y == Inverse(x) { OnlyInverse(x, y, Inverse(x)); }
    }
  }

  lemma {:induction false} OnlyInverse(x: Octet, y: Octet, z: Octet)
    requires Times(x, y) == ONE && Times(x, z) == ONE
    ensures y == z
  {
    hide Times;
    Associates(z, x, y);
    Commutes(z, x);
    Commutes(z, ONE);
    OneTimes(y);
    OneTimes(z);
  }
}
