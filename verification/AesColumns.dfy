/** `inv_mix_columns` (src/crypto.rs) undoes MixColumns of section 5.1.3 of FIPS 197. */
module AesColumns {
  import opened AesField

  // ---------------------------------------------------------------- sums

  lemma {:induction false} Rotate(a: Octet, b: Octet, c: Octet, d: Octet)
    ensures Xor4(a, b, c, d) == Xor4(b, c, d, a)
  {
  }

  lemma {:induction false} Pairs(a: Octet, b: Octet, c: Octet, d: Octet)
    ensures Xor(Xor(a, b), Xor(c, d)) == Xor(Xor(a, c), Xor(b, d))
  {
  }

  lemma {:induction false} Triples(a: Octet, b: Octet, c: Octet, d: Octet, e: Octet, f: Octet)
    ensures Xor(Xor(Xor(a, b), Xor(c, d)), Xor(e, f)) == Xor(Xor(Xor(a, c), e), Xor(Xor(b, d), f))
  {
    hide Xor;
    Pairs(a, b, c, d);
    Pairs(Xor(a, c), Xor(b, d), e, f);
  }

  lemma {:induction false} Fours(a0: Octet, a1: Octet, a2: Octet, a3: Octet, b0: Octet, b1: Octet, b2: Octet, b3: Octet)
    ensures Xor(Xor4(a0, a1, a2, a3), Xor4(b0, b1, b2, b3)) == Xor4(Xor(a0, b0), Xor(a1, b1), Xor(a2, b2), Xor(a3, b3))
  {
    hide Xor;
    Pairs(Xor(Xor(a0, a1), a2), a3, Xor(Xor(b0, b1), b2), b3);
    Pairs(Xor(a0, a1), a2, Xor(b0, b1), b2);
    Pairs(a0, a1, b0, b1);
  }

  lemma {:induction false} Transposed(a0: Octet, a1: Octet, a2: Octet, a3: Octet, b0: Octet, b1: Octet, b2: Octet, b3: Octet,
                                      c0: Octet, c1: Octet, c2: Octet, c3: Octet, d0: Octet, d1: Octet, d2: Octet, d3: Octet)
    ensures Xor4(Xor4(a0, a1, a2, a3), Xor4(b0, b1, b2, b3), Xor4(c0, c1, c2, c3), Xor4(d0, d1, d2, d3))
         == Xor4(Xor4(a0, b0, c0, d0), Xor4(a1, b1, c1, d1), Xor4(a2, b2, c2, d2), Xor4(a3, b3, c3, d3))
  {
    hide Xor;
    Fours(a0, a1, a2, a3, b0, b1, b2, b3);
    Fours(Xor(a0, b0), Xor(a1, b1), Xor(a2, b2), Xor(a3, b3), c0, c1, c2, c3);
    Fours(Xor(Xor(a0, b0), c0), Xor(Xor(a1, b1), c1), Xor(Xor(a2, b2), c2), Xor(Xor(a3, b3), c3), d0, d1, d2, d3);
  }

  // ---------------------------------------------------------------- the constants distribute

  lemma {:induction false} PowersAdd(x: Octet, y: Octet)
    ensures Xtime(Xor(x, y)) == Xor(Xtime(x), Xtime(y))
    ensures Xtime(Xtime(Xor(x, y))) == Xor(Xtime(Xtime(x)), Xtime(Xtime(y)))
    ensures Xtime(Xtime(Xtime(Xor(x, y)))) == Xor(Xtime(Xtime(Xtime(x))), Xtime(Xtime(Xtime(y))))
  {
    hide Xtime, Xor;
    XtimeAdds(x, y);
    XtimeAdds(Xtime(x), Xtime(y));
    XtimeAdds(Xtime(Xtime(x)), Xtime(Xtime(y)));
  }

  /** Each constant's product of a sum is the sum of the products. */
  lemma {:induction false} ConstantsAdd(x: Octet, y: Octet)
    ensures ByE(Xor(x, y)) == Xor(ByE(x), ByE(y)) && ByB(Xor(x, y)) == Xor(ByB(x), ByB(y))
    ensures ByD(Xor(x, y)) == Xor(ByD(x), ByD(y)) && By9(Xor(x, y)) == Xor(By9(x), By9(y))
  {
    hide Xtime, Xor;
    PowersAdd(x, y);
    var x1, y1 := Xtime(x), Xtime(y);
    var x2, y2 := Xtime(x1), Xtime(y1);
    var x3, y3 := Xtime(x2), Xtime(y2);
    Triples(x3, y3, x2, y2, x1, y1);
    Triples(x3, y3, x1, y1, x, y);
    Triples(x3, y3, x2, y2, x, y);
    Pairs(x3, y3, x, y);
  }

  lemma {:induction false} ConstantsAdd4(w: Octet, x: Octet, y: Octet, z: Octet)
    ensures ByE(Xor4(w, x, y, z)) == Xor4(ByE(w), ByE(x), ByE(y), ByE(z))
    ensures ByB(Xor4(w, x, y, z)) == Xor4(ByB(w), ByB(x), ByB(y), ByB(z))
    ensures ByD(Xor4(w, x, y, z)) == Xor4(ByD(w), ByD(x), ByD(y), ByD(z))
    ensures By9(Xor4(w, x, y, z)) == Xor4(By9(w), By9(x), By9(y), By9(z))
  {
    hide Xor, ByE, ByB, ByD, By9;
    ConstantsAdd(w, x);
    ConstantsAdd(Xor(w, x), y);
    ConstantsAdd(Xor(Xor(w, x), y), z);
  }

  // ---------------------------------------------------------------- what each byte of a column contributes

  // Sums of the powers of one byte, each written over four slots: x4, x3, x2, and what is left.

  lemma {:induction false} Slots(x4: Octet, x3: Octet, x2: Octet, y: Octet)
    ensures Xor(Xor(x4, x3), x2) == Xor4(x4, x3, x2, ZERO)
    ensures Xor(Xor(x3, x2), y) == Xor4(ZERO, x3, x2, y)
    ensures Xor(Xor(x4, x3), y) == Xor4(x4, x3, ZERO, y) && Xor(Xor(x4, x2), y) == Xor4(x4, ZERO, x2, y)
    ensures Xor(x4, y) == Xor4(x4, ZERO, ZERO, y) && Xor(x3, y) == Xor4(ZERO, x3, ZERO, y)
  {
    hide Xor;
    AddZero(x4);
    AddZero(x3);
    AddZero(Xor(x4, x3));
    AddZero(Xor(Xor(x4, x3), x2));
  }

  lemma {:induction false} Regrouped(a: Octet, b: Octet, c: Octet)
    ensures Xor(Xor(a, b), c) == Xor(a, Xor(b, c))
  {
  }

  lemma {:induction false} Same(a: Octet, b: Octet)
    ensures Xor(a, a) == ZERO && Xor(a, b) == Xor(b, a)
  {
  }

  lemma {:induction false} Twice(a: Octet, b: Octet)
    ensures Xor4(a, ZERO, ZERO, a) == ZERO && Xor4(a, a, a, a) == ZERO && Xor4(a, ZERO, a, ZERO) == ZERO
    ensures Xor4(a, a, ZERO, ZERO) == ZERO && Xor4(ZERO, ZERO, a, a) == ZERO && Xor4(ZERO, a, a, ZERO) == ZERO
    ensures Xor4(a, a, b, b) == ZERO && Xor4(a, b, a, b) == ZERO && Xor4(a, b, b, a) == ZERO
    ensures Xor4(ZERO, a, b, a) == b && Xor4(ZERO, ZERO, ZERO, b) == b
  {
    hide Xor;
    AddZero(a);
    AddZero(b);
    AddZero(ZERO);
    Same(a, b);
    Same(b, a);
    Same(Xor(a, b), a);
    Regrouped(Xor(a, b), a, b);
    Regrouped(a, b, b);
    Regrouped(b, a, a);
  }

  lemma {:induction false} FirstSum(x0: Octet, x1: Octet, x2: Octet, x3: Octet, x4: Octet)
    ensures Xor4(Xor(Xor(x4, x3), x2), Xor(Xor(x3, x1), x0), Xor(Xor(x3, x2), x0), Xor(Xor(x4, x1), Xor(x3, x0))) == x0
  {
    hide Xor, Xor4;
    var y := Xor(x1, x0);
    Slots(x4, x3, x2, x0);
    Regrouped(x3, x1, x0);
    Slots(x4, x3, x2, y);
    Pairs(x4, x1, x3, x0);
    Transposed(x4, x3, x2, ZERO, ZERO, x3, ZERO, y, ZERO, x3, x2, x0, x4, x3, ZERO, y);
    Twice(x4, y);
    Twice(x3, y);
    Twice(x2, y);
    Twice(y, x0);
    Twice(ZERO, x0);
  }

  lemma {:induction false} SecondSum(x0: Octet, x1: Octet, x2: Octet, x3: Octet, x4: Octet)
    ensures Xor4(Xor(Xor(Xor(x4, x3), x2), Xor(Xor(x3, x2), x1)), Xor(Xor(x4, x2), x1), Xor(Xor(x3, x2), x0), Xor(x3, x0)) == ZERO
  {
    hide Xor, Xor4;
    Shared(x4, x3, x2, x1);
    Slots(x4, x3, x2, x1);
    Slots(x4, x3, x2, x0);
    Transposed(x4, ZERO, ZERO, x1, x4, ZERO, x2, x1, ZERO, x3, x2, x0, ZERO, x3, ZERO, x0);
    Twice(x4, x4);
    Twice(x3, x3);
    Twice(x2, x2);
    Twice(x1, x0);
    Twice(ZERO, ZERO);
  }

  /** What two sums share cancels. */
  lemma {:induction false} Shared(a: Octet, b: Octet, c: Octet, d: Octet)
    ensures Xor(Xor(Xor(a, b), c), Xor(Xor(b, c), d)) == Xor(a, d)
  {
    hide Xor;
    Regrouped(a, b, c);
    Pairs(a, Xor(b, c), d, Xor(b, c));
    Regrouped(d, b, c);
    Same(Xor(b, c), d);
    AddZero(Xor(a, d));
  }

  lemma {:induction false} ThirdSum(x0: Octet, x1: Octet, x2: Octet, x3: Octet, x4: Octet)
    ensures Xor4(Xor(Xor(x3, x2), x1), Xor(Xor(Xor(x4, x2), x1), Xor(Xor(x3, x1), x0)), Xor(Xor(x4, x3), x1), Xor(x3, x0)) == ZERO
  {
    hide Xor, Xor4;
    Slots(x4, x3, x2, x1);
    Slots(x4, x3, x2, x0);
    ByBPair(x4, x3, x2, x1, x0);
    Transposed(ZERO, x3, x2, x1, x4, x3, x2, x0, x4, x3, ZERO, x1, ZERO, x3, ZERO, x0);
    Twice(x4, x4);
    Twice(x3, x3);
    Twice(x2, x2);
    Twice(x1, x0);
    Twice(ZERO, ZERO);
  }

  lemma {:induction false} ByBPair(x4: Octet, x3: Octet, x2: Octet, x1: Octet, x0: Octet)
    ensures Xor(Xor(Xor(x4, x2), x1), Xor(Xor(x3, x1), x0)) == Xor4(x4, x3, x2, x0)
  {
    hide Xor;
    var p := Xor(x4, x2);
    Regrouped(x3, x1, x0);
    Same(x1, x0);
    Regrouped(x3, x0, x1);
    Pairs(p, x1, Xor(x3, x0), x1);
    Same(x1, x1);
    AddZero(Xor(p, Xor(x3, x0)));
    Pairs(x4, x2, x3, x0);
    Regrouped(Xor(x4, x3), x2, x0);
  }

  lemma {:induction false} FourthSum(x0: Octet, x1: Octet, x2: Octet, x3: Octet, x4: Octet)
    ensures Xor4(Xor(Xor(x3, x2), x1), Xor(Xor(x3, x1), x0), Xor(Xor(Xor(x4, x3), x1), Xor(Xor(x3, x2), x0)), Xor(x4, x1)) == ZERO
  {
    hide Xor, Xor4;
    var y := Xor(x1, x0);
    Slots(x4, x3, x2, x1);
    Slots(x4, x3, x2, y);
    Regrouped(x3, x1, x0);
    ByDPair(x4, x3, x2, x1, x0);
    Transposed(ZERO, x3, x2, x1, ZERO, x3, ZERO, y, x4, ZERO, x2, y, x4, ZERO, ZERO, x1);
    Twice(x4, x4);
    Twice(x3, x3);
    Twice(x2, x2);
    Twice(x1, y);
    Twice(ZERO, ZERO);
  }

  lemma {:induction false} ByDPair(x4: Octet, x3: Octet, x2: Octet, x1: Octet, x0: Octet)
    ensures Xor(Xor(Xor(x4, x3), x1), Xor(Xor(x3, x2), x0)) == Xor4(x4, ZERO, x2, Xor(x1, x0))
  {
    hide Xor;
    Pairs(Xor(x4, x3), x1, Xor(x3, x2), x0);
    Same(x3, x2);
    Pairs(x4, x3, x2, x3);
    Same(x3, x3);
    AddZero(Xor(x4, x2));
    AddZero(x4);
  }

  /** Through MixColumns and back, a byte comes out in its own place and nowhere else. */
  lemma {:induction false} Contributions(s: Octet)
    ensures Xor4(ByE(Xtime(s)), ByB(s), ByD(s), By9(By3(s))) == s
    ensures Xor4(ByE(By3(s)), ByB(Xtime(s)), ByD(s), By9(s)) == ZERO
    ensures Xor4(ByE(s), ByB(By3(s)), ByD(Xtime(s)), By9(s)) == ZERO
    ensures Xor4(ByE(s), ByB(s), ByD(By3(s)), By9(Xtime(s))) == ZERO
  {
    hide Xtime, Xor;
    var x1 := Xtime(s);
    var x2 := Xtime(x1);
    var x3 := Xtime(x2);
    var x4 := Xtime(x3);
    ConstantsAdd(x1, s);
    FirstSum(s, x1, x2, x3, x4);
    SecondSum(s, x1, x2, x3, x4);
    ThirdSum(s, x1, x2, x3, x4);
    FourthSum(s, x1, x2, x3, x4);
  }

  // ---------------------------------------------------------------- columns

  datatype Column = Column(s0: Octet, s1: Octet, s2: Octet, s3: Octet)

  /** One byte of a mixed column: two times the first, three times the second, and the others. */
  function Mixed(a: Octet, b: Octet, c: Octet, d: Octet): Octet {
    Xor4(Xtime(a), By3(b), c, d)
  }

  /** MixColumns on one column. */
  function MixColumn(c: Column): Column {
    Column(Mixed(c.s0, c.s1, c.s2, c.s3), Mixed(c.s1, c.s2, c.s3, c.s0), Mixed(c.s2, c.s3, c.s0, c.s1), Mixed(c.s3, c.s0, c.s1, c.s2))
  }

  function Unmixed(a: Octet, b: Octet, c: Octet, d: Octet): Octet {
    Xor4(ByE(a), ByB(b), ByD(c), By9(d))
  }

  /** What `inv_mix_columns` makes of one column. */
  function InvMixColumn(c: Column): Column {
    Column(Unmixed(c.s0, c.s1, c.s2, c.s3), Unmixed(c.s1, c.s2, c.s3, c.s0), Unmixed(c.s2, c.s3, c.s0, c.s1), Unmixed(c.s3, c.s0, c.s1, c.s2))
  }

  lemma {:induction false} FourMixed(a: Octet, b: Octet, c: Octet, d: Octet)
    ensures Mixed(b, c, d, a) == Xor4(a, Xtime(b), By3(c), d)
    ensures Mixed(c, d, a, b) == Xor4(a, b, Xtime(c), By3(d))
    ensures Mixed(d, a, b, c) == Xor4(By3(a), b, c, Xtime(d))
  {
    hide Xtime, By3, Xor4;
    Rotate(a, Xtime(b), By3(c), d);
    Rotate(a, b, Xtime(c), By3(d));
    Rotate(b, Xtime(c), By3(d), a);
    Rotate(Xtime(d), By3(a), b, c);
  }

  lemma {:induction false} OnlyFirst(x: Octet)
    ensures Xor4(x, ZERO, ZERO, ZERO) == x
  {
  }

  lemma {:induction false} ByteComesBack(a: Octet, b: Octet, c: Octet, d: Octet)
    ensures Unmixed(Mixed(a, b, c, d), Mixed(b, c, d, a), Mixed(c, d, a, b), Mixed(d, a, b, c)) == a
  {
    hide Xtime, By3, Xor4, ByE, ByB, ByD, By9;
    FourMixed(a, b, c, d);
    ConstantsAdd4(Xtime(a), By3(b), c, d);
    ConstantsAdd4(a, Xtime(b), By3(c), d);
    ConstantsAdd4(a, b, Xtime(c), By3(d));
    ConstantsAdd4(By3(a), b, c, Xtime(d));
    Transposed(ByE(Xtime(a)), ByE(By3(b)), ByE(c), ByE(d), ByB(a), ByB(Xtime(b)), ByB(By3(c)), ByB(d),
               ByD(a), ByD(b), ByD(Xtime(c)), ByD(By3(d)), By9(By3(a)), By9(b), By9(c), By9(Xtime(d)));
    Contributions(a);
    Contributions(b);
    Contributions(c);
    Contributions(d);
    OnlyFirst(a);
  }

  lemma {:induction false} InvMixUndoesMix(c: Column)
    ensures InvMixColumn(MixColumn(c)) == c
  {
    hide Mixed, Unmixed;
    ByteComesBack(c.s0, c.s1, c.s2, c.s3);
    ByteComesBack(c.s1, c.s2, c.s3, c.s0);
    ByteComesBack(c.s2, c.s3, c.s0, c.s1);
    ByteComesBack(c.s3, c.s0, c.s1, c.s2);
  }
}
