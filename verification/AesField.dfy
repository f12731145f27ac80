/** The byte arithmetic and the substitution tables of AES (src/crypto.rs), against FIPS 197. */
module AesField {

  /** A byte, as an element of the field of section 4.2 of FIPS 197. */
  datatype Octet = Octet(bits: bv8)

  const ZERO: Octet := Octet(0)

  function Xor(a: Octet, b: Octet): Octet {
    Octet(a.bits ^ b.bits)
  }

  // ---------------------------------------------------------------- the substitution tables

  /** A row of sixteen entries. */
  datatype Row = Row(v0: bv8, v1: bv8, v2: bv8, v3: bv8, v4: bv8, v5: bv8, v6: bv8, v7: bv8,
                     v8: bv8, v9: bv8, v10: bv8, v11: bv8, v12: bv8, v13: bv8, v14: bv8, v15: bv8)

  function At(r: Row, n: bv8): bv8 {
    if n & 8 == 0 then
      if n & 4 == 0 then
        if n & 2 == 0 then (if n & 1 == 0 then r.v0 else r.v1) else (if n & 1 == 0 then r.v2 else r.v3)
      else
        if n & 2 == 0 then (if n & 1 == 0 then r.v4 else r.v5) else (if n & 1 == 0 then r.v6 else r.v7)
    else
      if n & 4 == 0 then
        if n & 2 == 0 then (if n & 1 == 0 then r.v8 else r.v9) else (if n & 1 == 0 then r.v10 else r.v11)
      else
        if n & 2 == 0 then (if n & 1 == 0 then r.v12 else r.v13) else (if n & 1 == 0 then r.v14 else r.v15)
  }

  /** `SBOX`, row by row: the row is the high half of the index. */
  function SboxRow(h: bv8): Row {
    if h & 8 == 0 then
      if h & 4 == 0 then
        if h & 2 == 0 then
          if h & 1 == 0 then
            Row(0x63, 0x7c, 0x77, 0x7b, 0xf2, 0x6b, 0x6f, 0xc5, 0x30, 0x01, 0x67, 0x2b, 0xfe, 0xd7, 0xab, 0x76)
          else
            Row(0xca, 0x82, 0xc9, 0x7d, 0xfa, 0x59, 0x47, 0xf0, 0xad, 0xd4, 0xa2, 0xaf, 0x9c, 0xa4, 0x72, 0xc0)
        else
          if h & 1 == 0 then
            Row(0xb7, 0xfd, 0x93, 0x26, 0x36, 0x3f, 0xf7, 0xcc, 0x34, 0xa5, 0xe5, 0xf1, 0x71, 0xd8, 0x31, 0x15)
          else
            Row(0x04, 0xc7, 0x23, 0xc3, 0x18, 0x96, 0x05, 0x9a, 0x07, 0x12, 0x80, 0xe2, 0xeb, 0x27, 0xb2, 0x75)
      else
        if h & 2 == 0 then
          if h & 1 == 0 then
            Row(0x09, 0x83, 0x2c, 0x1a, 0x1b, 0x6e, 0x5a, 0xa0, 0x52, 0x3b, 0xd6, 0xb3, 0x29, 0xe3, 0x2f, 0x84)
          else
            Row(0x53, 0xd1, 0x00, 0xed, 0x20, 0xfc, 0xb1, 0x5b, 0x6a, 0xcb, 0xbe, 0x39, 0x4a, 0x4c, 0x58, 0xcf)
        else
          if h & 1 == 0 then
            Row(0xd0, 0xef, 0xaa, 0xfb, 0x43, 0x4d, 0x33, 0x85, 0x45, 0xf9, 0x02, 0x7f, 0x50, 0x3c, 0x9f, 0xa8)
          else
            Row(0x51, 0xa3, 0x40, 0x8f, 0x92, 0x9d, 0x38, 0xf5, 0xbc, 0xb6, 0xda, 0x21, 0x10, 0xff, 0xf3, 0xd2)
    else
      if h & 4 == 0 then
        if h & 2 == 0 then
          if h & 1 == 0 then
            Row(0xcd, 0x0c, 0x13, 0xec, 0x5f, 0x97, 0x44, 0x17, 0xc4, 0xa7, 0x7e, 0x3d, 0x64, 0x5d, 0x19, 0x73)
          else
            Row(0x60, 0x81, 0x4f, 0xdc, 0x22, 0x2a, 0x90, 0x88, 0x46, 0xee, 0xb8, 0x14, 0xde, 0x5e, 0x0b, 0xdb)
        else
          if h & 1 == 0 then
            Row(0xe0, 0x32, 0x3a, 0x0a, 0x49, 0x06, 0x24, 0x5c, 0xc2, 0xd3, 0xac, 0x62, 0x91, 0x95, 0xe4, 0x79)
          else
            Row(0xe7, 0xc8, 0x37, 0x6d, 0x8d, 0xd5, 0x4e, 0xa9, 0x6c, 0x56, 0xf4, 0xea, 0x65, 0x7a, 0xae, 0x08)
      else
        if h & 2 == 0 then
          if h & 1 == 0 then
            Row(0xba, 0x78, 0x25, 0x2e, 0x1c, 0xa6, 0xb4, 0xc6, 0xe8, 0xdd, 0x74, 0x1f, 0x4b, 0xbd, 0x8b, 0x8a)
          else
            Row(0x70, 0x3e, 0xb5, 0x66, 0x48, 0x03, 0xf6, 0x0e, 0x61, 0x35, 0x57, 0xb9, 0x86, 0xc1, 0x1d, 0x9e)
        else
          if h & 1 == 0 then
            Row(0xe1, 0xf8, 0x98, 0x11, 0x69, 0xd9, 0x8e, 0x94, 0x9b, 0x1e, 0x87, 0xe9, 0xce, 0x55, 0x28, 0xdf)
          else
            Row(0x8c, 0xa1, 0x89, 0x0d, 0xbf, 0xe6, 0x42, 0x68, 0x41, 0x99, 0x2d, 0x0f, 0xb0, 0x54, 0xbb, 0x16)
  }

  /** `INV_SBOX`. */
  function InvSboxRow(h: bv8): Row {
    if h & 8 == 0 then
      if h & 4 == 0 then
        if h & 2 == 0 then
          if h & 1 == 0 then
            Row(0x52, 0x09, 0x6a, 0xd5, 0x30, 0x36, 0xa5, 0x38, 0xbf, 0x40, 0xa3, 0x9e, 0x81, 0xf3, 0xd7, 0xfb)
          else
            Row(0x7c, 0xe3, 0x39, 0x82, 0x9b, 0x2f, 0xff, 0x87, 0x34, 0x8e, 0x43, 0x44, 0xc4, 0xde, 0xe9, 0xcb)
        else
          if h & 1 == 0 then
            Row(0x54, 0x7b, 0x94, 0x32, 0xa6, 0xc2, 0x23, 0x3d, 0xee, 0x4c, 0x95, 0x0b, 0x42, 0xfa, 0xc3, 0x4e)
          else
            Row(0x08, 0x2e, 0xa1, 0x66, 0x28, 0xd9, 0x24, 0xb2, 0x76, 0x5b, 0xa2, 0x49, 0x6d, 0x8b, 0xd1, 0x25)
      else
        if h & 2 == 0 then
          if h & 1 == 0 then
            Row(0x72, 0xf8, 0xf6, 0x64, 0x86, 0x68, 0x98, 0x16, 0xd4, 0xa4, 0x5c, 0xcc, 0x5d, 0x65, 0xb6, 0x92)
          else
            Row(0x6c, 0x70, 0x48, 0x50, 0xfd, 0xed, 0xb9, 0xda, 0x5e, 0x15, 0x46, 0x57, 0xa7, 0x8d, 0x9d, 0x84)
        else
          if h & 1 == 0 then
            Row(0x90, 0xd8, 0xab, 0x00, 0x8c, 0xbc, 0xd3, 0x0a, 0xf7, 0xe4, 0x58, 0x05, 0xb8, 0xb3, 0x45, 0x06)
          else
            Row(0xd0, 0x2c, 0x1e, 0x8f, 0xca, 0x3f, 0x0f, 0x02, 0xc1, 0xaf, 0xbd, 0x03, 0x01, 0x13, 0x8a, 0x6b)
    else
      if h & 4 == 0 then
        if h & 2 == 0 then
          if h & 1 == 0 then
            Row(0x3a, 0x91, 0x11, 0x41, 0x4f, 0x67, 0xdc, 0xea, 0x97, 0xf2, 0xcf, 0xce, 0xf0, 0xb4, 0xe6, 0x73)
          else
            Row(0x96, 0xac, 0x74, 0x22, 0xe7, 0xad, 0x35, 0x85, 0xe2, 0xf9, 0x37, 0xe8, 0x1c, 0x75, 0xdf, 0x6e)
        else
          if h & 1 == 0 then
            Row(0x47, 0xf1, 0x1a, 0x71, 0x1d, 0x29, 0xc5, 0x89, 0x6f, 0xb7, 0x62, 0x0e, 0xaa, 0x18, 0xbe, 0x1b)
          else
            Row(0xfc, 0x56, 0x3e, 0x4b, 0xc6, 0xd2, 0x79, 0x20, 0x9a, 0xdb, 0xc0, 0xfe, 0x78, 0xcd, 0x5a, 0xf4)
      else
        if h & 2 == 0 then
          if h & 1 == 0 then
            Row(0x1f, 0xdd, 0xa8, 0x33, 0x88, 0x07, 0xc7, 0x31, 0xb1, 0x12, 0x10, 0x59, 0x27, 0x80, 0xec, 0x5f)
          else
            Row(0x60, 0x51, 0x7f, 0xa9, 0x19, 0xb5, 0x4a, 0x0d, 0x2d, 0xe5, 0x7a, 0x9f, 0x93, 0xc9, 0x9c, 0xef)
        else
          if h & 1 == 0 then
            Row(0xa0, 0xe0, 0x3b, 0x4d, 0xae, 0x2a, 0xf5, 0xb0, 0xc8, 0xeb, 0xbb, 0x3c, 0x83, 0x53, 0x99, 0x61)
          else
            Row(0x17, 0x2b, 0x04, 0x7e, 0xba, 0x77, 0xd6, 0x26, 0xe1, 0x69, 0x14, 0x63, 0x55, 0x21, 0x0c, 0x7d)
  }

  function SboxBits(x: bv8): bv8 {
    At(SboxRow(x >> 4), x & 0x0f)
  }

  function InvSboxBits(x: bv8): bv8 {
    At(InvSboxRow(x >> 4), x & 0x0f)
  }

  function Sbox(x: Octet): Octet {
    Octet(SboxBits(x.bits))
  }

  function InvSbox(x: Octet): Octet {
    Octet(InvSboxBits(x.bits))
  }

  // The second table undoes the first, a row at a time, and the first the second.

  lemma {:induction false} Undone00(x: bv8) requires x & 0xf8 == 0x00 ensures InvSboxBits(SboxBits(x)) == x { }
  lemma {:induction false} Undone08(x: bv8) requires x & 0xf8 == 0x08 ensures InvSboxBits(SboxBits(x)) == x { }
  lemma {:induction false} Undone1(x: bv8) requires x & 0xf0 == 0x10 ensures InvSboxBits(SboxBits(x)) == x { }
  lemma {:induction false} Undone2(x: bv8) requires x & 0xf0 == 0x20 ensures InvSboxBits(SboxBits(x)) == x { }
  lemma {:induction false} Undone3(x: bv8) requires x & 0xf0 == 0x30 ensures InvSboxBits(SboxBits(x)) == x { }
  lemma {:induction false} Undone4(x: bv8) requires x & 0xf0 == 0x40 ensures InvSboxBits(SboxBits(x)) == x { }
  lemma {:induction false} Undone5(x: bv8) requires x & 0xf0 == 0x50 ensures InvSboxBits(SboxBits(x)) == x { }
  lemma {:induction false} Undone6(x: bv8) requires x & 0xf0 == 0x60 ensures InvSboxBits(SboxBits(x)) == x { }
  lemma {:induction false} Undone7(x: bv8) requires x & 0xf0 == 0x70 ensures InvSboxBits(SboxBits(x)) == x { }
  lemma {:induction false} Undone8(x: bv8) requires x & 0xf0 == 0x80 ensures InvSboxBits(SboxBits(x)) == x { }
  lemma {:induction false} Undone9(x: bv8) requires x & 0xf0 == 0x90 ensures InvSboxBits(SboxBits(x)) == x { }
  lemma {:induction false} UndoneA(x: bv8) requires x & 0xf0 == 0xa0 ensures InvSboxBits(SboxBits(x)) == x { }
  lemma {:induction false} UndoneB(x: bv8) requires x & 0xf0 == 0xb0 ensures InvSboxBits(SboxBits(x)) == x { }
  lemma {:induction false} UndoneC(x: bv8) requires x & 0xf0 == 0xc0 ensures InvSboxBits(SboxBits(x)) == x { }
  lemma {:induction false} UndoneD(x: bv8) requires x & 0xf0 == 0xd0 ensures InvSboxBits(SboxBits(x)) == x { }
  lemma {:induction false} UndoneE(x: bv8) requires x & 0xf0 == 0xe0 ensures InvSboxBits(SboxBits(x)) == x { }
  lemma {:induction false} UndoneF(x: bv8) requires x & 0xf0 == 0xf0 ensures InvSboxBits(SboxBits(x)) == x { }

  lemma {:induction false} Redone0(x: bv8) requires x & 0xf0 == 0x00 ensures SboxBits(InvSboxBits(x)) == x { }
  lemma {:induction false} Redone1(x: bv8) requires x & 0xf0 == 0x10 ensures SboxBits(InvSboxBits(x)) == x { }
  lemma {:induction false} Redone2(x: bv8) requires x & 0xf0 == 0x20 ensures SboxBits(InvSboxBits(x)) == x { }
  lemma {:induction false} Redone3(x: bv8) requires x & 0xf0 == 0x30 ensures SboxBits(InvSboxBits(x)) == x { }
  lemma {:induction false} Redone4(x: bv8) requires x & 0xf0 == 0x40 ensures SboxBits(InvSboxBits(x)) == x { }
  lemma {:induction false} Redone5(x: bv8) requires x & 0xf0 == 0x50 ensures SboxBits(InvSboxBits(x)) == x { }
  lemma {:induction false} Redone6(x: bv8) requires x & 0xf0 == 0x60 ensures SboxBits(InvSboxBits(x)) == x { }
  lemma {:induction false} Redone7(x: bv8) requires x & 0xf0 == 0x70 ensures SboxBits(InvSboxBits(x)) == x { }
  lemma {:induction false} Redone8(x: bv8) requires x & 0xf0 == 0x80 ensures SboxBits(InvSboxBits(x)) == x { }
  lemma {:induction false} Redone9(x: bv8) requires x & 0xf0 == 0x90 ensures SboxBits(InvSboxBits(x)) == x { }
  lemma {:induction false} RedoneA(x: bv8) requires x & 0xf0 == 0xa0 ensures SboxBits(InvSboxBits(x)) == x { }
  lemma {:induction false} RedoneB(x: bv8) requires x & 0xf0 == 0xb0 ensures SboxBits(InvSboxBits(x)) == x { }
  lemma {:induction false} RedoneC(x: bv8) requires x & 0xf0 == 0xc0 ensures SboxBits(InvSboxBits(x)) == x { }
  lemma {:induction false} RedoneD(x: bv8) requires x & 0xf0 == 0xd0 ensures SboxBits(InvSboxBits(x)) == x { }
  lemma {:induction false} RedoneE(x: bv8) requires x & 0xf0 == 0xe0 ensures SboxBits(InvSboxBits(x)) == x { }
  lemma {:induction false} RedoneF(x: bv8) requires x & 0xf0 == 0xf0 ensures SboxBits(InvSboxBits(x)) == x { }

  lemma {:induction false} TablesInvert(x: bv8)
    ensures InvSboxBits(SboxBits(x)) == x
  {
    hide SboxBits, InvSboxBits;
    if x & 0xf8 == 0x00 { Undone00(x); }
    if x & 0xf8 == 0x08 { Undone08(x); }
    if x & 0xf0 == 0x10 { Undone1(x); }
    if x & 0xf0 == 0x20 { Undone2(x); }
    if x & 0xf0 == 0x30 { Undone3(x); }
    if x & 0xf0 == 0x40 { Undone4(x); }
    if x & 0xf0 == 0x50 { Undone5(x); }
    if x & 0xf0 == 0x60 { Undone6(x); }
    if x & 0xf0 == 0x70 { Undone7(x); }
    if x & 0xf0 == 0x80 { Undone8(x); }
    if x & 0xf0 == 0x90 { Undone9(x); }
    if x & 0xf0 == 0xa0 { UndoneA(x); }
    if x & 0xf0 == 0xb0 { UndoneB(x); }
    if x & 0xf0 == 0xc0 { UndoneC(x); }
    if x & 0xf0 == 0xd0 { UndoneD(x); }
    if x & 0xf0 == 0xe0 { UndoneE(x); }
    if x & 0xf0 == 0xf0 { UndoneF(x); }
  }

  lemma {:induction false} TablesInvertBack(x: bv8)
    ensures SboxBits(InvSboxBits(x)) == x
  {
    hide SboxBits, InvSboxBits;
    if x & 0xf0 == 0x00 { Redone0(x); }
    if x & 0xf0 == 0x10 { Redone1(x); }
    if x & 0xf0 == 0x20 { Redone2(x); }
    if x & 0xf0 == 0x30 { Redone3(x); }
    if x & 0xf0 == 0x40 { Redone4(x); }
    if x & 0xf0 == 0x50 { Redone5(x); }
    if x & 0xf0 == 0x60 { Redone6(x); }
    if x & 0xf0 == 0x70 { Redone7(x); }
    if x & 0xf0 == 0x80 { Redone8(x); }
    if x & 0xf0 == 0x90 { Redone9(x); }
    if x & 0xf0 == 0xa0 { RedoneA(x); }
    if x & 0xf0 == 0xb0 { RedoneB(x); }
    if x & 0xf0 == 0xc0 { RedoneC(x); }
    if x & 0xf0 == 0xd0 { RedoneD(x); }
    if x & 0xf0 == 0xe0 { RedoneE(x); }
    if x & 0xf0 == 0xf0 { RedoneF(x); }
  }

  lemma {:induction false} InvSboxUndoesSbox(x: Octet)
    ensures InvSbox(Sbox(x)) == x && Sbox(InvSbox(x)) == x
  {
    hide SboxBits, InvSboxBits;
    TablesInvert(x.bits);
    TablesInvertBack(x.bits);
  }

  // ---------------------------------------------------------------- the field

  /** Multiplication by x (section 4.2.1 of FIPS 197). */
  function Xtime(a: Octet): Octet {
    Octet((a.bits << 1) ^ (if a.bits & 0x80 != 0 then 0x1b else 0))
  }

  function Half(b: Octet): Octet {
    Octet(b.bits >> 1)
  }

  predicate Odd(b: Octet) {
    b.bits & 1 != 0
  }

  function Term(a: Octet, b: Octet): Octet {
    if Odd(b) then a else ZERO
  }

  /** `gmul` with `left` turns to go: for each bit of `b` from the lowest on, `a` times a power of x is added when the
      bit is set. */
  function TimesFrom(a: Octet, b: Octet, p: Octet, left: nat): Octet
    decreases left
  {
    if left == 0 then p else TimesFrom(Xtime(a), Half(b), Xor(p, Term(a, b)), left - 1)
  }

  /** The product in the field. */
  function Times(a: Octet, b: Octet): Octet {
    TimesFrom(a, b, ZERO, 8)
  }

  lemma {:induction false} AddZero(p: Octet)
    ensures Xor(p, ZERO) == p && Xor(ZERO, p) == p
  {
  }

  /** Doubling as the loop does it: shift, then reduce when the top bit was set. */
  method Double(a: Octet) returns (r: Octet)
    ensures r == Xtime(a)
  {
    var high := a.bits & 0x80 != 0;
    var bits := a.bits << 1;
    if high { bits := bits ^ 0x1b; }
    r := Octet(bits);
  }

  /** `gmul`. */
  method Gmul(a: Octet, b: Octet) returns (p: Octet)
    ensures p == Times(a, b)
  {
    hide Xtime, Half, Xor, Odd;
    var x, y := a, b;
    p := ZERO;
    for n := 0 to 8
      invariant Times(a, b) == TimesFrom(x, y, p, 8 - n)
    {
      AddZero(p);
      if Odd(y) { p := Xor(p, x); }
      x := Double(x);
      y := Half(y);
    }
  }

  // ---------------------------------------------------------------- the constants of the column mixes

  function Xor4(a: Octet, b: Octet, c: Octet, d: Octet): Octet {
    Xor(Xor(Xor(a, b), c), d)
  }

  function By3(b: Octet): Octet {
    Xor(Xtime(b), b)
  }

  function By9(b: Octet): Octet {
    Xor(Xtime(Xtime(Xtime(b))), b)
  }

  function ByB(b: Octet): Octet {
    Xor(Xor(Xtime(Xtime(Xtime(b))), Xtime(b)), b)
  }

  function ByD(b: Octet): Octet {
    Xor(Xor(Xtime(Xtime(Xtime(b))), Xtime(Xtime(b))), b)
  }

  function ByE(b: Octet): Octet {
    Xor(Xor(Xtime(Xtime(Xtime(b))), Xtime(Xtime(b))), Xtime(b))
  }

  lemma {:induction false} XtimeAdds(a: Octet, b: Octet)
    ensures Xtime(Xor(a, b)) == Xor(Xtime(a), Xtime(b)) && Xtime(ZERO) == ZERO
  {
  }
}
