/** AES-256 byte by byte, as section 5 of FIPS 197 writes it down: no words, no rounds on whole states. The cipher and its inverse
    share their steps, so undoing one by the other does not say which steps they are; this does. */
module AesBytes {
  import opened AesField
  import opened AesColumns
  import AesProduct
  import opened Aes

  // ---------------------------------------------------------------- the expanded key

  /** The byte that the one before it in its word's column contributes to byte `n` of the expanded key. */
  function Fed(key: Key, n: nat): Octet
    requires 32 <= n < 240
    decreases n, 0
  {
    var word := n / 4;
    if word % 8 == 0 then
      var fed := Sbox(Expanded(key, 4 * (word - 1) + (n + 1) % 4));
      if n % 4 == 0 then Xor(fed, PowerOfX(word / 8 - 1)) else fed
    else if word % 8 == 4 then Sbox(Expanded(key, n - 4))
    else Expanded(key, n - 4)
  }

  /** Byte `n` of the expanded key (section 5.2). */
  function Expanded(key: Key, n: nat): Octet
    requires n < 240
    decreases n, 1
  {
    if n < 32 then key[n] else Xor(Expanded(key, n - 32), Fed(key, n))
  }

  ghost predicate WordExpanded(key: Key, i: nat)
    requires i < 60
  {
    KeyWord(key, i) == Word(Expanded(key, 4 * i), Expanded(key, 4 * i + 1), Expanded(key, 4 * i + 2), Expanded(key, 4 * i + 3))
  }

  lemma {:induction false} TurnedIsFed(key: Key, i: nat)
    requires 8 <= i < 60 && WordExpanded(key, i - 1)
    ensures Turned(KeyWord(key, i - 1), i) == Word(Fed(key, 4 * i), Fed(key, 4 * i + 1), Fed(key, 4 * i + 2), Fed(key, 4 * i + 3))
  {
    hide Xor, Sbox, KeyWord, Expanded, RoundConstant, PowerOfX;
    if i % 8 == 0 {
      RconArePowers(i / 8 - 1);
      AddZero(Sbox(KeyWord(key, i - 1).b2));
      AddZero(Sbox(KeyWord(key, i - 1).b3));
      AddZero(Sbox(KeyWord(key, i - 1).b0));
    }
  }

  lemma {:induction false} KeyExpanded(key: Key, i: nat)
    requires i < 60
    ensures WordExpanded(key, i)
  {
    hide Xor, Turned, Fed;
    if i >= 8 {
      KeyExpanded(key, i - 8);
      KeyExpanded(key, i - 1);
      TurnedIsFed(key, i);
    }
  }

  /** The round keys are the expanded key, sixteen bytes a round. */
  lemma {:induction false} RoundKeyByBytes(key: Key, round: nat, j: nat)
    requires round < 15 && j < 16
    ensures RoundKey(ScheduleOf(key), round)[j] == Expanded(key, 16 * round + j)
  {
    hide KeyWord, Expanded;
    KeyExpanded(key, 4 * round + j / 4);
  }

  // ---------------------------------------------------------------- rows and columns

  /** Where the byte in row `r` of column `c` comes from: `r` columns further right, and round. */
  function Source(c: nat, r: nat): (j: nat)
    requires c < 4 && r < 4
    ensures j < 16
  {
    4 * (if c + r < 4 then c + r else c + r - 4) + r
  }

  /** Row `r` moves left by `r` columns. */
  lemma {:induction false} RowsMove(s: State, r: nat, c: nat)
    requires r < 4 && c < 4
    ensures ShiftRows(s)[4 * c + r] == s[Source(c, r)]
  {
    if c == 0 { RowOf(s, 0, r); } else if c == 1 { RowOf(s, 1, r); } else if c == 2 { RowOf(s, 2, r); } else { RowOf(s, 3, r); }
  }

  lemma {:induction false} RowOf(s: State, c: nat, r: nat)
    requires r < 4 && (c == 0 || c == 1 || c == 2 || c == 3)
    ensures ShiftRows(s)[4 * c + r] == s[Source(c, r)]
  {
    if r == 0 { } else if r == 1 { } else if r == 2 { } else { }
  }

  /** And back. */
  lemma {:induction false} RowsMoveBack(s: State, r: nat, c: nat)
    requires r < 4 && c < 4
    ensures InvShiftRows(s)[Source(c, r)] == s[4 * c + r]
  {
    hide ShiftRows, InvShiftRows;
    RowsMove(InvShiftRows(s), r, c);
    ShiftRowsForth(s);
  }

  lemma {:induction false} ShiftRowsForth(s: State)
    ensures ShiftRows(InvShiftRows(s)) == s
  {
  }

  /** Column `c` is multiplied by the matrix of section 5.1.3. */
  lemma {:induction false} ColumnsMix(s: State, r: nat, c: nat)
    requires r < 4 && c < 4
    ensures MixColumns(s)[4 * c + r]
         == Xor4(Times(Octet(2), s[4 * c + r]), Times(Octet(3), s[4 * c + (r + 1) % 4]), s[4 * c + (r + 2) % 4], s[4 * c + (r + 3) % 4])
  {
    hide Xor, Times, Xtime, By3;
    AesProduct.TimesTwoThree(s[4 * c + r]);
    AesProduct.TimesTwoThree(s[4 * c + (r + 1) % 4]);
  }

  // ---------------------------------------------------------------- the rounds

  /** The byte that lands in row `r` of column `c` once rows have moved, through the substitution box. */
  function Moved(plain: State, key: Key, round: nat, c: nat, r: nat): Octet
    requires round < 14 && c < 4 && r < 4
    decreases round, 1
  {
    Sbox(Enciphered(plain, key, round, Source(c, r)))
  }

  /** Byte `j` of the state after `round` rounds (section 5.1). */
  function Enciphered(plain: State, key: Key, round: nat, j: nat): Octet
    requires round <= 14 && j < 16
    decreases round, 0
  {
    var k := Expanded(key, 16 * round + j);
    if round == 0 then Xor(plain[j], k)
    else
      var c, r := j / 4, j % 4;
      if round == 14 then Xor(Moved(plain, key, 13, c, r), k)
      else
        Xor(Xor4(Times(Octet(2), Moved(plain, key, round - 1, c, r)), Times(Octet(3), Moved(plain, key, round - 1, c, (r + 1) % 4)),
                 Moved(plain, key, round - 1, c, (r + 2) % 4), Moved(plain, key, round - 1, c, (r + 3) % 4)), k)
  }

  ghost predicate StateIs(s: State, plain: State, key: Key, round: nat)
    requires round <= 14
  {
    forall j :: 0 <= j < 16 ==> s[j] == Enciphered(plain, key, round, j)
  }

  lemma {:induction false} MovedByBytes(s: State, plain: State, key: Key, round: nat, c: nat, r: nat)
    requires round < 14 && r < 4 && c < 4 && StateIs(s, plain, key, round)
    ensures ShiftRows(SubBytes(s))[4 * c + r] == Moved(plain, key, round, c, r)
  {
    hide Sbox, ShiftRows, Enciphered;
    RowsMove(SubBytes(s), r, c);
  }

  lemma {:induction false} RoundByBytes(plain: State, key: Key, round: nat)
    requires round < 14
    ensures StateIs(AfterRound(plain, ScheduleOf(key), round), plain, key, round)
  {
    hide Xor, Times, ShiftRows, SubBytes, MixColumns, RoundKey, ScheduleOf, Expanded, Moved;
    var w := ScheduleOf(key);
    if round > 0 {
      RoundByBytes(plain, key, round - 1);
      var before := AfterRound(plain, w, round - 1);
      forall j | 0 <= j < 16 ensures AfterRound(plain, w, round)[j] == Enciphered(plain, key, round, j) {
        var c, r := j / 4, j % 4;
        RoundKeyByBytes(key, round, j);
        ColumnsMix(ShiftRows(SubBytes(before)), r, c);
        MovedByBytes(before, plain, key, round - 1, c, r);
        MovedByBytes(before, plain, key, round - 1, c, (r + 1) % 4);
        MovedByBytes(before, plain, key, round - 1, c, (r + 2) % 4);
        MovedByBytes(before, plain, key, round - 1, c, (r + 3) % 4);
      }
    } else {
      forall j | 0 <= j < 16 ensures AfterRound(plain, w, 0)[j] == Enciphered(plain, key, 0, j) {
        RoundKeyByBytes(key, 0, j);
      }
    }
  }

  /** The cipher is the one of the standard, byte by byte. */
  lemma {:induction false} CipherByBytes(plain: State, key: Key, j: nat)
    requires j < 16
    ensures Encryption(key)(plain)[j] == Enciphered(plain, key, 14, j)
  {
    hide Xor, Times, ShiftRows, SubBytes, RoundKey, ScheduleOf, Expanded, Moved, AfterRound;
    RoundByBytes(plain, key, 13);
    RoundKeyByBytes(key, 14, j);
    MovedByBytes(AfterRound(plain, ScheduleOf(key), 13), plain, key, 13, j / 4, j % 4);
  }

  /** So a block is deciphered from its cipher bytes, whatever computes them. */
  lemma {:induction false} DeciphersBytes(plain: State, key: Key, cipher: State)
    requires forall j :: 0 <= j < 16 ==> cipher[j] == Enciphered(plain, key, 14, j)
    ensures Decryption(key)(cipher) == plain
  {
    hide EncryptBlock, DecryptBlock, ScheduleOf, Enciphered;
    forall j | 0 <= j < 16 ensures cipher[j] == Encryption(key)(plain)[j] {
      CipherByBytes(plain, key, j);
    }
    assert cipher == EncryptBlock(plain, ScheduleOf(key));
    DecryptUndoesEncrypt(plain, ScheduleOf(key));
  }
}
