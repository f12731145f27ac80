/** AES-256 in CBC mode: the decryption of src/crypto.rs against the encryption of FIPS 197 and NIST SP 800-38A. */
module Aes {
  import opened AesField
  import opened AesColumns
  import AesProduct

  // ---------------------------------------------------------------- the state

  /** Sixteen bytes, column after column (section 3.4 of FIPS 197). */
  type State = s: seq<Octet> | |s| == 16 witness seq(16, _ => ZERO)

  function XorBytes(s: State, k: State): State {
    seq(16, i requires 0 <= i < 16 => Xor(s[i], k[i]))
  }

  function SubBytes(s: State): State {
    seq(16, i requires 0 <= i < 16 => Sbox(s[i]))
  }

  function InvSubBytes(s: State): State {
    seq(16, i requires 0 <= i < 16 => InvSbox(s[i]))
  }

  /** Row `r` moves left by `r` columns (section 5.1.2 of FIPS 197). */
  function ShiftRows(s: State): State {
    [s[0], s[5], s[10], s[15], s[4], s[9], s[14], s[3], s[8], s[13], s[2], s[7], s[12], s[1], s[6], s[11]]
  }

  function InvShiftRows(s: State): State {
    [s[0], s[13], s[10], s[7], s[4], s[1], s[14], s[11], s[8], s[5], s[2], s[15], s[12], s[9], s[6], s[3]]
  }

  function ColumnAt(s: State, c: nat): Column
    requires c < 4
  {
    Column(s[4 * c], s[4 * c + 1], s[4 * c + 2], s[4 * c + 3])
  }

  function OfColumns(a: Column, b: Column, c: Column, d: Column): State {
    [a.s0, a.s1, a.s2, a.s3, b.s0, b.s1, b.s2, b.s3, c.s0, c.s1, c.s2, c.s3, d.s0, d.s1, d.s2, d.s3]
  }

  function MixColumns(s: State): State {
    OfColumns(MixColumn(ColumnAt(s, 0)), MixColumn(ColumnAt(s, 1)), MixColumn(ColumnAt(s, 2)), MixColumn(ColumnAt(s, 3)))
  }

  function InvMixColumns(s: State): State {
    OfColumns(InvMixColumn(ColumnAt(s, 0)), InvMixColumn(ColumnAt(s, 1)), InvMixColumn(ColumnAt(s, 2)), InvMixColumn(ColumnAt(s, 3)))
  }

  // ---------------------------------------------------------------- each step is undone

  lemma {:induction false} XorTwice(a: Octet, b: Octet)
    ensures Xor(Xor(a, b), b) == a
  {
  }

  lemma {:induction false} XorBytesTwice(s: State, k: State)
    ensures XorBytes(XorBytes(s, k), k) == s
  {
    hide Xor;
    forall i | 0 <= i < 16 ensures XorBytes(XorBytes(s, k), k)[i] == s[i] {
      XorTwice(s[i], k[i]);
    }
  }

  lemma {:induction false} SubBytesBack(s: State)
    ensures InvSubBytes(SubBytes(s)) == s
  {
    hide Sbox, InvSbox;
    forall i | 0 <= i < 16 ensures InvSubBytes(SubBytes(s))[i] == s[i] {
      InvSboxUndoesSbox(s[i]);
    }
  }

  lemma {:induction false} ShiftRowsBack(s: State)
    ensures InvShiftRows(ShiftRows(s)) == s
  {
  }

  lemma {:induction false} ColumnsOf(s: State)
    ensures OfColumns(ColumnAt(s, 0), ColumnAt(s, 1), ColumnAt(s, 2), ColumnAt(s, 3)) == s
  {
  }

  lemma {:induction false} ColumnsBack(a: Column, b: Column, c: Column, d: Column)
    ensures ColumnAt(OfColumns(a, b, c, d), 0) == a && ColumnAt(OfColumns(a, b, c, d), 1) == b
    ensures ColumnAt(OfColumns(a, b, c, d), 2) == c && ColumnAt(OfColumns(a, b, c, d), 3) == d
  {
  }

  lemma {:induction false} MixColumnsBack(s: State)
    ensures InvMixColumns(MixColumns(s)) == s
  {
    hide MixColumn, InvMixColumn, OfColumns, ColumnAt;
    ColumnsBack(MixColumn(ColumnAt(s, 0)), MixColumn(ColumnAt(s, 1)), MixColumn(ColumnAt(s, 2)), MixColumn(ColumnAt(s, 3)));
    InvMixUndoesMix(ColumnAt(s, 0));
    InvMixUndoesMix(ColumnAt(s, 1));
    InvMixUndoesMix(ColumnAt(s, 2));
    InvMixUndoesMix(ColumnAt(s, 3));
    ColumnsOf(s);
  }

  // ---------------------------------------------------------------- the key schedule

  /** A 32-bit word by its bytes, the most significant first. */
  datatype Word = Word(b0: Octet, b1: Octet, b2: Octet, b3: Octet)

  function XorWord(a: Word, b: Word): Word {
    Word(Xor(a.b0, b.b0), Xor(a.b1, b.b1), Xor(a.b2, b.b2), Xor(a.b3, b.b3))
  }

  function SubWord(w: Word): Word {
    Word(Sbox(w.b0), Sbox(w.b1), Sbox(w.b2), Sbox(w.b3))
  }

  function RotWord(w: Word): Word {
    Word(w.b1, w.b2, w.b3, w.b0)
  }

  const RCON: seq<Octet> := [Octet(0x01), Octet(0x02), Octet(0x04), Octet(0x08), Octet(0x10), Octet(0x20), Octet(0x40),
                             Octet(0x80), Octet(0x1b), Octet(0x36)]

  function RoundConstant(n: nat): Octet
    requires n < |RCON|
  {
    RCON[n]
  }

  /** A power of x. */
  function PowerOfX(n: nat): Octet {
    if n == 0 then Octet(0x01) else Xtime(PowerOfX(n - 1))
  }

  /** The round constants are the powers of x (section 5.2 of FIPS 197). */
  lemma {:induction false} RconArePowers(n: nat)
    requires n < |RCON|
    ensures RoundConstant(n) == PowerOfX(n)
  {
    if n > 0 {
      RconArePowers(n - 1);
      RconDoubles(n - 1);
    }
  }

  lemma {:induction false} RconDoubles(n: nat)
    requires n + 1 < |RCON|
    ensures RoundConstant(n + 1) == Xtime(RoundConstant(n))
  {
  }

  /** A 32-byte key. */
  type Key = k: seq<Octet> | |k| == 32 witness seq(32, _ => ZERO)

  /** What the word before contributes to word `i`. */
  function Turned(temp: Word, i: nat): Word
    requires 8 <= i < 60
  {
    if i % 8 == 0 then XorWord(SubWord(RotWord(temp)), Word(RoundConstant(i / 8 - 1), ZERO, ZERO, ZERO))
    else if i % 8 == 4 then SubWord(temp)
    else temp
  }

  /** Word `i` of the key schedule (section 5.2 of FIPS 197). */
  function KeyWord(key: Key, i: nat): Word
    requires i < 60
  {
    if i < 8 then Word(key[4 * i], key[4 * i + 1], key[4 * i + 2], key[4 * i + 3])
    else
      XorWord(KeyWord(key, i - 8), Turned(KeyWord(key, i - 1), i))
  }

  /** The sixty words of a key. */
  type Schedule = w: seq<Word> | |w| == 60 witness seq(60, _ => Word(ZERO, ZERO, ZERO, ZERO))

  function ScheduleOf(key: Key): Schedule {
    seq(60, i requires 0 <= i < 60 => KeyWord(key, i))
  }

  lemma {:induction false} NextKeyWord(key: Key, i: nat)
    requires i < 60
    ensures KeyWord(key, i) ==
      if i < 8 then Word(key[4 * i], key[4 * i + 1], key[4 * i + 2], key[4 * i + 3])
      else XorWord(KeyWord(key, i - 8), Turned(KeyWord(key, i - 1), i))
  {
  }

  /** `Aes256Key::new`. */
  method ExpandKey(key: Key) returns (w: Schedule)
    ensures w == ScheduleOf(key)
  {
    hide XorWord, SubWord, RotWord, KeyWord;
    var words := new Word[60](_ => Word(ZERO, ZERO, ZERO, ZERO));
    for i := 0 to 8
      invariant forall k :: 0 <= k < i ==> words[k] == KeyWord(key, k)
    {
      NextKeyWord(key, i);
      words[i] := Word(key[4 * i], key[4 * i + 1], key[4 * i + 2], key[4 * i + 3]);
    }
    for i := 8 to 60
      invariant forall k :: 0 <= k < i ==> words[k] == KeyWord(key, k)
    {
      NextKeyWord(key, i);
      var temp := words[i - 1];
      if i % 8 == 0 {
        temp := XorWord(SubWord(RotWord(temp)), Word(RoundConstant(i / 8 - 1), ZERO, ZERO, ZERO));
      } else if i % 8 == 4 {
        temp := SubWord(temp);
      }
      words[i] := XorWord(words[i - 8], temp);
    }
    w := words[..];
  }

  function ByteOf(w: Word, i: nat): Octet {
    if i == 0 then w.b0 else if i == 1 then w.b1 else if i == 2 then w.b2 else w.b3
  }

  /** The four words of a round as sixteen bytes. */
  function RoundKey(w: Schedule, round: nat): State
    requires round < 15
  {
    seq(16, i requires 0 <= i < 16 => ByteOf(w[4 * round + i / 4], i % 4))
  }

  // ---------------------------------------------------------------- enciphering a block

  /** The state after round `r` of the cipher (section 5.1 of FIPS 197). */
  function AfterRound(plain: State, w: Schedule, r: nat): State
    requires r < 14
    decreases |w|, r
  {
    if r == 0 then XorBytes(plain, RoundKey(w, 0))
    else XorBytes(MixColumns(ShiftRows(SubBytes(AfterRound(plain, w, r - 1)))), RoundKey(w, r))
  }

  /** The cipher on one block. */
  function EncryptBlock(plain: State, w: Schedule): State {
    XorBytes(ShiftRows(SubBytes(AfterRound(plain, w, 13))), RoundKey(w, 14))
  }

  // ---------------------------------------------------------------- deciphering a block

  /** The state once rounds 13 down to `r` have been undone. */
  function Undone(block: State, w: Schedule, r: nat): State
    requires 1 <= r <= 14
    decreases |w| - r
  {
    if r == 14 then XorBytes(block, RoundKey(w, 14))
    else InvMixColumns(XorBytes(InvSubBytes(InvShiftRows(Undone(block, w, r + 1))), RoundKey(w, r)))
  }

  /** What `aes256_decrypt_block` returns: the inverse cipher of section 5.3 of FIPS 197. */
  function DecryptBlock(block: State, w: Schedule): State {
    XorBytes(InvSubBytes(InvShiftRows(Undone(block, w, 1))), RoundKey(w, 0))
  }

  lemma {:induction false} UndoneStep(plain: State, w: Schedule, r: nat)
    requires 1 <= r <= 14
    ensures Undone(EncryptBlock(plain, w), w, r) == ShiftRows(SubBytes(AfterRound(plain, w, r - 1)))
    decreases 14 - r
  {
    hide XorBytes, MixColumns, InvMixColumns, ShiftRows, InvShiftRows, SubBytes, InvSubBytes, RoundKey;
    if r == 14 {
      XorBytesTwice(ShiftRows(SubBytes(AfterRound(plain, w, 13))), RoundKey(w, 14));
    } else {
      UndoneStep(plain, w, r + 1);
      var before := ShiftRows(SubBytes(AfterRound(plain, w, r - 1)));
      ShiftRowsBack(SubBytes(AfterRound(plain, w, r)));
      SubBytesBack(AfterRound(plain, w, r));
      XorBytesTwice(MixColumns(before), RoundKey(w, r));
      MixColumnsBack(before);
    }
  }

  /** Deciphering a block undoes enciphering it, under any key schedule. */
  lemma {:induction false} DecryptUndoesEncrypt(plain: State, w: Schedule)
    ensures DecryptBlock(EncryptBlock(plain, w), w) == plain
  {
    hide XorBytes, MixColumns, InvMixColumns, ShiftRows, InvShiftRows, SubBytes, InvSubBytes, RoundKey, EncryptBlock, Undone;
    UndoneStep(plain, w, 1);
    ShiftRowsBack(SubBytes(AfterRound(plain, w, 0)));
    SubBytesBack(AfterRound(plain, w, 0));
    XorBytesTwice(plain, RoundKey(w, 0));
  }

  // ---------------------------------------------------------------- the steps, in place

  /** Four bytes of `add_round_key`. */
  method AddWord(state: array<Octet>, rk: Word, i: nat)
    requires state.Length == 16 && i < 4
    modifies state
    ensures forall k :: 0 <= k < 16 ==> state[k] == if k / 4 == i then Xor(old(state[k]), ByteOf(rk, k % 4)) else old(state[k])
  {
    hide Xor;
    state[4 * i] := Xor(state[4 * i], rk.b0);
    state[4 * i + 1] := Xor(state[4 * i + 1], rk.b1);
    state[4 * i + 2] := Xor(state[4 * i + 2], rk.b2);
    state[4 * i + 3] := Xor(state[4 * i + 3], rk.b3);
  }

  method AddRoundKey(state: array<Octet>, w: Schedule, round: nat)
    requires state.Length == 16 && round < 15
    modifies state
    ensures state[..] == XorBytes(old(state[..]), RoundKey(w, round))
  {
    hide Xor, ByteOf;
    ghost var before := state[..];
    for i := 0 to 4
      invariant forall k :: 0 <= k < 16 ==> state[k] == if k / 4 < i then Xor(before[k], ByteOf(w[4 * round + k / 4], k % 4)) else before[k]
    {
      AddWord(state, w[round * 4 + i], i);
    }
  }

  /** Row 1 moves right by one. */
  method UnshiftRow1(state: array<Octet>)
    requires state.Length == 16
    modifies state
    ensures state[1] == old(state[13]) && state[5] == old(state[1]) && state[9] == old(state[5]) && state[13] == old(state[9])
    ensures forall k :: 0 <= k < 16 && k % 4 != 1 ==> state[k] == old(state[k])
  {
    var temp := state[13];
    state[13] := state[9];
    state[9] := state[5];
    state[5] := state[1];
    state[1] := temp;
  }

  /** Row 2 moves right by two. */
  method UnshiftRow2(state: array<Octet>)
    requires state.Length == 16
    modifies state
    ensures state[2] == old(state[10]) && state[6] == old(state[14]) && state[10] == old(state[2]) && state[14] == old(state[6])
    ensures forall k :: 0 <= k < 16 && k % 4 != 2 ==> state[k] == old(state[k])
  {
    state[2], state[10] := state[10], state[2];
    state[6], state[14] := state[14], state[6];
  }

  /** Row 3 moves right by three. */
  method UnshiftRow3(state: array<Octet>)
    requires state.Length == 16
    modifies state
    ensures state[3] == old(state[7]) && state[7] == old(state[11]) && state[11] == old(state[15]) && state[15] == old(state[3])
    ensures forall k :: 0 <= k < 16 && k % 4 != 3 ==> state[k] == old(state[k])
  {
    var temp := state[3];
    state[3] := state[7];
    state[7] := state[11];
    state[11] := state[15];
    state[15] := temp;
  }

  /** `inv_shift_rows`. */
  method UnshiftRows(state: array<Octet>)
    requires state.Length == 16
    modifies state
    ensures state[..] == InvShiftRows(old(state[..]))
  {
    UnshiftRow1(state);
    UnshiftRow2(state);
    UnshiftRow3(state);
  }

  method UnsubBytes(state: array<Octet>)
    requires state.Length == 16
    modifies state
    ensures state[..] == InvSubBytes(old(state[..]))
  {
    hide InvSbox;
    ghost var before := state[..];
    for i := 0 to 16
      invariant forall k :: 0 <= k < i ==> state[k] == InvSbox(before[k])
      invariant forall k :: i <= k < 16 ==> state[k] == before[k]
    {
      state[i] := InvSbox(state[i]);
    }
  }

  /** One column of `inv_mix_columns`. */
  method UnmixColumn(c: Column) returns (r: Column)
    ensures r == InvMixColumn(c)
  {
    hide Xor4, ByE, ByB, ByD, By9, Times;
    var e0 := Gmul(Octet(0x0e), c.s0);
    var e1 := Gmul(Octet(0x0b), c.s1);
    var e2 := Gmul(Octet(0x0d), c.s2);
    var e3 := Gmul(Octet(0x09), c.s3);
    var f0 := Gmul(Octet(0x09), c.s0);
    var f1 := Gmul(Octet(0x0e), c.s1);
    var f2 := Gmul(Octet(0x0b), c.s2);
    var f3 := Gmul(Octet(0x0d), c.s3);
    var g0 := Gmul(Octet(0x0d), c.s0);
    var g1 := Gmul(Octet(0x09), c.s1);
    var g2 := Gmul(Octet(0x0e), c.s2);
    var g3 := Gmul(Octet(0x0b), c.s3);
    var h0 := Gmul(Octet(0x0b), c.s0);
    var h1 := Gmul(Octet(0x0d), c.s1);
    var h2 := Gmul(Octet(0x09), c.s2);
    var h3 := Gmul(Octet(0x0e), c.s3);
    Constants(c.s0);
    Constants(c.s1);
    Constants(c.s2);
    Constants(c.s3);
    Rotate(f0, f1, f2, f3);
    Rotate(g0, g1, g2, g3);
    Rotate(g1, g2, g3, g0);
    Rotate(h3, h0, h1, h2);
    r := Column(Xor4(e0, e1, e2, e3), Xor4(f0, f1, f2, f3), Xor4(g0, g1, g2, g3), Xor4(h0, h1, h2, h3));
  }

  lemma {:induction false} Constants(b: Octet)
    ensures Times(Octet(0x0e), b) == ByE(b) && Times(Octet(0x0b), b) == ByB(b)
    ensures Times(Octet(0x0d), b) == ByD(b) && Times(Octet(0x09), b) == By9(b)
  {
    hide Times, ByE, ByB, ByD, By9;
    AesProduct.TimesE(b);
    AesProduct.TimesB(b);
    AesProduct.TimesD(b);
    AesProduct.Times9(b);
  }

  method UnmixColumns(state: array<Octet>)
    requires state.Length == 16
    modifies state
    ensures state[..] == InvMixColumns(old(state[..]))
  {
    hide InvMixColumn;
    ghost var before := state[..];
    for c := 0 to 4
      invariant forall k :: 0 <= k < c ==> ColumnAt(state[..], k) == InvMixColumn(ColumnAt(before, k))
      invariant forall k :: 4 * c <= k < 16 ==> state[k] == before[k]
    {
      var column := UnmixColumn(Column(state[4 * c], state[4 * c + 1], state[4 * c + 2], state[4 * c + 3]));
      state[4 * c] := column.s0;
      state[4 * c + 1] := column.s1;
      state[4 * c + 2] := column.s2;
      state[4 * c + 3] := column.s3;
    }
    ColumnsOf(state[..]);
  }

  /** `aes256_decrypt_block`. */
  method Decrypt(block: State, w: Schedule) returns (plain: State)
    ensures plain == DecryptBlock(block, w)
  {
    hide XorBytes, InvMixColumns, InvShiftRows, InvSubBytes, RoundKey;
    var state := new Octet[16](i requires 0 <= i < 16 => block[i]);
    assert state[..] == block;
    AddRoundKey(state, w, 14);
    for round := 14 downto 1
      invariant state[..] == Undone(block, w, round)
    {
      UnshiftRows(state);
      UnsubBytes(state);
      AddRoundKey(state, w, round);
      UnmixColumns(state);
    }
    UnshiftRows(state);
    UnsubBytes(state);
    AddRoundKey(state, w, 0);
    plain := state[..];
  }

  // ---------------------------------------------------------------- cipher block chaining

  type BlockFunction = State -> State

  /** Encryption in CBC mode (section 6.2 of NIST SP 800-38A): each block is added to the cipher block before it. */
  function CbcEncrypt(plain: seq<Octet>, encrypt: BlockFunction, iv: State): (cipher: seq<Octet>)
    requires |plain| % 16 == 0
    ensures |cipher| == |plain|
  {
    if plain == [] then [] else
      var block := encrypt(XorBytes(plain[..16], iv));
      block + CbcEncrypt(plain[16..], encrypt, block)
  }

  /** Decryption in CBC mode; bytes behind the last whole block are ignored. */
  function CbcDecrypt(cipher: seq<Octet>, decrypt: BlockFunction, prev: State): (plain: seq<Octet>)
    ensures |plain| == |cipher| / 16 * 16
  {
    if |cipher| < 16 then [] else
      XorBytes(decrypt(cipher[..16]), prev) + CbcDecrypt(cipher[16..], decrypt, cipher[..16])
  }

  lemma {:induction false} CbcUndone(plain: seq<Octet>, encrypt: BlockFunction, decrypt: BlockFunction, iv: State)
    requires |plain| % 16 == 0 && forall s: State :: decrypt(encrypt(s)) == s
    ensures CbcDecrypt(CbcEncrypt(plain, encrypt, iv), decrypt, iv) == plain
  {
    hide XorBytes;
    if plain != [] {
      var block := encrypt(XorBytes(plain[..16], iv));
      var cipher := CbcEncrypt(plain, encrypt, iv);
      assert cipher[..16] == block && cipher[16..] == CbcEncrypt(plain[16..], encrypt, block);
      XorBytesTwice(plain[..16], iv);
      CbcUndone(plain[16..], encrypt, decrypt, block);
      assert plain == plain[..16] + plain[16..];
    }
  }

  /** Each cipher block is the one before it, or the initial value, added to its plain block and enciphered (section 6.2). */
  lemma {:induction false} CbcBlock(plain: seq<Octet>, encrypt: BlockFunction, iv: State, n: nat)
    requires |plain| % 16 == 0 && 16 * n + 16 <= |plain|
    ensures CbcEncrypt(plain, encrypt, iv)[16 * n..16 * n + 16]
         == encrypt(XorBytes(plain[16 * n..16 * n + 16], if n == 0 then iv else CbcEncrypt(plain, encrypt, iv)[16 * n - 16..16 * n]))
  {
    hide XorBytes, CbcEncrypt;
    var block := encrypt(XorBytes(plain[..16], iv));
    var cipher, rest := CbcEncrypt(plain, encrypt, iv), CbcEncrypt(plain[16..], encrypt, block);
    FirstBlock(plain, encrypt, iv);
    if n > 0 {
      var at := 16 * (n - 1);
      CbcBlock(plain[16..], encrypt, block, n - 1);
      SliceBehind(plain, plain[16..], at);
      SliceBehind(cipher, rest, at);
      if n > 1 { SliceBehind(cipher, rest, at - 16); }
    }
  }

  lemma {:induction false} FirstBlock(plain: seq<Octet>, encrypt: BlockFunction, iv: State)
    requires |plain| % 16 == 0 && plain != []
    ensures var block, cipher := encrypt(XorBytes(plain[..16], iv)), CbcEncrypt(plain, encrypt, iv);
      cipher[..16] == block && cipher[16..] == CbcEncrypt(plain[16..], encrypt, block)
  {
    hide XorBytes;
  }

  lemma {:induction false} SliceBehind(s: seq<Octet>, rest: seq<Octet>, at: nat)
    requires 16 <= |s| && s[16..] == rest && at + 16 <= |rest|
    ensures rest[at..at + 16] == s[at + 16..at + 32]
  {
  }

  /** AES-256 under a key. */
  function Encryption(key: Key): BlockFunction {
    (s: State) => EncryptBlock(s, ScheduleOf(key))
  }

  function Decryption(key: Key): BlockFunction {
    (s: State) => DecryptBlock(s, ScheduleOf(key))
  }

  /** `aes256_cbc_decrypt`. */
  method CbcDecryptBytes(cipher: seq<Octet>, key: Key, iv: State) returns (plain: seq<Octet>)
    ensures plain == CbcDecrypt(cipher, Decryption(key), iv)
  {
    hide XorBytes, DecryptBlock, ScheduleOf;
    var w := ExpandKey(key);
    plain := [];
    var prev: State, at: nat := iv, 0;
    assert cipher[0..] == cipher;
    while at + 16 <= |cipher|
      invariant at <= |cipher| && plain + CbcDecrypt(cipher[at..], Decryption(key), prev) == CbcDecrypt(cipher, Decryption(key), iv)
    {
      var block := cipher[at..at + 16];
      assert cipher[at..][..16] == block && cipher[at..][16..] == cipher[at + 16..];
      var decrypted := Decrypt(block, w);
      var xored := XorBytes(decrypted, prev);
      ghost var rest := CbcDecrypt(cipher[at + 16..], Decryption(key), block);
      assert plain + (xored + rest) == plain + xored + rest;
      plain := plain + xored;
      prev := block;
      at := at + 16;
    }
    assert CbcDecrypt(cipher[at..], Decryption(key), prev) == [];
  }

  /** For every key, initialisation vector and any number of whole blocks, decryption recovers what was enciphered. */
  lemma {:induction false} CbcRoundTrip(plain: seq<Octet>, key: Key, iv: State)
    requires |plain| % 16 == 0
    ensures CbcDecrypt(CbcEncrypt(plain, Encryption(key), iv), Decryption(key), iv) == plain
  {
    hide EncryptBlock, DecryptBlock, ScheduleOf;
    forall s: State ensures Decryption(key)(Encryption(key)(s)) == s {
      DecryptUndoesEncrypt(s, ScheduleOf(key));
    }
    CbcUndone(plain, Encryption(key), Decryption(key), iv);
  }
}
