/** The anonymiser of src/scramble.rs: text replaced byte for byte by letters, everything else kept. */
module Scramble {
  import opened Bytes
  import opened Options
  import opened BlockWalk

  // ---------------------------------------------------------------- the generator

  type State = s: nat | s < U64_LIMIT

  function Advance(s: State): State {
    (s + 0x9E37_79B9_7F4A_7C15) % U64_LIMIT
  }

  /** SplitMix64's output for a state, in 64-bit arithmetic. */
  function MixBits(z0: bv64): bv64 {
    var z1 := (z0 ^ (z0 >> 30)) * 0xBF58_476D_1CE4_E5B9;
    var z2 := (z1 ^ (z1 >> 27)) * 0x94D0_49BB_1331_11EB;
    z2 ^ (z2 >> 31)
  }

  function Mix(s: State): nat {
    MixBits(s as bv64) as nat
  }

  function LetterOf(s: State): (b: byte)
    ensures 65 <= b <= 90
  {
    65 + Mix(s) % 26
  }

  /** The generator's first two states from zero, and the numbers published for them. */
  lemma {:induction false} FirstNumbers()
    ensures StateAfter(0, 1) == 0x9E37_79B9_7F4A_7C15 && MixBits(0x9E37_79B9_7F4A_7C15) == 0xE220_A839_7B1D_CDAF
    ensures StateAfter(0, 2) == 0x3C6E_F372_FE94_F82A && MixBits(0x3C6E_F372_FE94_F82A) == 0x6E78_9E6A_A1B9_65F4
  {
    assert StateAfter(0, 0) == 0;
  }

  function StateAfter(s: State, draws: nat): State {
    if draws == 0 then s else Advance(StateAfter(s, draws - 1))
  }

  lemma {:induction false} StatesAdd(s: State, a: nat, b: nat)
    ensures StateAfter(StateAfter(s, a), b) == StateAfter(s, a + b)
  {
    hide Advance;
    if b != 0 { StatesAdd(s, a, b - 1); }
  }

  class Rng {
    var state: State

    constructor (seed: State)
      ensures state == seed
    {
      state := seed;
    }

    method Letter() returns (b: byte)
      modifies this
      ensures state == Advance(old(state)) && b == LetterOf(state)
    {
      state := Advance(state);
      b := LetterOf(state);
    }
  }

  // ---------------------------------------------------------------- one block's text

  /** A ##TX block is text throughout; a ##MD block is text between tags. */
  datatype Style = Text | Markup

  const OPEN: byte := 60
  const CLOSE: byte := 62

  predicate IsSpace(b: byte) {
    b == 9 || b == 10 || b == 12 || b == 13 || b == 32
  }

  /** Where the terminator is, or the end. */
  function TextEnd(d: seq<byte>): (n: nat)
    ensures n <= |d|
    ensures forall i :: 0 <= i < n ==> d[i] != 0
    ensures n < |d| ==> d[n] == 0
  {
    if d == [] || d[0] == 0 then 0 else 1 + TextEnd(d[1..])
  }

  /** The last angle bracket before byte `i` opens a tag. */
  predicate InTag(d: seq<byte>, i: nat)
    requires i <= |d|
  {
    i != 0 && (d[i - 1] == OPEN || (d[i - 1] != CLOSE && InTag(d, i - 1)))
  }

  /** A byte a tag, a terminator or the layout is not made of. */
  predicate Content(style: Style, b: byte) {
    b != 0 && (style.Markup? ==> b != OPEN && b != CLOSE && !IsSpace(b))
  }

  /** Byte `i` of a data section is replaced. */
  predicate Replaced(style: Style, d: seq<byte>, i: nat)
    requires i < |d|
  {
    i < TextEnd(d) && Content(style, d[i]) && (style.Markup? ==> !InTag(d, i))
  }

  /** How many of the first `i` bytes are replaced. */
  function Count(style: Style, d: seq<byte>, i: nat): nat
    requires i <= |d|
  {
    if i == 0 then 0 else Count(style, d, i - 1) + if Replaced(style, d, i - 1) then 1 else 0
  }

  /** A data section with every replaced byte the next letter drawn. */
  function Randomised(style: Style, d: seq<byte>, s: State): (out: seq<byte>)
    ensures |out| == |d|
  {
    seq(|d|, i requires 0 <= i < |d| => RandomisedByte(style, d, s, i))
  }

  function RandomisedByte(style: Style, d: seq<byte>, s: State, i: nat): byte
    requires i < |d|
  {
    if Replaced(style, d, i) then LetterOf(StateAfter(s, Count(style, d, i) + 1)) else d[i]
  }

  lemma {:induction false} NothingPastEnd(style: Style, d: seq<byte>, i: nat)
    requires TextEnd(d) <= i <= |d|
    ensures Count(style, d, i) == Count(style, d, TextEnd(d))
    decreases i
  {
    if i > TextEnd(d) { NothingPastEnd(style, d, i - 1); }
  }

  /** Where the loops stand after `i` bytes. */
  ghost predicate ScrambledTo(style: Style, d: seq<byte>, s: State, out: seq<byte>, i: nat) {
    && i <= |d| == |out|
    && (forall k :: 0 <= k < i ==> out[k] == RandomisedByte(style, d, s, k))
    && (forall k :: i <= k < |d| ==> out[k] == d[k])
  }

  lemma {:induction false} ScrambledOne(style: Style, d: seq<byte>, s: State, out: seq<byte>, i: nat, b: byte)
    requires ScrambledTo(style, d, s, out, i) && i < |d|
    requires b == RandomisedByte(style, d, s, i)
    ensures ScrambledTo(style, d, s, out[i := b], i + 1)
    ensures b == d[i] ==> ScrambledTo(style, d, s, out, i + 1)
  {
    hide RandomisedByte;
  }

  lemma {:induction false} ScrambledAll(style: Style, d: seq<byte>, s: State, out: seq<byte>)
    requires ScrambledTo(style, d, s, out, TextEnd(d))
    ensures out == Randomised(style, d, s)
    ensures Count(style, d, |d|) == Count(style, d, TextEnd(d))
  {
    NothingPastEnd(style, d, |d|);
    forall k | 0 <= k < |d| ensures out[k] == RandomisedByte(style, d, s, k) {
    }
  }

  method FindEnd(data: seq<byte>) returns (end: nat)
    ensures end == TextEnd(data)
  {
    end := 0;
    while end < |data| && data[end] != 0
      invariant end <= |data|
      invariant forall i :: 0 <= i < end ==> data[i] != 0
    {
      end := end + 1;
    }
  }

  method ScrambleText(data: seq<byte>, rng: Rng) returns (out: seq<byte>, changed: nat)
    modifies rng
    ensures out == Randomised(Text, data, old(rng.state))
    ensures changed == Count(Text, data, |data|)
    ensures rng.state == StateAfter(old(rng.state), changed)
  {
    hide RandomisedByte, Advance, LetterOf;
    var end := FindEnd(data);
    out := data;
    for i := 0 to end
      invariant ScrambledTo(Text, data, old(rng.state), out, i)
      invariant Count(Text, data, i) == i
      invariant rng.state == StateAfter(old(rng.state), i)
    {
      var b := rng.Letter();
      LetterIsDrawn(Text, data, old(rng.state), i);
      ScrambledOne(Text, data, old(rng.state), out, i, b);
      out := out[i := b];
    }
    ScrambledAll(Text, data, old(rng.state), out);
    changed := end;
  }

  lemma {:induction false} LetterIsDrawn(style: Style, d: seq<byte>, s: State, i: nat)
    requires i < |d|
    ensures Replaced(style, d, i) ==>
      RandomisedByte(style, d, s, i) == LetterOf(Advance(StateAfter(s, Count(style, d, i))))
    ensures !Replaced(style, d, i) ==> RandomisedByte(style, d, s, i) == d[i]
  {
    hide Replaced, Count, LetterOf, Advance;
  }

  method ScrambleMarkup(data: seq<byte>, rng: Rng) returns (out: seq<byte>, changed: nat)
    modifies rng
    ensures out == Randomised(Markup, data, old(rng.state))
    ensures changed == Count(Markup, data, |data|)
    ensures rng.state == StateAfter(old(rng.state), changed)
  {
    hide RandomisedByte, Advance, LetterOf;
    var end := FindEnd(data);
    out := data;
    changed := 0;
    var inTag := false;
    for i := 0 to end
      invariant ScrambledTo(Markup, data, old(rng.state), out, i)
      invariant changed == Count(Markup, data, i)
      invariant inTag == InTag(data, i)
      invariant rng.state == StateAfter(old(rng.state), changed)
    {
      LetterIsDrawn(Markup, data, old(rng.state), i);
      if data[i] == OPEN {
        inTag := true;
        ScrambledOne(Markup, data, old(rng.state), out, i, data[i]);
      } else if data[i] == CLOSE {
        inTag := false;
        ScrambledOne(Markup, data, old(rng.state), out, i, data[i]);
      } else if inTag || IsSpace(data[i]) {
        ScrambledOne(Markup, data, old(rng.state), out, i, data[i]);
      } else {
        var b := rng.Letter();
        ScrambledOne(Markup, data, old(rng.state), out, i, b);
        out := out[i := b];
        changed := changed + 1;
      }
    }
    ScrambledAll(Markup, data, old(rng.state), out);
  }

  // ---------------------------------------------------------------- text no replacement may touch

  const TX: seq<byte> := [35, 35, 84, 88]
  const MD: seq<byte> := [35, 35, 77, 68]
  const CC: seq<byte> := [35, 35, 67, 67]
  const CC_MIN_SIZE: nat := 80

  /** A block lies in the file and is the size its fields say. */
  predicate Spans(f: File, b: Fields) {
    b.address + b.length <= |f| && b.length == BLOCK_HEADER_SIZE + 8 * |b.links| + b.dataSize
  }

  predicate IsText(b: Fields) {
    b.blockType == TX || b.blockType == MD
  }

  /** All that is asked of a listed block; the ID block, which has no header, is none of these kinds. */
  predicate Fits(f: File, b: Fields) {
    IsText(b) || b.blockType == CC ==> Spans(f, b)
  }

  function DataStart(b: Fields): nat {
    b.address + BLOCK_HEADER_SIZE + 8 * |b.links|
  }

  function Data(f: File, b: Fields): (d: seq<byte>)
    requires Spans(f, b)
    ensures |d| == b.dataSize
  {
    f[DataStart(b)..DataStart(b) + b.dataSize]
  }

  /** `CcBlock::parse` succeeds on a listed block. */
  predicate CcParses(f: File, b: Fields)
    requires Spans(f, b)
  {
    && b.length >= CC_MIN_SIZE
    && b.dataSize >= 24
    && b.dataSize >= 24 + 8 * FromLe(Data(f, b)[6..8])
  }

  function References(b: Fields): seq<nat> {
    if |b.links| < 4 then [] else b.links[4..]
  }

  /** Reference `i` of a conversion of this type is text that decides numbers: the formula of an algebraic
      conversion, every key of a text-to-value table, every other reference of a text-to-text table. */
  predicate IsKey(conversion: byte, i: nat) {
    (conversion == 3 && i == 0) || conversion == 9 || (conversion == 10 && i % 2 == 0)
  }

  function KeysOf(f: File, b: Fields): set<nat> {
    if b.blockType != CC || !Spans(f, b) || !CcParses(f, b) then {} else
      set i: nat | i < |References(b)| && IsKey(Data(f, b)[0], i) :: References(b)[i]
  }

  ghost function AllKeys(f: File, bs: seq<Fields>, n: nat): set<nat>
    requires n <= |bs|
  {
    if n == 0 then {} else AllKeys(f, bs, n - 1) + KeysOf(f, bs[n - 1])
  }

  /** The text some listed conversion reads to produce numbers. */
  ghost function Protected(f: File, bs: seq<Fields>): set<nat> {
    AllKeys(f, bs, |bs|) - {0}
  }

  ghost predicate AllFit(f: File, bs: seq<Fields>) {
    forall k :: 0 <= k < |bs| ==> Fits(f, bs[k])
  }

  /** `protected` is every key of every listed conversion, and no zero link. */
  lemma {:induction false} ProtectedExactly(f: File, bs: seq<Fields>, n: nat, a: nat)
    requires n <= |bs|
    ensures a in AllKeys(f, bs, n) <==> exists k :: 0 <= k < n && a in KeysOf(f, bs[k])
  {
    hide KeysOf;
    if n != 0 { ProtectedExactly(f, bs, n - 1, a); }
  }

  method CollectKeys(f: File, b: Fields) returns (keys: set<nat>)
    requires Fits(f, b)
    ensures keys == KeysOf(f, b)
  {
    keys := {};
    if b.blockType != CC || !CcParses(f, b) { return; }
    var refs := References(b);
    var conversion := Data(f, b)[0];
    if conversion == 3 {
      keys := if |refs| > 0 then {refs[0]} else {};
    } else if conversion == 9 {
      keys := set i: nat | i < |refs| :: refs[i];
    } else if conversion == 10 {
      for i := 0 to |refs|
        invariant keys == set j: nat | j < i && j % 2 == 0 :: refs[j]
      {
        keys := if i % 2 == 0 then keys + {refs[i]} else keys;
      }
    }
  }

  method DecodeCriticalText(f: File, bs: seq<Fields>) returns (protected: set<nat>)
    requires AllFit(f, bs)
    ensures protected == Protected(f, bs)
  {
    hide KeysOf;
    protected := {};
    for k := 0 to |bs|
      invariant protected == AllKeys(f, bs, k)
    {
      var keys := CollectKeys(f, bs[k]);
      protected := protected + keys;
    }
    protected := protected - {0};
  }

  // ---------------------------------------------------------------- the plan

  function StyleOf(b: Fields): Style {
    if b.blockType == MD then Markup else Text
  }

  predicate IsTarget(b: Fields, protected: set<nat>) {
    IsText(b) && b.address !in protected
  }

  /** How many bytes of block `b` are replaced. */
  function Letters(f: File, b: Fields, protected: set<nat>): nat
    requires Fits(f, b)
  {
    if IsTarget(b, protected) then Count(StyleOf(b), Data(f, b), b.dataSize) else 0
  }

  datatype Patch = Patch(address: nat, replacement: seq<byte>, originalLen: nat, changed: nat)

  function PatchFor(f: File, b: Fields, s: State): (p: Patch)
    requires Spans(f, b)
    ensures |p.replacement| == p.originalLen && p.address + p.originalLen <= |f|
  {
    Patch(DataStart(b), Randomised(StyleOf(b), Data(f, b), s), b.dataSize, Count(StyleOf(b), Data(f, b), b.dataSize))
  }

  /** Letters drawn for the first `n` blocks. */
  ghost function Drawn(f: File, bs: seq<Fields>, protected: set<nat>, n: nat): nat
    requires n <= |bs| && AllFit(f, bs)
  {
    if n == 0 then 0 else Drawn(f, bs, protected, n - 1) + Letters(f, bs[n - 1], protected)
  }

  /** The patches for the first `n` blocks. */
  ghost function Writes(f: File, bs: seq<Fields>, protected: set<nat>, seed: State, n: nat): seq<Patch>
    requires n <= |bs| && AllFit(f, bs)
  {
    if n == 0 then [] else
      Writes(f, bs, protected, seed, n - 1) +
      if Letters(f, bs[n - 1], protected) == 0 then []
      else [PatchFor(f, bs[n - 1], StateAfter(seed, Drawn(f, bs, protected, n - 1)))]
  }

  ghost function Preserved(bs: seq<Fields>, protected: set<nat>, n: nat): nat
    requires n <= |bs|
  {
    if n == 0 then 0 else
      Preserved(bs, protected, n - 1) + if IsText(bs[n - 1]) && bs[n - 1].address in protected then 1 else 0
  }

  lemma {:induction false} NoBytesNoLetters(f: File, b: Fields, protected: set<nat>)
    requires Fits(f, b) && b.dataSize == 0
    ensures Letters(f, b, protected) == 0
  {
  }

  method PatchBlock(f: File, b: Fields, protected: set<nat>, rng: Rng) returns (write: Option<Patch>)
    requires Fits(f, b) && IsTarget(b, protected)
    modifies rng
    ensures rng.state == StateAfter(old(rng.state), Letters(f, b, protected))
    ensures write == if Letters(f, b, protected) == 0 then None else Some(PatchFor(f, b, old(rng.state)))
  {
    hide Count, Randomised, Advance;
    if b.dataSize == 0 {
      NoBytesNoLetters(f, b, protected);
      return None;
    }
    var data := Data(f, b);
    var replacement, changed;
    if b.blockType == MD {
      replacement, changed := ScrambleMarkup(data, rng);
    } else {
      replacement, changed := ScrambleText(data, rng);
    }
    write := if changed > 0 then Some(Patch(DataStart(b), replacement, b.dataSize, changed)) else None;
  }

  method PlanPatches(f: File, bs: seq<Fields>, protected: set<nat>, seed: State)
    returns (writes: seq<Patch>, preserved: nat)
    requires AllFit(f, bs)
    ensures writes == Writes(f, bs, protected, seed, |bs|)
    ensures preserved == Preserved(bs, protected, |bs|)
  {
    hide Letters, PatchFor, Advance, Fits;
    var rng := new Rng(seed);
    writes, preserved := [], 0;
    for k := 0 to |bs|
      invariant writes == Writes(f, bs, protected, seed, k)
      invariant preserved == Preserved(bs, protected, k)
      invariant rng.state == StateAfter(seed, Drawn(f, bs, protected, k))
    {
      if !IsText(bs[k]) || bs[k].address in protected {
        preserved := if IsText(bs[k]) then preserved + 1 else preserved;
        NotATarget(f, bs[k], protected);
      } else {
        StatesAdd(seed, Drawn(f, bs, protected, k), Letters(f, bs[k], protected));
        var write := PatchBlock(f, bs[k], protected, rng);
        writes := if write.Some? then writes + [write.value] else writes;
      }
    }
  }

  lemma {:induction false} OnlyTargets(f: File, b: Fields, protected: set<nat>)
    requires Fits(f, b) && Letters(f, b, protected) != 0
    ensures IsTarget(b, protected) && Spans(f, b)
  {
  }

  lemma {:induction false} NotATarget(f: File, b: Fields, protected: set<nat>)
    requires Fits(f, b) && !IsTarget(b, protected)
    ensures Letters(f, b, protected) == 0
  {
  }

  // ---------------------------------------------------------------- the file

  /** Bytes written over a file at a position. */
  function Overwritten(f: File, at: nat, data: seq<byte>): (out: File)
    requires at + |data| <= |f|
    ensures |out| == |f|
  {
    f[..at] + data + f[at + |data|..]
  }

  ghost predicate PatchFits(p: Patch, size: nat) {
    |p.replacement| == p.originalLen && p.address + p.originalLen <= size
  }

  ghost predicate PatchesFit(writes: seq<Patch>, size: nat) {
    forall k :: 0 <= k < |writes| ==> PatchFits(writes[k], size)
  }

  ghost function Patched(f: File, writes: seq<Patch>, n: nat): (out: File)
    requires n <= |writes| && PatchesFit(writes, |f|)
    ensures |out| == |f|
  {
    if n == 0 then f else
      assert PatchFits(writes[n - 1], |f|);
      Overwritten(Patched(f, writes, n - 1), writes[n - 1].address, writes[n - 1].replacement)
  }

  lemma {:induction false} WritesFit(f: File, bs: seq<Fields>, protected: set<nat>, seed: State, n: nat)
    requires n <= |bs| && AllFit(f, bs)
    ensures PatchesFit(Writes(f, bs, protected, seed, n), |f|)
  {
    hide Letters, Drawn, Fits;
    if n != 0 {
      WritesFit(f, bs, protected, seed, n - 1);
      if Letters(f, bs[n - 1], protected) != 0 {
        OnlyTargets(f, bs[n - 1], protected);
        assert PatchFits(PatchFor(f, bs[n - 1], StateAfter(seed, Drawn(f, bs, protected, n - 1))), |f|);
      }
    }
  }

  /** The whole output for a listing. */
  ghost function Scrambled(f: File, bs: seq<Fields>, seed: State): (out: File)
    requires AllFit(f, bs)
    ensures |out| == |f|
  {
    WritesFit(f, bs, Protected(f, bs), seed, |bs|);
    var writes := Writes(f, bs, Protected(f, bs), seed, |bs|);
    Patched(f, writes, |writes|)
  }

  function Listing(m: BlockMap): (bs: seq<Fields>)
    ensures |bs| == |m.blocks|
  {
    seq(|m.blocks|, k requires 0 <= k < |m.blocks| => m.blocks[k].block)
  }

  lemma {:induction false} EntryFits(f: File, m: BlockMap, b: Raw)
    requires TrueEntry(GraphOf(f), m, b) && Refused(f).None?
    ensures Fits(f, b.block)
    ensures b.block.address != 0 ==> Spans(f, b.block)
  {
    hide Listed, Reachable, Edge, Distinct;
    if b.block.address == 0 {
      assert GraphOf(f).fields(0) == IdFields(f);
      assert f[..8][0] == f[..4][0] && TX[0] == MD[0] == CC[0] == HASH;
      assert SIGNATURE[0] != HASH && UN_FIN_MF[0] != HASH;
    }
  }

  lemma {:induction false} ListingFits(f: File, m: BlockMap)
    requires Describes(f, m) && Refused(f).None?
    ensures AllFit(f, Listing(m))
  {
    hide TrueEntry, ListsEverything, WarnsExactly, GapsExactly, StoppedShort, Refused;
    forall k | 0 <= k < |m.blocks| ensures Fits(f, m.blocks[k].block) {
      assert m.blocks[k] in m.blocks;
      EntryFits(f, m, m.blocks[k]);
    }
  }

  const SIGNATURE: seq<byte> := [77, 68, 70, 32, 32, 32, 32, 32] // "MDF     "

  datatype Refusal = TooShort | BadSignature | NotMf4 | WouldShift

  /** What `scramble_file` says of a file it will not scramble. */
  function Refused(f: File): Option<Refusal> {
    if |f| < ID_BLOCK_SIZE then Some(TooShort)
    else if f[..8] != SIGNATURE && f[..8] != UN_FIN_MF then Some(BadSignature)
    else if FromLe(f[28..30]) < 400 then Some(NotMf4)
    else None
  }

  /** By its bytes: the size of the ID block, either signature, and a version from 4.00 on. */
  lemma {:induction false} RefusedByBytes(f: File)
    ensures Refused(f).None? <==>
      && |f| >= 64 && (f[..8] == [77, 68, 70, 32, 32, 32, 32, 32] || f[..8] == [85, 110, 70, 105, 110, 77, 70, 32])
      && f[28] as int + 256 * (f[29] as int) >= 400
  {
    if |f| >= 64 { FromTwo(f[28..30]); }
  }

  datatype Report = Report(blocksScrambled: nat, bytesScrambled: nat, blocksPreserved: nat)

  datatype Copied = Copied(bytes: File, report: Report)

  /** Bytes the first `n` patches replace. */
  ghost function BytesChanged(writes: seq<Patch>, n: nat): nat
    requires n <= |writes|
  {
    if n == 0 then 0 else BytesChanged(writes, n - 1) + writes[n - 1].changed
  }

  lemma {:induction false} ChangedIsDrawn(f: File, bs: seq<Fields>, protected: set<nat>, seed: State, n: nat)
    requires n <= |bs| && AllFit(f, bs)
    ensures BytesChanged(Writes(f, bs, protected, seed, n), |Writes(f, bs, protected, seed, n)|) == Drawn(f, bs, protected, n)
  {
    hide Count, Randomised, Fits;
    if n != 0 {
      ChangedIsDrawn(f, bs, protected, seed, n - 1);
      var before, writes := Writes(f, bs, protected, seed, n - 1), Writes(f, bs, protected, seed, n);
      assert writes != before ==> writes[..|before|] == before;
      ChangedPrefix(before, writes, |before|);
    }
  }

  lemma {:induction false} ChangedPrefix(a: seq<Patch>, b: seq<Patch>, n: nat)
    requires n <= |a| <= |b| && a == b[..|a|]
    ensures BytesChanged(a, n) == BytesChanged(b, n)
  {
    if n != 0 {
      ChangedPrefix(a, b, n - 1);
    }
  }

  /** Writes the planned patches over the copy. */
  method ApplyPatches(f: File, writes: seq<Patch>, preserved: nat) returns (r: Result<Copied, Refusal>)
    requires PatchesFit(writes, |f|)
    ensures r == Ok(Copied(Patched(f, writes, |writes|), Report(|writes|, BytesChanged(writes, |writes|), preserved)))
  {
    var out, report := f, Report(0, 0, preserved);
    for k := 0 to |writes|
      invariant out == Patched(f, writes, k)
      invariant report == Report(k, BytesChanged(writes, k), preserved)
    {
      assert PatchFits(writes[k], |f|);
      if |writes[k].replacement| != writes[k].originalLen {
        return Err(WouldShift);
      }
      out := Overwritten(out, writes[k].address, writes[k].replacement);
      report := Report(report.blocksScrambled + 1, report.bytesScrambled + writes[k].changed, preserved);
    }
    r := Ok(Copied(out, report));
  }

  /** `scramble_file`. A replacement never has the wrong length, so only the ID block can refuse a file. */
  method ScrambleFile(f: File, seed: State) returns (r: Result<Copied, Refusal>, m: BlockMap)
    ensures r.Err? <==> Refused(f).Some?
    ensures r.Err? ==> r.error == Refused(f).value
    ensures r.Ok? ==> Describes(f, m) && AllFit(f, Listing(m)) && r.value.bytes == Scrambled(f, Listing(m), seed)
    ensures r.Ok? ==> r.value.report.bytesScrambled == Drawn(f, Listing(m), Protected(f, Listing(m)), |m.blocks|)
    ensures r.Ok? ==>
      r.value.report.blocksScrambled == |Writes(f, Listing(m), Protected(f, Listing(m)), seed, |m.blocks|)|
    ensures r.Ok? ==> r.value.report.blocksPreserved == Preserved(Listing(m), Protected(f, Listing(m)), |m.blocks|)
  {
    hide Describes, Protected, AllFit, Drawn, Writes, Patched, Preserved, PatchesFit;
    m := BlockMap([], [], |f|, 0, [], false);
    if |f| < ID_BLOCK_SIZE { return Err(TooShort), m; }
    if f[..8] != SIGNATURE && f[..8] != UN_FIN_MF { return Err(BadSignature), m; }
    if FromLe(f[28..30]) < 400 { return Err(NotMf4), m; }
    m := Scan(f);
    var bs := Listing(m);
    ListingFits(f, m);
    var protected := DecodeCriticalText(f, bs);
    var writes, preserved := PlanPatches(f, bs, protected, seed);
    WritesFit(f, bs, protected, seed, |bs|);
    ChangedIsDrawn(f, bs, protected, seed, |bs|);
    r := ApplyPatches(f, writes, preserved);
  }
}
