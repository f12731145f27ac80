/** What scrambling keeps: every byte that is not text, the block graph, and its own output. */
module ScrambleKeeps {
  import opened Bytes
  import opened Options
  import opened BlockWalk
  import opened Scramble
  import opened CleanWalk

  // ---------------------------------------------------------------- which bytes are replaced

  predicate Inside(b: Fields, p: nat) {
    DataStart(b) <= p < DataStart(b) + b.dataSize
  }

  /** Byte `p` of the file is a replaced byte of the text in `b`. */
  predicate TextAt(f: File, b: Fields, protected: set<nat>, p: nat) {
    && IsTarget(b, protected) && Spans(f, b) && Inside(b, p)
    && Replaced(StyleOf(b), Data(f, b), p - DataStart(b))
  }

  ghost predicate IsReplaced(f: File, bs: seq<Fields>, protected: set<nat>, n: nat, p: nat)
    requires n <= |bs|
  {
    exists k :: 0 <= k < n && TextAt(f, bs[k], protected, p)
  }

  /** The file after the patches of the first `n` blocks. */
  ghost function After(f: File, bs: seq<Fields>, protected: set<nat>, seed: State, n: nat): (out: File)
    requires n <= |bs| && AllFit(f, bs)
    ensures |out| == |f|
  {
    if n == 0 then f else
      var before := After(f, bs, protected, seed, n - 1);
      if Letters(f, bs[n - 1], protected) == 0 then before else
        var patch := PatchFor(f, bs[n - 1], StateAfter(seed, Drawn(f, bs, protected, n - 1)));
        Overwritten(before, patch.address, patch.replacement)
  }

  lemma {:induction false} PatchedPrefix(f: File, a: seq<Patch>, b: seq<Patch>, n: nat)
    requires n <= |a| && PatchesFit(a, |f|) && PatchesFit(a + b, |f|)
    ensures Patched(f, a, n) == Patched(f, a + b, n)
  {
    hide Overwritten;
    if n != 0 {
      PatchedPrefix(f, a, b, n - 1);
      assert (a + b)[n - 1] == a[n - 1];
    }
  }

  lemma {:induction false} PatchedBlockByBlock(f: File, bs: seq<Fields>, protected: set<nat>, seed: State, n: nat)
    requires n <= |bs| && AllFit(f, bs)
    ensures var writes := Writes(f, bs, protected, seed, n);
            PatchesFit(writes, |f|) && Patched(f, writes, |writes|) == After(f, bs, protected, seed, n)
  {
    hide Overwritten, PatchFor, Letters, Drawn, PatchesFit;
    WritesFit(f, bs, protected, seed, n);
    if n != 0 {
      PatchedBlockByBlock(f, bs, protected, seed, n - 1);
      var before, writes := Writes(f, bs, protected, seed, n - 1), Writes(f, bs, protected, seed, n);
      if Letters(f, bs[n - 1], protected) == 0 {
        assert writes == before;
      } else {
        PatchedPrefix(f, before, writes[|before|..], |before|);
        assert before + writes[|before|..] == writes;
      }
    }
  }

  lemma {:induction false} OverwrittenAt(f: File, at: nat, data: seq<byte>, p: nat)
    requires at + |data| <= |f| && p < |f|
    ensures Overwritten(f, at, data)[p] == if at <= p < at + |data| then data[p - at] else f[p]
  {
  }

  /** One patch: a byte changes only if it is a replaced byte of that block, and then it is the letter due. */
  lemma {:induction false} OnePatch(f: File, bs: seq<Fields>, protected: set<nat>, seed: State, n: nat, p: nat)
    requires n < |bs| && AllFit(f, bs) && p < |f|
    ensures var now := After(f, bs, protected, seed, n + 1)[p];
            && (!IsTarget(bs[n], protected) || !Inside(bs[n], p) ==> now == After(f, bs, protected, seed, n)[p])
            && (!TextAt(f, bs[n], protected, p) ==> now == f[p] || now == After(f, bs, protected, seed, n)[p])
            && (TextAt(f, bs[n], protected, p) ==> now == Due(f, bs, protected, seed, n, p))
  {
    hide Drawn, Count, LetterOf, StateAfter, Replaced;
    var b := bs[n];
    assert Fits(f, b);
    if Letters(f, b, protected) != 0 {
      OnlyTargets(f, b, protected);
      var s := StateAfter(seed, Drawn(f, bs, protected, n));
      OverwrittenAt(After(f, bs, protected, seed, n), DataStart(b), PatchFor(f, b, s).replacement, p);
    } else if TextAt(f, b, protected, p) {
      ReplacedCounts(StyleOf(b), Data(f, b), p - DataStart(b), b.dataSize);
    }
  }

  lemma {:induction false} ReplacedCounts(style: Style, d: seq<byte>, i: nat, n: nat)
    requires i < n <= |d| && Replaced(style, d, i)
    ensures Count(style, d, n) > 0
  {
    if i < n - 1 { ReplacedCounts(style, d, i, n - 1); }
  }

  /** The letter due at a replaced byte: one per replaced byte before it, over the whole file. */
  ghost function Due(f: File, bs: seq<Fields>, protected: set<nat>, seed: State, n: nat, p: nat): (b: byte)
    requires n < |bs| && AllFit(f, bs) && TextAt(f, bs[n], protected, p)
    ensures 65 <= b <= 90
  {
    var d := Data(f, bs[n]);
    LetterOf(StateAfter(StateAfter(seed, Drawn(f, bs, protected, n)), Count(StyleOf(bs[n]), d, p - DataStart(bs[n])) + 1))
  }

  /** Whatever overlaps whatever, a byte that is not replaced text is the original's. */
  lemma {:induction false} RestKept(f: File, bs: seq<Fields>, protected: set<nat>, seed: State, n: nat, p: nat)
    requires n <= |bs| && AllFit(f, bs) && p < |f|
    requires !IsReplaced(f, bs, protected, n, p)
    ensures After(f, bs, protected, seed, n)[p] == f[p]
  {
    hide TextAt, After, Due, AllFit;
    if n == 0 {
      NoPatches(f, bs, protected, seed);
    } else {
      RestKept(f, bs, protected, seed, n - 1, p);
      OnePatch(f, bs, protected, seed, n - 1, p);
    }
  }

  lemma {:induction false} NoPatches(f: File, bs: seq<Fields>, protected: set<nat>, seed: State)
    requires AllFit(f, bs)
    ensures After(f, bs, protected, seed, 0) == f
  {
  }

  // ---------------------------------------------------------------- text apart from everything else

  predicate Spanned(b: Fields, p: nat) {
    b.address <= p < b.address + b.length
  }

  /** No replaced byte of one listed block lies in another. */
  ghost predicate Apart(f: File, bs: seq<Fields>, protected: set<nat>) {
    forall j, k, p: nat :: 0 <= j < |bs| && 0 <= k < |bs| && j != k && TextAt(f, bs[k], protected, p) ==> !Spanned(bs[j], p)
  }

  lemma {:induction false} InsideIsSpanned(f: File, b: Fields, p: nat)
    requires Spans(f, b) && Inside(b, p)
    ensures Spanned(b, p)
  {
  }

  /** Each replaced byte is the letter due to it, and later patches leave it alone. */
  lemma {:induction false} LetterStands(f: File, bs: seq<Fields>, protected: set<nat>, seed: State, k: nat, n: nat, p: nat)
    requires k < n <= |bs| && AllFit(f, bs) && p < |f| && Apart(f, bs, protected)
    requires TextAt(f, bs[k], protected, p)
    ensures After(f, bs, protected, seed, n)[p] == Due(f, bs, protected, seed, k, p)
  {
    hide TextAt, After, Due, Spanned, Spans, Inside;
    OnePatch(f, bs, protected, seed, n - 1, p);
    if k < n - 1 {
      LetterStands(f, bs, protected, seed, k, n - 1, p);
      assert Fits(f, bs[n - 1]);
      if IsTarget(bs[n - 1], protected) && Inside(bs[n - 1], p) { InsideIsSpanned(f, bs[n - 1], p); }
    }
  }

  // ---------------------------------------------------------------- twins

  /** Two files differ at most in the text of the first that is replaced, and have text there both. */
  ghost predicate Twins(f: File, h: File, bs: seq<Fields>, protected: set<nat>) {
    && |f| == |h|
    && (forall p :: 0 <= p < |f| && !IsReplaced(f, bs, protected, |bs|, p) ==> f[p] == h[p])
    && (forall k, p: nat :: 0 <= k < |bs| && p < |h| && TextAt(f, bs[k], protected, p) ==> Content(StyleOf(bs[k]), h[p]))
  }

  ghost predicate SameShape(style: Style, d: seq<byte>, e: seq<byte>) {
    |d| == |e| && forall i :: 0 <= i < |d| ==> if Replaced(style, d, i) then Content(style, e[i]) else d[i] == e[i]
  }

  lemma {:induction false} ShapeEnd(style: Style, d: seq<byte>, e: seq<byte>)
    requires SameShape(style, d, e)
    ensures TextEnd(e) == TextEnd(d)
  {
    var n := TextEnd(d);
    assert forall i :: 0 <= i < n ==> e[i] != 0;
    if n < |d| { assert !Replaced(style, d, n); }
  }

  lemma {:induction false} ShapeTags(d: seq<byte>, e: seq<byte>, i: nat)
    requires SameShape(Markup, d, e) && i <= |d|
    ensures InTag(e, i) <==> InTag(d, i)
  {
    if i != 0 { ShapeTags(d, e, i - 1); }
  }

  lemma {:induction false} ShapeReplaced(style: Style, d: seq<byte>, e: seq<byte>, i: nat)
    requires SameShape(style, d, e) && i < |d|
    ensures Replaced(style, e, i) <==> Replaced(style, d, i)
  {
    ShapeEnd(style, d, e);
    if style == Markup { ShapeTags(d, e, i); }
  }

  lemma {:induction false} ShapeCount(style: Style, d: seq<byte>, e: seq<byte>, i: nat)
    requires SameShape(style, d, e) && i <= |d|
    ensures Count(style, e, i) == Count(style, d, i)
  {
    hide Replaced;
    if i != 0 {
      ShapeCount(style, d, e, i - 1);
      ShapeReplaced(style, d, e, i - 1);
    }
  }

  /** The terminator, the tags and the number of letters are what they were, and so is what is drawn. */
  lemma {:induction false} ShapeRandomised(style: Style, d: seq<byte>, e: seq<byte>, s: State)
    requires SameShape(style, d, e)
    ensures TextEnd(e) == TextEnd(d)
    ensures Count(style, e, |e|) == Count(style, d, |d|)
    ensures Randomised(style, e, s) == Randomised(style, d, s)
  {
    hide Replaced, Count, StateAfter, LetterOf, TextEnd;
    ShapeEnd(style, d, e);
    ShapeCount(style, d, e, |d|);
    forall i | 0 <= i < |d| ensures RandomisedByte(style, e, s, i) == RandomisedByte(style, d, s, i) {
      ShapeReplaced(style, d, e, i);
      ShapeCount(style, d, e, i);
    }
  }

  /** A byte of a listed block that is not its own text is nobody's. */
  lemma {:induction false} NobodysText(f: File, bs: seq<Fields>, protected: set<nat>, k: nat, p: nat)
    requires Apart(f, bs, protected) && k < |bs| && Spanned(bs[k], p) && !TextAt(f, bs[k], protected, p)
    ensures !IsReplaced(f, bs, protected, |bs|, p)
  {
    hide TextAt, Spanned;
  }

  lemma {:induction false} SectionsAreTwins(f: File, h: File, bs: seq<Fields>, protected: set<nat>, k: nat)
    requires Apart(f, bs, protected) && Twins(f, h, bs, protected)
    requires k < |bs| && Spans(f, bs[k]) && IsTarget(bs[k], protected)
    ensures SameShape(StyleOf(bs[k]), Data(f, bs[k]), Data(h, bs[k]))
  {
    hide Replaced, IsReplaced, Content, Apart;
    var b := bs[k];
    var d, e := Data(f, b), Data(h, b);
    forall i | 0 <= i < |d| ensures if Replaced(StyleOf(b), d, i) then Content(StyleOf(b), e[i]) else d[i] == e[i] {
      var p := DataStart(b) + i;
      assert d[i] == f[p] && e[i] == h[p];
      if Replaced(StyleOf(b), d, i) {
        assert TextAt(f, b, protected, p);
      } else {
        NobodysText(f, bs, protected, k, p);
      }
    }
  }

  /** A listed block that is not replaced at all. */
  lemma {:induction false} OtherDataSame(f: File, h: File, bs: seq<Fields>, protected: set<nat>, k: nat)
    requires Apart(f, bs, protected) && Twins(f, h, bs, protected)
    requires k < |bs| && Spans(f, bs[k]) && !IsTarget(bs[k], protected)
    ensures Data(h, bs[k]) == Data(f, bs[k])
  {
    hide IsReplaced, Content, Apart;
    var b := bs[k];
    forall i | 0 <= i < b.dataSize ensures Data(h, b)[i] == Data(f, b)[i] {
      NobodysText(f, bs, protected, k, DataStart(b) + i);
    }
  }

  lemma {:induction false} KeysSame(f: File, h: File, bs: seq<Fields>, protected: set<nat>, n: nat)
    requires Apart(f, bs, protected) && Twins(f, h, bs, protected) && n <= |bs|
    ensures AllKeys(h, bs, n) == AllKeys(f, bs, n)
  {
    hide Apart, Twins, KeysOf;
    if n != 0 {
      KeysSame(f, h, bs, protected, n - 1);
      KeysOfSame(f, h, bs, protected, n - 1);
    }
  }

  lemma {:induction false} KeysOfSame(f: File, h: File, bs: seq<Fields>, protected: set<nat>, k: nat)
    requires Apart(f, bs, protected) && Twins(f, h, bs, protected) && k < |bs|
    ensures KeysOf(h, bs[k]) == KeysOf(f, bs[k])
  {
    hide Apart, IsReplaced, TextAt, Content;
    if bs[k].blockType == CC && Spans(f, bs[k]) {
      OtherDataSame(f, h, bs, protected, k);
    }
  }

  lemma {:induction false} PlansSame(f: File, h: File, bs: seq<Fields>, protected: set<nat>, seed: State, n: nat)
    requires Apart(f, bs, protected) && Twins(f, h, bs, protected) && n <= |bs|
    requires AllFit(f, bs) && AllFit(h, bs)
    ensures Drawn(h, bs, protected, n) == Drawn(f, bs, protected, n)
    ensures Writes(h, bs, protected, seed, n) == Writes(f, bs, protected, seed, n)
  {
    hide Apart, Twins, PatchFor, Letters, Spans;
    if n != 0 {
      PlansSame(f, h, bs, protected, seed, n - 1);
      PatchesSame(f, h, bs, protected, StateAfter(seed, Drawn(f, bs, protected, n - 1)), n - 1);
    }
  }

  lemma {:induction false} PatchesSame(f: File, h: File, bs: seq<Fields>, protected: set<nat>, s: State, k: nat)
    requires Apart(f, bs, protected) && Twins(f, h, bs, protected) && k < |bs| && Fits(f, bs[k]) && Fits(h, bs[k])
    ensures Letters(h, bs[k], protected) == Letters(f, bs[k], protected)
    ensures Letters(f, bs[k], protected) != 0 ==> PatchFor(h, bs[k], s) == PatchFor(f, bs[k], s)
  {
    hide Apart, Twins, Randomised, Count;
    if IsTarget(bs[k], protected) {
      SectionsAreTwins(f, h, bs, protected, k);
      ShapeRandomised(StyleOf(bs[k]), Data(f, bs[k]), Data(h, bs[k]), s);
    }
  }

  lemma {:induction false} TextAtSame(f: File, h: File, bs: seq<Fields>, protected: set<nat>, k: nat, p: nat)
    requires Apart(f, bs, protected) && Twins(f, h, bs, protected) && k < |bs|
    ensures TextAt(h, bs[k], protected, p) <==> TextAt(f, bs[k], protected, p)
  {
    hide Apart, Twins, Replaced;
    TwinsSameLength(f, h, bs, protected);
    if IsTarget(bs[k], protected) && Spans(f, bs[k]) && Inside(bs[k], p) {
      SectionsAreTwins(f, h, bs, protected, k);
      ShapeReplaced(StyleOf(bs[k]), Data(f, bs[k]), Data(h, bs[k]), p - DataStart(bs[k]));
    }
  }

  lemma {:induction false} TwinsSameLength(f: File, h: File, bs: seq<Fields>, protected: set<nat>)
    requires Twins(f, h, bs, protected)
    ensures |f| == |h|
  {
  }

  lemma {:induction false} DueSame(f: File, h: File, bs: seq<Fields>, protected: set<nat>, seed: State, k: nat, p: nat)
    requires Apart(f, bs, protected) && Twins(f, h, bs, protected) && AllFit(f, bs) && AllFit(h, bs)
    requires k < |bs| && TextAt(f, bs[k], protected, p) && TextAt(h, bs[k], protected, p)
    ensures Due(h, bs, protected, seed, k, p) == Due(f, bs, protected, seed, k, p)
  {
    hide Apart, Twins, Count, Drawn, LetterOf, StateAfter;
    SectionsAreTwins(f, h, bs, protected, k);
    ShapeCount(StyleOf(bs[k]), Data(f, bs[k]), Data(h, bs[k]), p - DataStart(bs[k]));
    PlansSame(f, h, bs, protected, seed, k);
  }

  lemma {:induction false} TwinsReplaceTheSame(f: File, h: File, bs: seq<Fields>, protected: set<nat>)
    requires Apart(f, bs, protected) && Twins(f, h, bs, protected)
    ensures Apart(h, bs, protected)
    ensures forall p: nat :: IsReplaced(h, bs, protected, |bs|, p) <==> IsReplaced(f, bs, protected, |bs|, p)
  {
    hide Twins, TextAt, Spanned;
    forall k, p: nat | 0 <= k < |bs| ensures TextAt(h, bs[k], protected, p) <==> TextAt(f, bs[k], protected, p) {
      TextAtSame(f, h, bs, protected, k, p);
    }
  }

  lemma {:induction false} SameByteOut(f: File, h: File, bs: seq<Fields>, protected: set<nat>, seed: State, p: nat)
    requires AllFit(f, bs) && AllFit(h, bs) && p < |f| == |h|
    requires Apart(f, bs, protected) && Twins(f, h, bs, protected)
    ensures After(h, bs, protected, seed, |bs|)[p] == After(f, bs, protected, seed, |bs|)[p]
  {
    hide Apart, AllFit, After, Due, TextAt;
    TwinsReplaceTheSame(f, h, bs, protected);
    if IsReplaced(f, bs, protected, |bs|, p) {
      var k :| 0 <= k < |bs| && TextAt(f, bs[k], protected, p);
      TextAtSame(f, h, bs, protected, k, p);
      LetterStands(f, bs, protected, seed, k, |bs|, p);
      LetterStands(h, bs, protected, seed, k, |bs|, p);
      DueSame(f, h, bs, protected, seed, k, p);
    } else {
      RestKept(f, bs, protected, seed, |bs|, p);
      RestKept(h, bs, protected, seed, |bs|, p);
    }
  }

  /** Twins with one listing come out the same. */
  lemma {:induction false} TwinsOutTheSame(f: File, h: File, bs: seq<Fields>, seed: State)
    requires AllFit(f, bs) && AllFit(h, bs)
    requires Apart(f, bs, Protected(f, bs)) && Twins(f, h, bs, Protected(f, bs))
    ensures Protected(h, bs) == Protected(f, bs)
    ensures Scrambled(h, bs, seed) == Scrambled(f, bs, seed)
  {
    hide Apart, AllFit, AllKeys, Writes, After, Twins, PatchesFit;
    var protected := Protected(f, bs);
    TwinsSameLength(f, h, bs, protected);
    KeysSame(f, h, bs, protected, |bs|);
    PatchedBlockByBlock(f, bs, protected, seed, |bs|);
    PatchedBlockByBlock(h, bs, protected, seed, |bs|);
    forall p | 0 <= p < |f|
      ensures After(h, bs, protected, seed, |bs|)[p] == After(f, bs, protected, seed, |bs|)[p]
    {
      SameByteOut(f, h, bs, protected, seed, p);
    }
  }

  // ---------------------------------------------------------------- the block graph

  ghost predicate SameRange(f: File, h: File, from: nat, to: nat) {
    |f| == |h| && to <= |f| && forall p :: from <= p < to ==> f[p] == h[p]
  }

  lemma {:induction false} SlicesSame(f: File, h: File, from: nat, to: nat, i: nat, j: nat)
    requires SameRange(f, h, from, to) && from <= i <= j <= to
    ensures f[i..j] == h[i..j]
  {
    forall k | 0 <= k < j - i ensures f[i..j][k] == h[i..j][k] {
      assert f[i + k] == h[i + k];
    }
  }

  lemma {:induction false} JudgedTheSame(f: File, h: File, a: nat)
    requires SameRange(f, h, a, a + BLOCK_HEADER_SIZE)
    ensures Judge(h, a) == Judge(f, a)
    ensures DeclaredLength(h, a) == DeclaredLength(f, a) && LinkCount(h, a) == LinkCount(f, a)
  {
    hide FromLe;
    SlicesSame(f, h, a, a + BLOCK_HEADER_SIZE, a + 8, a + 16);
    SlicesSame(f, h, a, a + BLOCK_HEADER_SIZE, a + 16, a + 24);
  }

  /** Header and links the same, the block is the same. */
  lemma {:induction false} SameHead(f: File, h: File, a: nat)
    requires Judge(f, a).Block? && SameRange(f, h, a, a + BLOCK_HEADER_SIZE + 8 * LinkCount(f, a))
    ensures Judge(h, a).Block? && BlockFields(h, a) == BlockFields(f, a)
  {
    hide FromLe;
    var end := a + BLOCK_HEADER_SIZE + 8 * LinkCount(f, a);
    assert SameRange(f, h, a, a + BLOCK_HEADER_SIZE);
    JudgedTheSame(f, h, a);
    SlicesSame(f, h, a, end, a, a + 4);
    forall i | 0 <= i < LinkCount(f, a) ensures Links(h, a)[i] == Links(f, a)[i] {
      SlicesSame(f, h, a, end, a + BLOCK_HEADER_SIZE + 8 * i, a + BLOCK_HEADER_SIZE + 8 * i + 8);
    }
  }

  /** Bytes of a listed block before its data section are nobody's text. */
  lemma {:induction false} HeadKept(f: File, h: File, bs: seq<Fields>, protected: set<nat>, k: nat, to: nat)
    requires Apart(f, bs, protected) && Twins(f, h, bs, protected)
    requires k < |bs| && to <= bs[k].address + bs[k].length && to <= |f|
    requires to <= DataStart(bs[k]) || !IsTarget(bs[k], protected)
    ensures SameRange(f, h, bs[k].address, to)
  {
    hide Apart, IsReplaced, Content, Replaced;
    forall p | bs[k].address <= p < to ensures f[p] == h[p] {
      NobodysText(f, bs, protected, k, p);
    }
  }

  lemma {:induction false} EntryKept(f: File, h: File, m: BlockMap, k: nat)
    requires Describes(f, m) && Refused(f).None? && k < |m.blocks|
    requires Apart(f, Listing(m), Protected(f, Listing(m))) && Twins(f, h, Listing(m), Protected(f, Listing(m)))
    ensures GraphOf(h).fields(m.blocks[k].block.address) == m.blocks[k].block
    ensures m.blocks[k].block.address != 0 ==> Judge(h, m.blocks[k].block.address).Block?
  {
    hide Listed, Reachable, Edge, Distinct, ListsEverything, WarnsExactly, GapsExactly, StoppedShort, Apart, Twins, Protected;
    hide Judge, BlockFields, IdFields, Refused, DeclaredUnfinalized, SaturatingSum;
    var bs, protected := Listing(m), Protected(f, Listing(m));
    var b := bs[k];
    assert m.blocks[k] in m.blocks;
    EntryFits(f, m, m.blocks[k]);
    TwinsSameLength(f, h, bs, protected);
    if b.address == 0 {
      IdKept(f, h, bs, protected, k);
    } else {
      BlockKept(f, h, bs, protected, k);
    }
  }

  lemma {:induction false} IdKept(f: File, h: File, bs: seq<Fields>, protected: set<nat>, k: nat)
    requires Apart(f, bs, protected) && Twins(f, h, bs, protected) && Refused(f).None?
    requires k < |bs| && bs[k] == IdFields(f)
    ensures |h| >= ID_BLOCK_SIZE && IdFields(h) == IdFields(f) && Refused(h).None?
  {
    hide Apart, Twins;
    hide FromLe;
    assert f[..4][0] == f[..8][0] && TX[0] == MD[0] == CC[0] == HASH;
    assert SIGNATURE[0] != HASH && UN_FIN_MF[0] != HASH;
    HeadKept(f, h, bs, protected, k, ID_BLOCK_SIZE);
    SlicesSame(f, h, 0, ID_BLOCK_SIZE, 0, 4);
    SlicesSame(f, h, 0, ID_BLOCK_SIZE, 0, 8);
    SlicesSame(f, h, 0, ID_BLOCK_SIZE, 28, 30);
  }

  lemma {:induction false} BlockKept(f: File, h: File, bs: seq<Fields>, protected: set<nat>, k: nat)
    requires Apart(f, bs, protected) && Twins(f, h, bs, protected)
    requires k < |bs| && Judge(f, bs[k].address).Block? && bs[k] == BlockFields(f, bs[k].address)
    ensures Judge(h, bs[k].address).Block? && BlockFields(h, bs[k].address) == bs[k]
  {
    hide Apart, Twins, FromLe, IsTarget;
    HeadKept(f, h, bs, protected, k, DataStart(bs[k]));
    SameHead(f, h, bs[k].address);
  }

  /** A link the walk of `f` follows to no block still finds none in `h`. */
  ghost predicate StraysKept(f: File, h: File) {
    forall r: nat, t: nat :: Followed(GraphOf(f), r, t) && Judge(f, t).Rejected? ==> Judge(h, t).Rejected?
  }

  /** Every listed block of one graph is there, as listed, in the other. */
  ghost predicate Carried(g: Graph, g': Graph) {
    forall a: nat :: Reachable(g, a) ==> g'.verdict(a).Block? && g'.fields(a) == g.fields(a)
  }

  ghost predicate NoneGained(g: Graph, g': Graph) {
    forall r: nat, t: nat :: Followed(g, r, t) && g.verdict(t).Rejected? ==> g'.verdict(t).Rejected?
  }

  lemma {:induction false} ReachedStill(g: Graph, g': Graph, a: nat, steps: nat)
    requires Carried(g, g') && ReachesIn(g, a, steps)
    ensures ReachesIn(g', a, steps)
    decreases steps
  {
    assert Reachable(g, a);
    if steps != 0 {
      var b: nat :| ReachesIn(g, b, steps - 1) && Edge(g, b, a);
      assert Reachable(g, b);
      ReachedStill(g, g', b, steps - 1);
      assert Edge(g', b, a);
    }
  }

  lemma {:induction false} ReachedBefore(g: Graph, g': Graph, a: nat, steps: nat)
    requires Carried(g, g') && NoneGained(g, g') && ReachesIn(g', a, steps)
    ensures Reachable(g, a)
    decreases steps
  {
    if steps == 0 {
      assert Followed(g, 0, ID_BLOCK_SIZE);
      ReachableRoot(g);
    } else {
      var b: nat :| ReachesIn(g', b, steps - 1) && Edge(g', b, a);
      ReachedBefore(g, g', b, steps - 1);
      assert Edge(g, b, a);
      assert Followed(g, b, a);
      ReachableStep(g, b, a);
    }
  }

  lemma {:induction false} SameReachable(g: Graph, g': Graph, a: nat)
    requires Carried(g, g') && NoneGained(g, g')
    ensures Reachable(g', a) <==> Reachable(g, a)
  {
    if Reachable(g, a) {
      var steps: nat :| ReachesIn(g, a, steps);
      ReachedStill(g, g', a, steps);
    }
    if Reachable(g', a) {
      var steps: nat :| ReachesIn(g', a, steps);
      ReachedBefore(g, g', a, steps);
    }
  }

  // ---------------------------------------------------------------- the listing

  /** The walk of `f` saw everything, with room to spare. */
  ghost predicate SawAll(f: File, m: BlockMap) {
    && Describes(f, m) && Refused(f).None?
    && Stopped !in m.warnings && |m.blocks| < MAX_BLOCKS
  }

  lemma {:induction false} SawAllMeans(f: File, m: BlockMap)
    requires SawAll(f, m)
    ensures |f| >= ID_BLOCK_SIZE && Judge(f, 0).Rejected?
    ensures ListsEverything(GraphOf(f), m) && True(f, m)
  {
    hide TrueEntry, ListsEverything, WarnsExactly, GapsExactly, StoppedShort;
    DescribesTruly(f, m);
    assert f[..8][0] == f[0];
    assert SIGNATURE[0] != HASH && UN_FIN_MF[0] != HASH;
  }

  /** The blocks of `f` reappear in `h`. */
  ghost predicate EntriesKept(f: File, h: File, m: BlockMap) {
    forall k :: 0 <= k < |m.blocks| ==> EntryIn(h, m.blocks[k].block)
  }

  predicate EntryIn(h: File, b: Fields) {
    GraphOf(h).fields(b.address) == b && (b.address != 0 ==> Judge(h, b.address).Block?)
  }

  lemma {:induction false} AllEntriesKept(f: File, h: File, m: BlockMap)
    requires SawAll(f, m)
    requires Apart(f, Listing(m), Protected(f, Listing(m))) && Twins(f, h, Listing(m), Protected(f, Listing(m)))
    ensures EntriesKept(f, h, m)
  {
    hide Describes, Apart, Twins, Protected, Refused, GraphOf, Judge;
    forall k | 0 <= k < |m.blocks| ensures EntryIn(h, m.blocks[k].block) {
      EntryKept(f, h, m, k);
    }
  }

  lemma {:induction false} ListedEntry(f: File, m: BlockMap, a: nat) returns (k: nat)
    requires True(f, m) && Listed(m, a)
    ensures k < |m.blocks| && m.blocks[k].block.address == a && m.blocks[k].block == GraphOf(f).fields(a)
    ensures a != 0 ==> Reachable(GraphOf(f), a)
    ensures a == 0 ==> GraphOf(f).hasId
  {
    hide Reachable, Edge, Distinct, GraphOf;
    var b :| b in m.blocks && b.block.address == a;
    k :| 0 <= k < |m.blocks| && m.blocks[k] == b;
    assert TrueEntry(GraphOf(f), m, m.blocks[k]);
  }

  lemma {:induction false} GraphCarried(f: File, h: File, m: BlockMap)
    requires SawAll(f, m) && EntriesKept(f, h, m)
    ensures Carried(GraphOf(f), GraphOf(h))
  {
    hide SawAll, TrueEntry, Listed, Judge, BlockFields, IdFields, Refused;
    SawAllMeans(f, m);
    var g, g' := GraphOf(f), GraphOf(h);
    forall a: nat | Reachable(g, a) ensures g'.verdict(a).Block? && g'.fields(a) == g.fields(a) {
      var steps: nat :| ReachesIn(g, a, steps);
      assert g.verdict(a) == Judge(f, a) && a != 0;
      var k := ListedEntry(f, m, a);
      assert EntryIn(h, m.blocks[k].block);
    }
  }

  lemma {:induction false} StraysMeanNoneGained(f: File, h: File)
    ensures StraysKept(f, h) <==> NoneGained(GraphOf(f), GraphOf(h))
  {
    hide Followed, Judge;
    var g, g' := GraphOf(f), GraphOf(h);
    assert forall t: nat :: g.verdict(t) == Judge(f, t) && g'.verdict(t) == Judge(h, t);
  }

  /** Every entry of the second listing is one of the first's. */
  lemma {:induction false} NoNewEntry(f: File, h: File, m: BlockMap, m2: BlockMap)
    requires SawAll(f, m) && Describes(h, m2) && EntriesKept(f, h, m) && StraysKept(f, h)
    ensures Within(Addresses(m2), Addresses(m)) && StrictlyUp(Addresses(m)) && StrictlyUp(Addresses(m2))
  {
    hide SawAll, Describes, TrueEntry, Listed, GraphOf, StraysKept, EntriesKept, Reachable, NoneGained, Carried, Judge, Refused;
    SawAllMeans(f, m);
    DescribesTruly(h, m2);
    GraphCarried(f, h, m);
    StraysMeanNoneGained(f, h);
    forall k | 0 <= k < |m2.blocks| ensures Addresses(m2)[k] in Addresses(m) {
      var a := Addresses(m2)[k];
      ListedInAddresses(m2, a);
      var k2 := ListedEntry(h, m2, a);
      if a != 0 {
        SameReachable(GraphOf(f), GraphOf(h), a);
      } else {
        IdListed(f, m);
      }
      ListedInAddresses(m, a);
    }
  }

  lemma {:induction false} IdListed(f: File, m: BlockMap)
    requires |f| >= ID_BLOCK_SIZE && ListsEverything(GraphOf(f), m)
    ensures Listed(m, 0)
  {
    hide Listed;
  }

  lemma {:induction false} NoEntryLost(f: File, h: File, m: BlockMap, m2: BlockMap)
    requires SawAll(f, m) && True(h, m2) && EntriesKept(f, h, m) && StraysKept(f, h) && |h| >= ID_BLOCK_SIZE
    requires ListsEverything(GraphOf(h), m2)
    ensures Within(Addresses(m), Addresses(m2))
  {
    hide SawAll, Describes, TrueEntry, Listed, GraphOf, StraysKept, EntriesKept, Reachable, NoneGained, Carried, Judge, Refused;
    SawAllMeans(f, m);
    GraphCarried(f, h, m);
    StraysMeanNoneGained(f, h);
    forall k | 0 <= k < |m.blocks| ensures Addresses(m)[k] in Addresses(m2) {
      var a := Addresses(m)[k];
      ListedInAddresses(m, a);
      var k1 := ListedEntry(f, m, a);
      if a != 0 {
        SameReachable(GraphOf(f), GraphOf(h), a);
      } else {
        IdListed(h, m2);
      }
      ListedInAddresses(m2, a);
    }
  }

  lemma {:induction false} NotStopped(h: File, m2: BlockMap)
    requires Describes(h, m2) && |m2.blocks| < MAX_BLOCKS
    ensures Stopped !in m2.warnings && ListsEverything(GraphOf(h), m2) && True(h, m2)
  {
    hide TrueEntry, ListsEverything, WarnsExactly, GapsExactly;
    DescribesTruly(h, m2);
  }

  /** With the blocks of `f` intact in `h` and no stray link turned into a block, the listings are one. */
  lemma {:induction false} ListingsAgree(f: File, h: File, m: BlockMap, m2: BlockMap)
    requires SawAll(f, m) && Describes(h, m2) && |h| >= ID_BLOCK_SIZE
    requires EntriesKept(f, h, m) && StraysKept(f, h)
    ensures Listing(m2) == Listing(m) && Stopped !in m2.warnings
  {
    hide Describes, TrueEntry, Listed, GraphOf, StraysKept, Judge, Refused, StrictlyUp, Within;
    NoNewEntry(f, h, m, m2);
    UpWithin(Addresses(m2), Addresses(m));
    NotStopped(h, m2);
    NoEntryLost(f, h, m, m2);
    UpWithin(Addresses(m), Addresses(m2));
    forall k | 0 <= k < |m.blocks| ensures m2.blocks[k].block == m.blocks[k].block {
      assert Addresses(m)[k] == Addresses(m2)[k];
      assert TrueFields(h, m2, k) by { FieldsAreTrue(h, m2, k); }
      assert EntryIn(h, m.blocks[k].block);
    }
  }

  ghost predicate TrueFields(h: File, m: BlockMap, k: nat) {
    k < |m.blocks| && m.blocks[k].block == GraphOf(h).fields(m.blocks[k].block.address)
  }

  lemma {:induction false} FieldsAreTrue(h: File, m: BlockMap, k: nat)
    requires True(h, m) && k < |m.blocks|
    ensures TrueFields(h, m, k)
  {
    hide Listed, Reachable, Edge, Distinct, GraphOf;
    assert TrueEntry(GraphOf(h), m, m.blocks[k]);
  }
}
