/** A file whose text is apart from every block, and which scrambling still gives a new block: a link into the
    end of a text block's header meets the four bytes ##TX, and the text behind them is read as a block length. The
    block that appears is text itself, and a second run replaces it. */
module ScrambleStray {
  import opened Bytes
  import opened Options
  import opened BlockWalk
  import opened Scramble
  import opened ScrambleKeeps
  import opened ScrambleLaws
  import opened CleanWalk

  const STRAY: nat := 132

  function Cell(i: nat): byte {
    if i < 64 then
      (if i == 0 then 77 else if i == 1 then 68 else if i == 2 then 70 else if i < 8 then 32
       else if i == 28 then 154 else if i == 29 then 1 else 0)
    else if i < 104 then
      // ##HD, 40 bytes, links to 104 and 132
      (if i < 66 then 35 else if i == 66 then 72 else if i == 67 then 68 else if i == 72 then 40
       else if i == 80 then 2 else if i == 88 then 104 else if i == 96 then 132 else 0)
    else
      // ##TX, 120 bytes, one link whose last four bytes are ##TX, five bytes of text, and one more behind the terminator
      (if i < 106 then 35 else if i == 106 then 84 else if i == 107 then 88 else if i == 112 then 120
       else if i == 120 then 1 else if i == 132 || i == 133 then 35 else if i == 134 then 84 else if i == 135 then 88
       else if 136 <= i < 141 || i == 156 then 1 else 0)
  }

  function StrayFile(): (f: File)
    ensures |f| == 224
    ensures forall i :: 0 <= i < 224 ==> f[i] == Cell(i)
  {
    seq(224, i requires 0 <= i < 224 => Cell(i))
  }

  /** The file, with whatever five bytes of text. */
  ghost predicate Marked(h: File) {
    && |h| == 224
    && (forall i :: 0 <= i < 224 && !(136 <= i < 141) ==> h[i] == Cell(i))
    && (forall i :: 136 <= i < 141 ==> 1 <= h[i] <= 90)
  }

  // ---------------------------------------------------------------- reading its integers

  lemma {:induction false} ZerosSpellZero(s: seq<byte>)
    requires forall i :: 0 <= i < |s| ==> s[i] == 0
    ensures FromLe(s) == 0
  {
    if s != [] { ZerosSpellZero(s[1..]); }
  }

  lemma {:induction false} OneByteSpelt(s: seq<byte>)
    requires s != [] && forall i :: 1 <= i < |s| ==> s[i] == 0
    ensures FromLe(s) == s[0]
  {
    ZerosSpellZero(s[1..]);
  }

  lemma {:induction false} HighByteSpelt(s: seq<byte>, k: nat)
    requires k < |s| && s[k] > 0
    ensures FromLe(s) >= if k == 0 then 1 else 256
  {
    if k != 0 { HighByteSpelt(s[1..], k - 1); }
  }

  lemma {:induction false} SmallField(f: File, at: nat)
    requires at + 8 <= |f| && forall i :: at < i < at + 8 ==> f[i] == 0
    ensures FromLe(f[at..at + 8]) == f[at]
  {
    OneByteSpelt(f[at..at + 8]);
  }

  // ---------------------------------------------------------------- its blocks

  lemma {:induction false} RootBlock(h: File)
    requires Marked(h)
    ensures Judge(h, 64).Block?
    ensures BlockFields(h, 64) == Fields(64, [35, 35, 72, 68], 40, [104, STRAY], 0)
  {
    hide FromLe;
    SmallField(h, 72); SmallField(h, 80); SmallField(h, 88); SmallField(h, 96);
    assert LinkAt(h, 64, 0) == 104 && LinkAt(h, 64, 1) == STRAY;
    assert Links(h, 64) == [104, STRAY];
    assert h[64..68] == [35, 35, 72, 68];
  }

  lemma {:induction false} TextBlock(h: File) returns (far: nat)
    requires Marked(h)
    ensures Judge(h, 104).Block? && far >= 256
    ensures BlockFields(h, 104) == Fields(104, TX, 120, [far], 88)
  {
    hide FromLe;
    SmallField(h, 112); SmallField(h, 120);
    far := LinkAt(h, 104, 0);
    HighByteSpelt(h[128..136], 6);
    assert Links(h, 104) == [far];
    assert h[104..108] == TX;
  }

  /** The fifth byte of text is the length of what the stray link meets. */
  lemma {:induction false} StrayBlock(h: File)
    requires Marked(h)
    ensures h[140] < BLOCK_HEADER_SIZE ==> Judge(h, STRAY) == Rejected(BadHeader)
    ensures h[140] >= BLOCK_HEADER_SIZE ==>
      Judge(h, STRAY).Block? && BlockFields(h, STRAY) == Fields(STRAY, TX, h[140], [], h[140] - BLOCK_HEADER_SIZE)
  {
    hide FromLe;
    SmallField(h, 140); SmallField(h, 148);
    if h[140] >= BLOCK_HEADER_SIZE {
      assert Links(h, STRAY) == [];
      assert h[132..136] == TX;
    }
  }

  lemma {:induction false} FarIsNoBlock(h: File, far: nat)
    requires |h| == 224 && far >= 256
    ensures Judge(h, far).Rejected?
  {
  }

  lemma {:induction false} OnlyTheseReached(h: File, a: nat, steps: nat)
    requires Marked(h) && ReachesIn(GraphOf(h), a, steps)
    ensures a == 64 || a == 104 || (a == STRAY && h[140] >= BLOCK_HEADER_SIZE)
    decreases steps
  {
    hide Judge, BlockFields, Marked;
    var g := GraphOf(h);
    if steps != 0 {
      var b: nat :| ReachesIn(g, b, steps - 1) && Edge(g, b, a);
      OnlyTheseReached(h, b, steps - 1);
      RootBlock(h);
      var far := TextBlock(h);
      StrayBlock(h);
      MarkedSize(h);
      FarIsNoBlock(h, far);
      assert g.verdict(a) == Judge(h, a);
      assert a in BlockFields(h, b).links;
    }
  }

  lemma {:induction false} MarkedSize(h: File)
    requires Marked(h)
    ensures |h| == 224
  {
  }

  predicate KnownEntry(h: File, b: Fields)
    requires |h| == 224
  {
    || (b.address == 0 && b.length == 64 && b.blockType == [77, 68, 70, 32])
    || (b.address == 64 && b.length == 40 && b.blockType == [35, 35, 72, 68])
    || (b.address == 104 && b.length == 120 && b.blockType == TX && |b.links| == 1 && b.dataSize == 88)
    || (h[140] >= BLOCK_HEADER_SIZE && b == Fields(STRAY, TX, h[140], [], h[140] - BLOCK_HEADER_SIZE))
  }

  ghost predicate AllKnown(h: File, m: BlockMap) {
    |h| == 224 && forall k :: 0 <= k < |m.blocks| ==> KnownEntry(h, m.blocks[k].block)
  }

  lemma {:induction false} EntryIsKnown(h: File, m: BlockMap, k: nat)
    requires Marked(h) && True(h, m) && k < |m.blocks|
    ensures |h| == 224 && KnownEntry(h, m.blocks[k].block)
  {
    hide Judge, BlockFields, Listed, Edge, Distinct;
    var b := m.blocks[k].block;
    assert TrueEntry(GraphOf(h), m, m.blocks[k]);
    if b.address == 0 {
      IdBlockIsGiven(h);
      assert h[..4] == [77, 68, 70, 32];
    } else {
      var steps: nat :| ReachesIn(GraphOf(h), b.address, steps);
      OnlyTheseReached(h, b.address, steps);
      RootBlock(h);
      var far := TextBlock(h);
      StrayBlock(h);
    }
  }

  lemma {:induction false} NoKeysIn(h: File, bs: seq<Fields>, n: nat)
    requires |h| == 224 && n <= |bs| && forall k :: 0 <= k < |bs| ==> KnownEntry(h, bs[k])
    ensures AllKeys(h, bs, n) == {}
  {
    if n != 0 {
      NoKeysIn(h, bs, n - 1);
      assert KnownEntry(h, bs[n - 1]) && TX[2] == 84 && CC[2] == 67;
    }
  }

  lemma {:induction false} NoKeys(h: File, m: BlockMap)
    requires AllKnown(h, m)
    ensures Protected(h, Listing(m)) == {}
  {
    hide KnownEntry;
    NoKeysIn(h, Listing(m), |m.blocks|);
  }

  lemma {:induction false} FewEntries(h: File, m: BlockMap)
    requires AllKnown(h, m) && Ascending(m.blocks)
    ensures |m.blocks| <= 4
  {
    forall k | 0 <= k < |m.blocks| ensures Addresses(m)[k] in [0, 64, 104, STRAY] {
      assert KnownEntry(h, m.blocks[k].block);
      assert [0, 64, 104, STRAY][0] == 0 && [0, 64, 104, STRAY][1] == 64 && [0, 64, 104, STRAY][2] == 104
          && [0, 64, 104, STRAY][3] == STRAY;
    }
    UpWithin(Addresses(m), [0, 64, 104, STRAY]);
  }

  lemma {:induction false} GoodHeader(h: File)
    requires Marked(h)
    ensures Refused(h).None?
  {
    assert h[..8] == SIGNATURE;
    var v := h[28..30];
    assert v[1..] == [1] && FromLe(v[1..]) == 1 + 256 * FromLe(v[1..][1..]);
    assert FromLe(v) == 154 + 256;
  }

  /** Any listing of such a file is complete and holds nothing but these blocks. */
  lemma {:induction false} SeenWhole(h: File, m: BlockMap)
    requires Marked(h) && Describes(h, m)
    ensures SawAll(h, m) && Ascending(m.blocks) && AllKnown(h, m)
  {
    hide TrueEntry, ListsEverything, WarnsExactly, GapsExactly, KnownEntry, Cell, Marked;
    DescribesTruly(h, m);
    MarkedSize(h);
    forall k | 0 <= k < |m.blocks| ensures KnownEntry(h, m.blocks[k].block) { EntryIsKnown(h, m, k); }
    FewEntries(h, m);
    GoodHeader(h);
  }

  lemma {:induction false} FindEntry(h: File, m: BlockMap, a: nat) returns (k: nat)
    requires Marked(h) && SawAll(h, m)
    requires a == 104 || (a == STRAY && h[140] >= BLOCK_HEADER_SIZE)
    ensures k < |m.blocks| && m.blocks[k].block.address == a
  {
    hide SawAll, Reachable, TrueEntry, Listed, Refused, Marked;
    SawAllMeans(h, m);
    LinksOfRoot(h);
    MarkedSize(h);
    if a == STRAY { StrayBlock(h); StrayReached(h); }
    k := ListedEntry(h, m, a);
  }

  lemma {:induction false} LinksOfRoot(h: File)
    requires Marked(h)
    ensures var g := GraphOf(h);
            Reachable(g, 64) && Reachable(g, 104) && Followed(g, 64, STRAY)
  {
    hide Judge, BlockFields, Marked;
    var g := GraphOf(h);
    RootBlock(h);
    var far := TextBlock(h);
    ReachableRoot(g);
    assert g.fields(64).links[0] == 104 && g.fields(64).links[1] == STRAY;
    ReachableStep(g, 64, 104);
  }

  lemma {:induction false} StrayReached(h: File)
    requires Marked(h) && Judge(h, STRAY).Block?
    ensures Reachable(GraphOf(h), STRAY)
  {
    hide Judge, BlockFields, Marked;
    var g := GraphOf(h);
    RootBlock(h);
    ReachableRoot(g);
    assert g.fields(64).links[1] == STRAY;
    ReachableStep(g, 64, STRAY);
  }

  // ---------------------------------------------------------------- the text in it

  lemma {:induction false} StrayIsMarked()
    ensures Marked(StrayFile()) && StrayFile()[140] == 1
  {
  }

  lemma {:induction false} TextByte(h: File, b: Fields, p: nat)
    requires Marked(h) && KnownEntry(h, b) && b.address == 104
    ensures TextAt(h, b, {}, p) <==> 136 <= p < 141
  {
    var d := Data(h, b);
    assert TX[2] != MD[2];
    assert forall i :: 0 <= i < 88 ==> d[i] == h[136 + i];
    assert d[5] == 0 && forall i :: 0 <= i < 5 ==> d[i] != 0;
    assert TextEnd(d) == 5;
  }

  lemma {:induction false} OtherKinds(h: File, b: Fields, p: nat)
    requires |h| == 224 && KnownEntry(h, b) && b.address != 104 && b.address != STRAY
    ensures !TextAt(h, b, {}, p)
  {
    hide Replaced;
    assert TX[2] == 84 && MD[2] == 77;
  }

  /** The text of the block that appears is the byte at 156. */
  lemma {:induction false} NewTextByte(h: File, b: Fields)
    requires Marked(h) && KnownEntry(h, b) && b.address == STRAY && h[140] >= 65
    ensures TextAt(h, b, {}, 156)
  {
    var d := Data(h, b);
    assert d[0] == h[156] == 1 && d[1] == h[157] == 0;
    assert TextEnd(d) == 1;
  }

  lemma {:induction false} OnlyThatText(m: BlockMap, p: nat)
    requires AllKnown(StrayFile(), m)
    requires p < 136 || 141 <= p
    ensures !ReplacedIn(StrayFile(), m, p)
  {
    hide StrayFile, Replaced, Protected, KnownEntry, TextAt, Marked;
    NoKeys(StrayFile(), m);
    StrayIsMarked();
    var bs := Listing(m);
    if k :| 0 <= k < |bs| && TextAt(StrayFile(), bs[k], {}, p) {
      NoneAtStray(bs[k]);
      if bs[k].address == 104 { TextByte(StrayFile(), bs[k], p); } else { OtherKinds(StrayFile(), bs[k], p); }
    }
  }

  lemma {:induction false} NoneAtStray(b: Fields)
    requires KnownEntry(StrayFile(), b)
    ensures b.address != STRAY
  {
  }

  lemma {:induction false} StrayTextApart(m: BlockMap)
    requires AllKnown(StrayFile(), m) && Ascending(m.blocks)
    ensures TextApart(StrayFile(), m)
  {
    hide StrayFile, Replaced, Protected, TextAt;
    var bs := Listing(m);
    NoKeys(StrayFile(), m);
    StrayIsMarked();
    forall j, k, p: nat | 0 <= j < |bs| && 0 <= k < |bs| && j != k && TextAt(StrayFile(), bs[k], {}, p)
      ensures !Spanned(bs[j], p)
    {
      assert KnownEntry(StrayFile(), bs[k]) && KnownEntry(StrayFile(), bs[j]);
      assert bs[j].address != bs[k].address;
      NoneAtStray(bs[k]);
      NoneAtStray(bs[j]);
      if bs[k].address == 104 { TextByte(StrayFile(), bs[k], p); } else { OtherKinds(StrayFile(), bs[k], p); }
    }
  }

  // ---------------------------------------------------------------- what scrambling makes of it

  /** Whatever the seed: the five bytes are letters, and nothing else has changed. */
  lemma {:induction false} OutputIsMarked(m: BlockMap, seed: State)
    requires Describes(StrayFile(), m) && AllFit(StrayFile(), Listing(m))
    ensures var out := Scrambled(StrayFile(), Listing(m), seed); Marked(out) && out[140] >= 65
  {
    hide StrayFile, Scrambled, Describes, AllFit, ReplacedIn, Apart, Protected, Refused, Due, TextAt, KnownEntry, SawAll, Cell;
    var f, out := StrayFile(), Scrambled(StrayFile(), Listing(m), seed);
    StrayIsMarked();
    SeenWhole(f, m);
    StrayTextApart(m);
    NoKeys(f, m);
    var k := FindEntry(f, m, 104);
    forall p: nat | p < 224 ensures if 136 <= p < 141 then 65 <= out[p] <= 90 else out[p] == Cell(p) {
      if 136 <= p < 141 {
        TextByte(f, Listing(m)[k], p);
        TextBecomesLetters(f, m, seed, k, p);
      } else {
        OnlyThatText(m, p);
        OnlyTextChanges(f, m, seed, p);
      }
    }
  }

  /** No listed block overlaps another's text, and scrambling changes the listing all the same. */
  lemma {:induction false} StructureCanChange(m: BlockMap, seed: State, m2: BlockMap)
    requires Describes(StrayFile(), m) && AllFit(StrayFile(), Listing(m))
    requires Describes(Scrambled(StrayFile(), Listing(m), seed), m2)
    ensures SawAll(StrayFile(), m) && TextApart(StrayFile(), m)
    ensures Listing(m2) != Listing(m)
  {
    hide StrayFile, Scrambled, Describes, AllFit, TextApart, Refused, KnownEntry, Judge, Followed, StraysSpellNone, Marked;
    StrayIsMarked();
    SeenWhole(StrayFile(), m);
    StrayTextApart(m);
    StrayBlock(StrayFile());
    LinksOfRoot(StrayFile());
    OutputIsMarked(m, seed);
    StrayBlock(Scrambled(StrayFile(), Listing(m), seed));
    KeptIsSpelt(StrayFile(), m, seed);
    StructureIsKeptExactly(StrayFile(), m, seed, m2);
  }

  // ---------------------------------------------------------------- a second run

  lemma {:induction false} KnownFits(h: File, m: BlockMap)
    requires Marked(h) && AllKnown(h, m)
    ensures AllFit(h, Listing(m))
  {
    assert TX[2] == 84 && CC[2] == 67 && MD[2] == 77;
    forall k | 0 <= k < |m.blocks| ensures Fits(h, m.blocks[k].block) {
      assert KnownEntry(h, m.blocks[k].block);
    }
  }

  lemma {:induction false} UntouchedByte(h: File)
    requires Marked(h)
    ensures h[156] == 1
  {
  }

  /** The block with the greatest address is patched last. */
  lemma {:induction false} StrayIsLast(h: File, m: BlockMap, k: nat)
    requires AllKnown(h, m) && Ascending(m.blocks) && k < |m.blocks| && m.blocks[k].block.address == STRAY
    ensures k == |m.blocks| - 1
  {
    assert KnownEntry(h, m.blocks[|m.blocks| - 1].block);
  }

  /** Whatever the seed, scrambling the output again changes it: the block that has appeared is scrambled too. */
  lemma {:induction false} SecondRunCanChange(m: BlockMap, seed: State, m2: BlockMap)
    requires Describes(StrayFile(), m) && AllFit(StrayFile(), Listing(m))
    requires Describes(Scrambled(StrayFile(), Listing(m), seed), m2)
    ensures var out := Scrambled(StrayFile(), Listing(m), seed);
            AllFit(out, Listing(m2)) && Scrambled(out, Listing(m2), seed) != out
  {
    hide StrayFile, Scrambled, Describes, AllFit, Protected, Refused, Due, TextAt, KnownEntry, SawAll, Cell, After;
    var out, bs := Scrambled(StrayFile(), Listing(m), seed), Listing(m2);
    OutputIsMarked(m, seed);
    SeenWhole(out, m2);
    KnownFits(out, m2);
    NoKeys(out, m2);
    var k := FindEntry(out, m2, STRAY);
    StrayIsLast(out, m2, k);
    NewTextByte(out, bs[k]);
    ScrambledIsAfter(out, bs, seed);
    OnePatch(out, bs, {}, seed, k, 156);
    UntouchedByte(out);
  }
}
