/** The laws of scrambling: structure kept, names gone, a second run without effect. */
module ScrambleLaws {
  import opened Bytes
  import opened Options
  import opened BlockWalk
  import opened Scramble
  import opened ScrambleKeeps
  import opened CleanWalk

  ghost predicate TextApart(f: File, m: BlockMap) {
    Apart(f, Listing(m), Protected(f, Listing(m)))
  }

  ghost predicate TwinOf(f: File, h: File, m: BlockMap) {
    Twins(f, h, Listing(m), Protected(f, Listing(m)))
  }

  ghost predicate ReplacedIn(f: File, m: BlockMap, p: nat) {
    IsReplaced(f, Listing(m), Protected(f, Listing(m)), |m.blocks|, p)
  }

  lemma {:induction false} HeaderIsKept(f: File, h: File, m: BlockMap)
    requires SawAll(f, m) && TextApart(f, m) && TwinOf(f, h, m)
    ensures |h| == |f| >= ID_BLOCK_SIZE && Refused(h).None?
  {
    hide Apart, Twins, Protected, ListsEverything, Describes, Refused, GraphOf, TrueEntry;
    SawAllMeans(f, m);
    TwinsSameLength(f, h, Listing(m), Protected(f, Listing(m)));
    IdBlockIsGiven(f);
    IdListed(f, m);
    var k := ListedEntry(f, m, 0);
    IdKept(f, h, Listing(m), Protected(f, Listing(m)), k);
  }

  lemma IdBlockIsGiven(f: File)
    requires |f| >= ID_BLOCK_SIZE
    ensures GraphOf(f).fields(0) == IdFields(f) && GraphOf(f).hasId
  {
  }

  /** Twins are listed alike. */
  lemma {:induction false} TwinsListTheSame(f: File, h: File, m: BlockMap, m2: BlockMap)
    requires SawAll(f, m) && Describes(h, m2) && TextApart(f, m) && TwinOf(f, h, m) && StraysKept(f, h)
    ensures Refused(h).None? && Listing(m2) == Listing(m)
    ensures SawAll(h, m2)
  {
    hide Apart, Twins, Protected, Describes, Refused, StraysKept, EntriesKept;
    HeaderIsKept(f, h, m);
    AllEntriesKept(f, h, m);
    ListingsAgree(f, h, m, m2);
  }

  /** Nothing of the replaced text shows in the output: whatever text two files hold where text is replaced,
      they come out byte for byte the same. */
  lemma {:induction false} ReplacedTextDoesNotShow(f: File, h: File, m: BlockMap, m2: BlockMap, seed: State)
    requires SawAll(f, m) && Describes(h, m2) && TextApart(f, m) && TwinOf(f, h, m) && StraysKept(f, h)
    ensures AllFit(f, Listing(m)) && AllFit(h, Listing(m2))
    ensures Scrambled(h, Listing(m2), seed) == Scrambled(f, Listing(m), seed)
  {
    hide Apart, Twins, Protected, Describes, Refused, StraysKept, Scrambled, AllFit;
    TwinsListTheSame(f, h, m, m2);
    ListingFits(f, m);
    ListingFits(h, m2);
    TwinsOutTheSame(f, h, Listing(m), seed);
  }

  // ---------------------------------------------------------------- the output beside its original

  lemma {:induction false} ScrambledIsAfter(f: File, bs: seq<Fields>, seed: State)
    requires AllFit(f, bs)
    ensures Scrambled(f, bs, seed) == After(f, bs, Protected(f, bs), seed, |bs|)
  {
    hide After, Writes, AllFit, Patched, Protected, PatchesFit;
    PatchedBlockByBlock(f, bs, Protected(f, bs), seed, |bs|);
  }

  /** A byte that is not replaced text is the original's, whatever overlaps whatever. */
  lemma {:induction false} OnlyTextChanges(f: File, m: BlockMap, seed: State, p: nat)
    requires AllFit(f, Listing(m)) && p < |f| && !ReplacedIn(f, m, p)
    ensures Scrambled(f, Listing(m), seed)[p] == f[p]
  {
    hide After, AllFit, Protected, IsReplaced, Scrambled;
    ScrambledIsAfter(f, Listing(m), seed);
    RestKept(f, Listing(m), Protected(f, Listing(m)), seed, |m.blocks|, p);
  }

  /** A replaced byte is the letter the generator is at, counting replaced bytes in listing order. */
  lemma {:induction false} TextBecomesLetters(f: File, m: BlockMap, seed: State, k: nat, p: nat)
    requires AllFit(f, Listing(m)) && TextApart(f, m) && k < |m.blocks| && p < |f|
    requires TextAt(f, Listing(m)[k], Protected(f, Listing(m)), p)
    ensures Scrambled(f, Listing(m), seed)[p] == Due(f, Listing(m), Protected(f, Listing(m)), seed, k, p)
  {
    hide After, AllFit, Protected, TextAt, Scrambled, Due;
    ScrambledIsAfter(f, Listing(m), seed);
    LetterStands(f, Listing(m), Protected(f, Listing(m)), seed, k, |m.blocks|, p);
  }

  lemma {:induction false} LettersAreContent(style: Style, b: byte)
    requires 65 <= b <= 90
    ensures Content(style, b)
  {
  }

  lemma {:induction false} OutputIsTwin(f: File, m: BlockMap, seed: State)
    requires AllFit(f, Listing(m)) && TextApart(f, m)
    ensures TwinOf(f, Scrambled(f, Listing(m), seed), m)
  {
    hide AllFit, Protected, TextAt, Scrambled, Due, Apart, Content;
    var bs, protected, out := Listing(m), Protected(f, Listing(m)), Scrambled(f, Listing(m), seed);
    forall p | 0 <= p < |f| && !IsReplaced(f, bs, protected, |bs|, p) ensures f[p] == out[p] {
      OnlyTextChanges(f, m, seed, p);
    }
    forall k, p: nat | 0 <= k < |bs| && p < |out| && TextAt(f, bs[k], protected, p)
      ensures Content(StyleOf(bs[k]), out[p])
    {
      TextBecomesLetters(f, m, seed, k, p);
      LettersAreContent(StyleOf(bs[k]), out[p]);
    }
  }

  /** Text a conversion reads to produce numbers, and every block that is not text, keeps its data section. */
  lemma {:induction false} OtherBlocksKept(f: File, m: BlockMap, seed: State, k: nat)
    requires AllFit(f, Listing(m)) && TextApart(f, m) && k < |m.blocks|
    requires Spans(f, Listing(m)[k])
    requires !IsText(Listing(m)[k]) || Listing(m)[k].address in Protected(f, Listing(m))
    ensures Data(Scrambled(f, Listing(m), seed), Listing(m)[k]) == Data(f, Listing(m)[k])
  {
    hide AllFit, Protected, Scrambled, Apart, Twins;
    OutputIsTwin(f, m, seed);
    OtherDataSame(f, Scrambled(f, Listing(m), seed), Listing(m), Protected(f, Listing(m)), k);
  }

  /** Scrambled text keeps its length, its terminator and, in a ##MD block, its tags. */
  lemma {:induction false} TextKeepsItsShape(f: File, m: BlockMap, seed: State, k: nat, i: nat)
    requires AllFit(f, Listing(m)) && TextApart(f, m) && k < |m.blocks|
    requires IsTarget(Listing(m)[k], Protected(f, Listing(m))) && Spans(f, Listing(m)[k])
    requires i < Listing(m)[k].dataSize
    ensures var style := StyleOf(Listing(m)[k]);
            var d, e := Data(f, Listing(m)[k]), Data(Scrambled(f, Listing(m), seed), Listing(m)[k]);
            && TextEnd(e) == TextEnd(d)
            && (Replaced(style, e, i) <==> Replaced(style, d, i))
            && (!Replaced(style, d, i) ==> e[i] == d[i])
            && (style == Markup ==> (InTag(e, i) <==> InTag(d, i)))
  {
    hide AllFit, Protected, Scrambled, Apart, Twins, Replaced, InTag, TextEnd, Data;
    OutputIsTwin(f, m, seed);
    var b, out := Listing(m)[k], Scrambled(f, Listing(m), seed);
    SectionsAreTwins(f, out, Listing(m), Protected(f, Listing(m)), k);
    ShapeEnd(StyleOf(b), Data(f, b), Data(out, b));
    ShapeReplaced(StyleOf(b), Data(f, b), Data(out, b), i);
    if StyleOf(b) == Markup { ShapeTags(Data(f, b), Data(out, b), i); }
  }

  // ---------------------------------------------------------------- by block type and bytes

  /** A zero comes at or before byte `i`. */
  predicate Terminated(d: seq<byte>, i: nat)
    requires i < |d|
  {
    exists z :: 0 <= z <= i && d[z] == 0
  }

  /** A `<` comes before byte `i`, with no `>` between. */
  predicate Opened(d: seq<byte>, i: nat)
    requires i < |d|
  {
    exists j :: 0 <= j < i && d[j] == 60 && forall m :: j < m < i ==> d[m] != 62
  }

  lemma {:induction false} EndIsZero(d: seq<byte>, i: nat)
    requires i < |d|
    ensures i < TextEnd(d) <==> !Terminated(d, i)
  {
    if TextEnd(d) <= i { assert d[TextEnd(d)] == 0 && Terminated(d, i); }
  }

  lemma {:induction false} TagIsOpened(d: seq<byte>, i: nat)
    requires i < |d|
    ensures InTag(d, i) <==> Opened(d, i)
  {
    if i != 0 {
      TagIsOpened(d, i - 1);
      if d[i - 1] == 60 {
        assert Opened(d, i);
      } else if Opened(d, i - 1) && d[i - 1] != 62 {
        var j :| 0 <= j < i - 1 && d[j] == 60 && forall m :: j < m < i - 1 ==> d[m] != 62;
        assert Opened(d, i);
      }
    }
  }

  /** What becomes of a byte of an unprotected text block. In a ##TX block every byte before the terminator becomes a capital
      letter. In a ##MD block the angle brackets, what is between a `<` and its `>`, and white space stay, and every other byte
      before the terminator becomes a capital letter. Everything from the terminator on stays. */
  lemma {:induction false} TextByType(f: File, m: BlockMap, seed: State, k: nat, i: nat)
    requires AllFit(f, Listing(m)) && TextApart(f, m) && k < |m.blocks|
    requires var b := m.blocks[k].block; Spans(f, b) && b.address !in Protected(f, Listing(m)) && i < b.dataSize
    ensures var b := m.blocks[k].block;
      var d, e := Data(f, b)[i], Data(Scrambled(f, Listing(m), seed), b)[i];
      && (b.blockType == [35, 35, 84, 88] ==> if Terminated(Data(f, b), i) then e == d else 65 <= e <= 90)
      && (b.blockType == [35, 35, 77, 68] ==>
            if Terminated(Data(f, b), i) || Opened(Data(f, b), i) || d in {60, 62} || d in {9, 10, 12, 13, 32} then e == d
            else 65 <= e <= 90)
  {
    hide AllFit, Protected, Scrambled, Apart, InTag, TextEnd, Terminated, Opened;
    var b := m.blocks[k].block;
    var bs, protected, out := Listing(m), Protected(f, Listing(m)), Scrambled(f, Listing(m), seed);
    var p := DataStart(b) + i;
    EndIsZero(Data(f, b), i);
    TagIsOpened(Data(f, b), i);
    assert bs[k] == b && Data(f, b)[i] == f[p] && Data(out, b)[i] == out[p];
    assert TX == [35, 35, 84, 88] && MD == [35, 35, 77, 68] && TX[2] != MD[2];
    if b.blockType == TX || b.blockType == MD {
      if TextAt(f, bs[k], protected, p) {
        LetterIsCapital(f, m, seed, k, p);
      } else {
        NobodysText(f, bs, protected, k, p);
        OnlyTextChanges(f, m, seed, p);
      }
    }
  }

  lemma {:induction false} LetterIsCapital(f: File, m: BlockMap, seed: State, k: nat, p: nat)
    requires AllFit(f, Listing(m)) && TextApart(f, m) && k < |m.blocks| && p < |f|
    requires TextAt(f, Listing(m)[k], Protected(f, Listing(m)), p)
    ensures 65 <= Scrambled(f, Listing(m), seed)[p] <= 90
  {
    hide AllFit, Protected, TextAt, Scrambled, Due, Apart;
    TextBecomesLetters(f, m, seed, k, p);
  }

  /** The addresses no replacement touches: of the conversions listed whole, the formula of one of type 3, every reference of
      one of type 9, and every other reference of one of type 10. */
  lemma {:induction false} ProtectedByType(f: File, m: BlockMap, a: nat)
    requires AllFit(f, Listing(m))
    ensures a in Protected(f, Listing(m)) <==> a != 0 && exists k :: 0 <= k < |m.blocks| && RefersToKey(f, m.blocks[k].block, a)
  {
    hide RefersToKey, KeysOf, AllKeys;
    ProtectedExactly(f, Listing(m), |m.blocks|, a);
    forall k | 0 <= k < |m.blocks| ensures a in KeysOf(f, Listing(m)[k]) <==> RefersToKey(f, m.blocks[k].block, a) {
      KeysByType(f, m.blocks[k].block, a);
    }
  }

  predicate RefersToKey(f: File, b: Fields, a: nat) {
    exists i :: 0 <= i < |b.links| - 4 && KeyByType(f, b, i) && b.links[4 + i] == a
  }

  /** Reference `i` of a conversion block that is there whole, with its numbers, decides numbers. */
  predicate KeyByType(f: File, b: Fields, i: nat) {
    && b.blockType == [35, 35, 67, 67] && Spans(f, b) && b.length >= 80
    && b.dataSize >= 24 && b.dataSize >= 24 + 8 * (Data(f, b)[6] as int + 256 * (Data(f, b)[7] as int))
    && (Data(f, b)[0] == 9 || (Data(f, b)[0] == 3 && i == 0) || (Data(f, b)[0] == 10 && i % 2 == 0))
  }

  lemma {:induction false} KeysByType(f: File, b: Fields, a: nat)
    ensures a in KeysOf(f, b) <==> RefersToKey(f, b, a)
  {
    assert CC == [35, 35, 67, 67];
    if b.blockType == CC && Spans(f, b) && b.dataSize >= 24 {
      FromTwo(Data(f, b)[6..8]);
      if a in KeysOf(f, b) {
        var i: nat :| i < |References(b)| && IsKey(Data(f, b)[0], i) && References(b)[i] == a;
        assert b.links[4 + i] == a && KeyByType(f, b, i);
      }
      if i :| 0 <= i < |b.links| - 4 && KeyByType(f, b, i) && b.links[4 + i] == a {
        assert References(b)[i] == a;
      }
    }
  }

  // ---------------------------------------------------------------- links that lead to no block

  /** Scrambling cannot turn what is at `t` into a block: there is no room for a header, or no ## mark,
      or the mark itself is replaced, or the header is not touched. */
  ghost predicate HeaderSafe(f: File, m: BlockMap, t: nat) {
    || t + BLOCK_HEADER_SIZE > |f|
    || f[t] != HASH || f[t + 1] != HASH
    || ReplacedIn(f, m, t) || ReplacedIn(f, m, t + 1)
    || forall p: nat :: t <= p < t + BLOCK_HEADER_SIZE ==> !ReplacedIn(f, m, p)
  }

  ghost predicate StraysSafe(f: File, m: BlockMap) {
    forall r: nat, t: nat :: Followed(GraphOf(f), r, t) && Judge(f, t).Rejected? ==> HeaderSafe(f, m, t)
  }

  /** A replaced byte is never the mark of a block. */
  lemma {:induction false} LetterIsNoMark(f: File, m: BlockMap, seed: State, p: nat)
    requires AllFit(f, Listing(m)) && TextApart(f, m) && p < |f|
    requires ReplacedIn(f, m, p)
    ensures Scrambled(f, Listing(m), seed)[p] != HASH
  {
    hide AllFit, Protected, TextAt, Scrambled, Due, Apart;
    var k :| 0 <= k < |m.blocks| && TextAt(f, Listing(m)[k], Protected(f, Listing(m)), p);
    TextBecomesLetters(f, m, seed, k, p);
  }

  lemma {:induction false} MarkStaysAway(f: File, m: BlockMap, seed: State, p: nat)
    requires AllFit(f, Listing(m)) && TextApart(f, m) && p < |f|
    requires f[p] != HASH || ReplacedIn(f, m, p)
    ensures Scrambled(f, Listing(m), seed)[p] != HASH
  {
    hide AllFit, Scrambled, TextApart, ReplacedIn;
    if ReplacedIn(f, m, p) { LetterIsNoMark(f, m, seed, p); } else { OnlyTextChanges(f, m, seed, p); }
  }

  lemma {:induction false} SafeStaysRejected(f: File, m: BlockMap, seed: State, t: nat)
    requires AllFit(f, Listing(m)) && TextApart(f, m) && HeaderSafe(f, m, t) && Judge(f, t).Rejected?
    ensures Judge(Scrambled(f, Listing(m), seed), t).Rejected?
  {
    hide AllFit, Scrambled, TextApart, ReplacedIn, FromLe;
    var out := Scrambled(f, Listing(m), seed);
    if t + BLOCK_HEADER_SIZE <= |f| {
      if f[t] != HASH || ReplacedIn(f, m, t) {
        MarkStaysAway(f, m, seed, t);
      } else if f[t + 1] != HASH || ReplacedIn(f, m, t + 1) {
        MarkStaysAway(f, m, seed, t + 1);
      } else {
        forall p | t <= p < t + BLOCK_HEADER_SIZE ensures f[p] == out[p] {
          OnlyTextChanges(f, m, seed, p);
        }
        JudgedTheSame(f, out, t);
      }
    }
  }

  lemma {:induction false} SafeStraysAreKept(f: File, m: BlockMap, seed: State)
    requires AllFit(f, Listing(m)) && TextApart(f, m) && StraysSafe(f, m)
    ensures StraysKept(f, Scrambled(f, Listing(m), seed))
  {
    hide AllFit, Scrambled, TextApart, HeaderSafe, Followed, Judge, GraphOf;
    forall r: nat, t: nat | Followed(GraphOf(f), r, t) && Judge(f, t).Rejected?
      ensures Judge(Scrambled(f, Listing(m), seed), t).Rejected?
    {
      SafeStaysRejected(f, m, seed, t);
    }
  }

  // ---------------------------------------------------------------- what a stray header will say

  /** The checks a header's bytes are put to, at address `t` of a file of `size` bytes. */
  function Spells(header: seq<byte>, t: nat, size: nat): Verdict
    requires |header| == BLOCK_HEADER_SIZE
  {
    if header[0] != HASH || header[1] != HASH then Rejected(NotABlock)
    else if FromLe(header[8..16]) < BLOCK_HEADER_SIZE then Rejected(BadHeader)
    else if 8 * FromLe(header[16..24]) + BLOCK_HEADER_SIZE > FromLe(header[8..16]) then Rejected(BadHeader)
    else if t + FromLe(header[8..16]) > size then Rejected(Overruns)
    else Block
  }

  lemma {:induction false} JudgeReadsHeader(f: File, t: nat)
    requires t + BLOCK_HEADER_SIZE <= |f|
    ensures Judge(f, t) == Spells(f[t..t + BLOCK_HEADER_SIZE], t, |f|)
  {
    hide FromLe;
    var header := f[t..t + BLOCK_HEADER_SIZE];
    assert header[0] == f[t] && header[1] == f[t + 1];
    assert header[8..16] == f[t + 8..t + 16] && header[16..24] == f[t + 16..t + 24];
  }

  /** The byte that will be at `p`: the letter due there if it is replaced, its own otherwise. */
  ghost function ByteDue(f: File, m: BlockMap, seed: State, p: nat): byte
    requires AllFit(f, Listing(m)) && p < |f|
  {
    if k :| 0 <= k < |m.blocks| && TextAt(f, Listing(m)[k], Protected(f, Listing(m)), p)
    then Due(f, Listing(m), Protected(f, Listing(m)), seed, k, p) else f[p]
  }

  ghost function HeaderDue(f: File, m: BlockMap, seed: State, t: nat): (header: seq<byte>)
    requires AllFit(f, Listing(m)) && t + BLOCK_HEADER_SIZE <= |f|
    ensures |header| == BLOCK_HEADER_SIZE
  {
    seq<byte>(BLOCK_HEADER_SIZE, i requires 0 <= i < BLOCK_HEADER_SIZE => ByteDue(f, m, seed, t + i))
  }

  /** With the letters due put in, the header at `t` spells no block. */
  ghost predicate SpellsNone(f: File, m: BlockMap, seed: State, t: nat)
    requires AllFit(f, Listing(m))
  {
    t + BLOCK_HEADER_SIZE <= |f| ==> Spells(HeaderDue(f, m, seed, t), t, |f|).Rejected?
  }

  /** No link of the file that leads to no block will find a header there that spells one. */
  ghost predicate StraysSpellNone(f: File, m: BlockMap, seed: State)
    requires AllFit(f, Listing(m))
  {
    forall r: nat, t: nat :: Followed(GraphOf(f), r, t) && Judge(f, t).Rejected? ==> SpellsNone(f, m, seed, t)
  }

  lemma {:induction false} ByteComesDue(f: File, m: BlockMap, seed: State, p: nat)
    requires AllFit(f, Listing(m)) && TextApart(f, m) && p < |f|
    ensures Scrambled(f, Listing(m), seed)[p] == ByteDue(f, m, seed, p)
  {
    hide AllFit, Protected, TextAt, Scrambled, Due, Apart;
    if ReplacedIn(f, m, p) {
      var k :| 0 <= k < |m.blocks| && TextAt(f, Listing(m)[k], Protected(f, Listing(m)), p)
            && ByteDue(f, m, seed, p) == Due(f, Listing(m), Protected(f, Listing(m)), seed, k, p);
      TextBecomesLetters(f, m, seed, k, p);
    } else {
      OnlyTextChanges(f, m, seed, p);
    }
  }

  lemma {:induction false} StrayAsSpelt(f: File, m: BlockMap, seed: State, t: nat)
    requires AllFit(f, Listing(m)) && TextApart(f, m)
    ensures Judge(Scrambled(f, Listing(m), seed), t).Rejected? <==> SpellsNone(f, m, seed, t)
  {
    hide AllFit, Scrambled, TextApart, ByteDue, Spells;
    var out := Scrambled(f, Listing(m), seed);
    if t + BLOCK_HEADER_SIZE <= |f| {
      forall i | 0 <= i < BLOCK_HEADER_SIZE ensures out[t..t + BLOCK_HEADER_SIZE][i] == HeaderDue(f, m, seed, t)[i] {
        ByteComesDue(f, m, seed, t + i);
      }
      assert out[t..t + BLOCK_HEADER_SIZE] == HeaderDue(f, m, seed, t);
      JudgeReadsHeader(out, t);
    }
  }

  lemma {:induction false} KeptIsSpelt(f: File, m: BlockMap, seed: State)
    requires AllFit(f, Listing(m)) && TextApart(f, m)
    ensures StraysKept(f, Scrambled(f, Listing(m), seed)) <==> StraysSpellNone(f, m, seed)
  {
    hide AllFit, Scrambled, TextApart, SpellsNone, Followed, Judge, GraphOf;
    forall t: nat ensures Judge(Scrambled(f, Listing(m), seed), t).Rejected? <==> SpellsNone(f, m, seed, t) {
      StrayAsSpelt(f, m, seed, t);
    }
  }

  /** Stray links whose headers are safe spell no block, whatever the seed. */
  lemma {:induction false} SafeStraysSpellNone(f: File, m: BlockMap, seed: State)
    requires AllFit(f, Listing(m)) && TextApart(f, m) && StraysSafe(f, m)
    ensures StraysSpellNone(f, m, seed)
  {
    hide AllFit, TextApart, StraysSafe, StraysSpellNone, Scrambled, StraysKept;
    SafeStraysAreKept(f, m, seed);
    KeptIsSpelt(f, m, seed);
  }

  // ---------------------------------------------------------------- the whole file

  /** Scrambling keeps structure: the walk of the output lists the same blocks, with the same types, lengths
      and links. */
  lemma {:induction false} StructureIsKept(f: File, m: BlockMap, seed: State, m2: BlockMap)
    requires SawAll(f, m) && TextApart(f, m) && AllFit(f, Listing(m)) && StraysSpellNone(f, m, seed)
    requires Describes(Scrambled(f, Listing(m), seed), m2)
    ensures Listing(m2) == Listing(m)
  {
    hide AllFit, Scrambled, Protected, Describes, Refused, StraysKept, StraysSpellNone, Apart, Twins;
    OutputIsTwin(f, m, seed);
    KeptIsSpelt(f, m, seed);
    TwinsListTheSame(f, Scrambled(f, Listing(m), seed), m, m2);
  }

  /** Scrambling the output again with the same seed changes nothing. */
  lemma {:induction false} SecondRunChangesNothing(f: File, m: BlockMap, seed: State, m2: BlockMap)
    requires SawAll(f, m) && TextApart(f, m) && AllFit(f, Listing(m)) && StraysSpellNone(f, m, seed)
    requires Describes(Scrambled(f, Listing(m), seed), m2)
    ensures AllFit(Scrambled(f, Listing(m), seed), Listing(m2))
    ensures Scrambled(Scrambled(f, Listing(m), seed), Listing(m2), seed) == Scrambled(f, Listing(m), seed)
  {
    hide AllFit, Scrambled, Protected, Describes, Refused, StraysKept, StraysSpellNone, Apart, Twins;
    OutputIsTwin(f, m, seed);
    KeptIsSpelt(f, m, seed);
    ReplacedTextDoesNotShow(f, Scrambled(f, Listing(m), seed), m, m2, seed);
  }

  /** Exactly: with text apart from other blocks, the listing is kept if and only if no link that leads to no block
      will find one spelt by the bytes there and the letters due among them. */
  lemma {:induction false} StructureIsKeptExactly(f: File, m: BlockMap, seed: State, m2: BlockMap)
    requires SawAll(f, m) && TextApart(f, m)
    requires AllFit(f, Listing(m)) && Describes(Scrambled(f, Listing(m), seed), m2)
    ensures Listing(m2) == Listing(m) <==> StraysSpellNone(f, m, seed)
  {
    hide AllFit, Scrambled, Protected, Describes, Refused, StraysKept, StraysSpellNone, Apart, Twins;
    OutputIsTwin(f, m, seed);
    KeptIsSpelt(f, m, seed);
    if StraysKept(f, Scrambled(f, Listing(m), seed)) {
      TwinsListTheSame(f, Scrambled(f, Listing(m), seed), m, m2);
    }
    if Listing(m2) == Listing(m) {
      SameListingKeepsStrays(f, Scrambled(f, Listing(m), seed), m, m2);
    }
  }

  lemma {:induction false} SameListingKeepsStrays(f: File, h: File, m: BlockMap, m2: BlockMap)
    requires SawAll(f, m) && Describes(h, m2) && TextApart(f, m) && TwinOf(f, h, m)
    requires Listing(m2) == Listing(m)
    ensures StraysKept(f, h)
  {
    hide Protected, Refused, Apart, Twins, GraphOf, TrueEntry, Judge, Listed, WarnsExactly, StoppedShort, GapsExactly, SaturatingSum;
    hide EntriesKept, Reachable, Edge;
    AllEntriesKept(f, h, m);
    GraphCarried(f, h, m);
    NotStopped(h, m2);
    SawAllMeans(f, m);
    forall r: nat, t: nat | Followed(GraphOf(f), r, t) && Judge(f, t).Rejected? ensures Judge(h, t).Rejected? {
      if Judge(h, t).Block? {
        StrayWouldBeListed(f, h, r, t);
        NewBlockIsListed(f, h, m, m2, t);
      }
    }
  }

  lemma {:induction false} StrayWouldBeListed(f: File, h: File, r: nat, t: nat)
    requires Carried(GraphOf(f), GraphOf(h)) && Followed(GraphOf(f), r, t) && Judge(h, t).Block?
    ensures Reachable(GraphOf(h), t) && t != 0
  {
    hide Judge, BlockFields, IdFields;
    var g, g' := GraphOf(f), GraphOf(h);
    assert g'.verdict(t) == Judge(h, t);
    if r == 0 && t == ID_BLOCK_SIZE {
      ReachableRoot(g');
    } else {
      var steps: nat :| ReachesIn(g, r, steps);
      ReachedStill(g, g', r, steps);
      assert Edge(g', r, t);
      ReachableStep(g', r, t);
    }
  }

  lemma {:induction false} NewBlockIsListed(f: File, h: File, m: BlockMap, m2: BlockMap, t: nat)
    requires SawAll(f, m) && True(h, m2) && ListsEverything(GraphOf(h), m2) && Listing(m2) == Listing(m)
    requires Reachable(GraphOf(h), t) && t != 0
    ensures Judge(f, t).Block?
  {
    hide Refused, TrueEntry, Reachable, Edge, Describes, GraphOf;
    SawAllMeans(f, m);
    var k := ListedEntry(h, m2, t);
    assert Listing(m)[k].address == t;
    assert m.blocks[k] in m.blocks && Listed(m, t);
    var k' := ListedEntry(f, m, t);
    ReachableIsBlock(f, t);
  }

  lemma {:induction false} ReachableIsBlock(f: File, a: nat)
    requires Reachable(GraphOf(f), a)
    ensures Judge(f, a).Block?
  {
    var steps: nat :| ReachesIn(GraphOf(f), a, steps);
  }
}
