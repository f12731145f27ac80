/** What a written conversion reads back as, and when that is the conversion itself. */
module ConversionLaws {
  import opened Bytes
  import opened Options
  import opened WriterModel
  import opened BlockFormat
  import opened FileLayout
  import opened FileBlocks
  import opened FileMeaning
  import opened Conversions
  import Scramble
  import BlockWalk
  import Float64
  import WrittenFile
  import RecordStream
  import FileRegions
  import FileWriter

  // ---------------------------------------------------------------- two readers of one block

  /** Scrambling collects keys from exactly the conversion blocks that a reader of the file can parse. */
  lemma {:induction false} SameParser(f: File, a: nat)
    requires BlockWalk.Judge(f, a).Block? && f[a..a + 4] == [35, 35, 67, 67]
    ensures Scramble.Spans(f, BlockWalk.BlockFields(f, a))
    ensures Scramble.CcParses(f, BlockWalk.BlockFields(f, a)) <==> ReadCc(f, a).Ok?
  {
    hide FromLe;
    var b := BlockWalk.BlockFields(f, a);
    var d := a + 24 + 8 * |b.links|;
    SameHeader(f, a);
    if b.dataSize >= 24 { assert Scramble.Data(f, b)[6..8] == f[d + 6..d + 8]; }
  }

  lemma {:induction false} SameHeader(f: File, a: nat)
    requires BlockWalk.Judge(f, a).Block?
    ensures var b := BlockWalk.BlockFields(f, a); ReadHeader(f, a) == Ok(Header(f[a..a + 4], b.length, |b.links|))
  {
    hide FromLe;
  }

  // ---------------------------------------------------------------- what is not stored

  /** A linear rule is left out exactly where it adds zero, of either sign, to one times the value. */
  lemma {:induction false} IdentityByValue(offset: nat, factor: nat)
    requires offset < U64_LIMIT && factor < U64_LIMIT
    ensures PlanOf(Linear(offset, factor)) == Ok(None)
       <==> Float64.IsFinite(offset) && Float64.IsFinite(factor)
            && Float64.Meaning(offset) == 0 && Float64.Meaning(factor) == 0x10_0000_0000_0000 * Power2(1022)
  {
    hide Power2;
    Float64.PartsOf(offset);
    Float64.PartsOf(factor);
    if factor == F64_ONE {
      assert Float64.Exponent(factor) == 1023 && Float64.Fraction(factor) == 0;
    } else if Float64.IsFinite(factor) {
      assert Float64.IsFinite(F64_ONE) && Float64.Meaning(F64_ONE) == 0x10_0000_0000_0000 * Power2(1022);
      Float64.OrderIsNumeric(factor, F64_ONE);
      Float64.OrderIsNumeric(F64_ONE, factor);
    }
    OnlyZeros(offset);
  }

  lemma {:induction false} OnlyZeros(bits: nat)
    requires bits < U64_LIMIT
    ensures Float64.IsFinite(bits) && Float64.Meaning(bits) == 0 <==> bits == 0 || bits == 0x8000_0000_0000_0000
  {
    hide Power2;
    Float64.PartsOf(bits);
    if Float64.IsFinite(bits) && Float64.Exponent(bits) > 0 { Product(Float64.HIDDEN + Float64.Fraction(bits), Power2(Float64.Exponent(bits) - 1)); }
  }

  lemma {:induction false} Product(a: nat, b: nat)
    requires a > 0 && b > 0
    ensures a * b > 0
  {
  }

  // ---------------------------------------------------------------- the counts a conversion declares

  /** The two counts in a conversion's body are true exactly when both fit the sixteen bits they are written in. */
  lemma {:induction false} CountsTrueExactly(at: nat, plan: CcPlan)
    ensures var body := CcBlk(at, plan).body;
      (FromLe(body[4..6]) == |plan.refs| && FromLe(body[6..8]) == |plan.values|)
      <==> |plan.refs| < 0x1_0000 && |plan.values| < 0x1_0000
  {
    hide FromLe, Le, Words, Zeros;
    CountsDeclared(at, plan);
  }

  lemma {:induction false} CountsDeclared(at: nat, plan: CcPlan)
    ensures var body := CcBlk(at, plan).body;
      && FromLe(body[4..6]) == |plan.refs| % 0x1_0000 && FromLe(body[6..8]) == |plan.values| % 0x1_0000
      && body[0] == plan.ccType && body[24..] == Words(plan.values)
  {
    hide FromLe, Le, Words;
    var body := CcBlk(at, plan).body;
    TwoBytes(|plan.refs|);
    TwoBytes(|plan.values|);
    assert body[4..6] == Le(|plan.refs|, 2) && body[6..8] == Le(|plan.values|, 2);
  }

  lemma {:induction false} TwoBytes(n: nat)
    ensures FromLe(Le(n, 2)) == n % 0x1_0000
  {
    var s := Le(n, 2);
    assert Le(n / 256, 1) == [n / 256 % 256] + Le(n / 256 / 256, 0);
    assert s == [n % 256, n / 256 % 256];
    assert s[1..][1..] == [];
    assert FromLe(s[1..]) == n / 256 % 256;
  }

  // ---------------------------------------------------------------- blocks standing in a file

  /** The bytes of `b` are in the file at `a`. */
  ghost predicate InFile(f: File, a: nat, b: Blk) {
    a + Size(b) <= |f| && f[a..a + Size(b)] == BlkBytes(b)
  }

  lemma {:induction false} StandingIsInFile(f: File, id: seq<byte>, blocks: seq<Blk>, a: nat, b: Blk)
    requires |id| == ID_SIZE && f == id + Serialized(blocks) && Stands(ID_SIZE, blocks, a, b)
    ensures a >= ID_SIZE && InFile(f, a, b)
  {
    hide Serialized, BlkBytes;
    var i :| 0 <= i < |blocks| && blocks[i] == b && ID_SIZE + Extent(blocks[..i]) == a;
    WrittenFile.BlockIsThere(f, id, blocks, i);
  }

  lemma {:induction false} HeaderIsRead(f: File, a: nat, b: Blk)
    requires InFile(f, a, b) && Honest(b) && |f| < U64_LIMIT
    ensures ReadHeader(f, a) == Ok(Header(KindId(b.kind), Size(b), |b.links|))
  {
    hide BlkBytes, FromLe;
    WrittenFile.HeaderReadsBack(f, a, b);
  }

  lemma {:induction false} BodyIsRead(f: File, a: nat, b: Blk, from: nat, to: nat)
    requires InFile(f, a, b) && from <= to <= |b.body|
    ensures f[a + 24 + 8 * |b.links| + from..a + 24 + 8 * |b.links| + to] == b.body[from..to]
  {
    hide BlkBytes;
    BodyIsLast(b);
    var d := 24 + 8 * |b.links|;
    forall k | 0 <= k < to - from ensures f[a + d + from..a + d + to][k] == b.body[from..to][k] {
      assert f[a..a + Size(b)][d + from + k] == f[a + d + from + k];
      assert BlkBytes(b)[d..][from + k] == BlkBytes(b)[d + from + k];
    }
  }

  lemma {:induction false} BodyIsLast(b: Blk)
    ensures BlkBytes(b)[24 + 8 * |b.links|..] == b.body
  {
    hide LinkBytes, Le64, KindId, Zeros;
    var head := KindId(b.kind) + Zeros(4) + Le64(b.length) + Le64(b.linkCount) + LinkBytes(b.links);
    assert BlkBytes(b) == head + b.body;
  }

  lemma {:induction false} WordIsRead(values: seq<nat>, k: nat)
    requires k < |values|
    ensures Words(values)[8 * k..8 * k + 8] == Le64(values[k])
  {
    hide Le64;
    var n := |values| - 1;
    if k < n {
      WordIsRead(values[..n], k);
      assert Words(values)[8 * k..8 * k + 8] == Words(values[..n])[8 * k..8 * k + 8];
    }
  }

  /** Texts read back up to a NUL and without the white space around them. */
  lemma {:induction false} TextIsRead(f: File, o: Outside, a: nat, text: Text)
    requires InFile(f, a, TxBlk(text)) && a != 0 && |f| < U64_LIMIT
    ensures f[a..a + 4] == Scramble.TX && ReadText(f, o, a) == Ok(Shown(text))
  {
    hide BlkBytes, ReadHeader, Trim, Scramble.TextEnd;
    var b := TxBlk(text);
    HeaderIsRead(f, a, b);
    WrittenFile.HeaderReadsBack(f, a, b);
    BodyIsRead(f, a, b, 0, |b.body|);
    assert KindId(TX) == Scramble.TX;
    assert b.body[0..|b.body|] == text + [0];
    assert f[a + 24..a + Size(b)] == text + [0];
    TerminatorAdded(text);
  }

  lemma {:induction false} TerminatorAdded(text: Text)
    ensures Shown(text + [0]) == Shown(text)
  {
    hide Trim;
    EndWithTerminator(text);
    assert (text + [0])[..Scramble.TextEnd(text)] == text[..Scramble.TextEnd(text)];
  }

  lemma {:induction false} EndWithTerminator(text: Text)
    ensures Scramble.TextEnd(text + [0]) == Scramble.TextEnd(text)
  {
    if text != [] {
      assert (text + [0])[1..] == text[1..] + [0];
      EndWithTerminator(text[1..]);
    }
  }

  // ---------------------------------------------------------------- a conversion block

  /** Every number has 64 bits. */
  predicate Numbers(values: seq<nat>) {
    forall i :: 0 <= i < |values| ==> values[i] < U64_LIMIT
  }

  lemma {:induction false} WordsAreRead(f: File, at: nat, values: seq<nat>, n: nat)
    requires Numbers(values) && n <= |values| && at + 8 * |values| <= |f|
    requires f[at..at + 8 * |values|] == Words(values)
    ensures WordsAt(f, at, n) == values[..n]
  {
    hide FromLe, Le64, Words;
    forall k | 0 <= k < n ensures WordsAt(f, at, n)[k] == values[k] {
      WordIsRead(values, k);
      SliceOfSlice(f, at, Words(values), 8 * k, 8);
      Le64RoundTrip(values[k]);
    }
  }

  ghost predicate LinksFit(links: seq<Link>) {
    forall k :: 0 <= k < |links| ==> Offset(links[k]) < U64_LIMIT
  }

  lemma {:induction false} ReferencesAreRead(f: File, a: nat, b: Blk)
    requires InFile(f, a, b) && |b.links| >= 4 && LinksFit(b.links)
    ensures WordsAt(f, a + 56, |b.links| - 4) == WrittenFile.Offsets(b.links[4..])
  {
    hide FromLe, BlkBytes;
    forall k | 0 <= k < |b.links| - 4 ensures WordsAt(f, a + 56, |b.links| - 4)[k] == WrittenFile.Offsets(b.links[4..])[k] {
      WrittenFile.LinkReadsBack(f, a, b, 4 + k);
      assert a + 24 + 8 * (4 + k) == a + 56 + 8 * k;
    }
  }

  /** A conversion block reads back with all its references, and as many numbers as its truncated count declares. */
  lemma {:induction false} CcIsRead(f: File, a: nat, plan: CcPlan)
    requires InFile(f, a, CcBlk(a, plan)) && |f| < U64_LIMIT && Numbers(plan.values)
    requires LinksFit(RefLinks(plan.refs, a + CcSize(plan)))
    ensures ReadCc(f, a) == Ok(CcRead(plan.ccType, WrittenFile.Offsets(RefLinks(plan.refs, a + CcSize(plan))),
                                      |plan.refs| % 0x1_0000, |plan.values| % 0x1_0000,
                                      plan.values[..|plan.values| % 0x1_0000]))
  {
    hide BlkBytes, ReadHeader, FromLe, Words, RefLinks, InFile, Le, WordsAt;
    var b, n := CcBlk(a, plan), |plan.values| % 0x1_0000;
    var d := a + 24 + 8 * |b.links|;
    HeaderIsRead(f, a, b);
    CountsDeclared(a, plan);
    InRangeOf(f, a, b);
    BodyIsRead(f, a, b, 0, 1);
    BodyIsRead(f, a, b, 4, 6);
    BodyIsRead(f, a, b, 6, 8);
    assert f[d] == f[d..d + 1][0];
    CcNumbers(f, a, plan, n);
    assert b.links[4..] == RefLinks(plan.refs, a + CcSize(plan));
    ReferencesAreRead(f, a, b);
    assert KindId(CC) == Scramble.CC;
  }

  lemma {:induction false} CcNumbers(f: File, a: nat, plan: CcPlan, n: nat)
    requires InFile(f, a, CcBlk(a, plan)) && Numbers(plan.values) && n <= |plan.values|
    ensures var d := a + 24 + 8 * |CcBlk(a, plan).links| + 24;
      d + 8 * |plan.values| == a + Size(CcBlk(a, plan)) <= |f| && WordsAt(f, d, n) == plan.values[..n]
  {
    hide BlkBytes, Words, RefLinks, Le, FromLe;
    var b := CcBlk(a, plan);
    CountsDeclared(a, plan);
    BodyIsRead(f, a, b, 24, |b.body|);
    assert b.body[24..|b.body|] == b.body[24..];
    WordsAreRead(f, a + 24 + 8 * |b.links| + 24, plan.values, n);
  }

  lemma {:induction false} InRangeOf(f: File, a: nat, b: Blk)
    requires InFile(f, a, b)
    ensures a + Size(b) <= |f|
  {
  }

  // ---------------------------------------------------------------- what is recovered

  /** What the types of the fields make sure of. */
  predicate Valid(c: Conversion) {
    match c
    case Linear(offset, factor) => offset < U64_LIMIT && factor < U64_LIMIT
    case Rational(coefficients) => |coefficients| == 6 && Numbers(coefficients)
    case Table(_, keys, values) => Numbers(keys) && Numbers(values)
    case ValueToText(keys, _, _) => Numbers(keys)
    case _ => true
  }

  function ShownEntry(e: Entry): Entry {
    match e
    case Label(text) => Label(Shown(text))
    case Nested(_) => e
  }

  function ShownEntries(entries: seq<Entry>): (shown: seq<Entry>)
    ensures |shown| == |entries|
  {
    seq(|entries|, i requires 0 <= i < |entries| => ShownEntry(entries[i]))
  }

  /** What is read of a conversion that was written. A count of numbers is kept modulo 65536; behind the keys that are
      left stands the label of the next key, which is taken for the default. */
  function Recovered(c: Conversion, o: Outside): Conversion {
    match c
    case Linear(_, _) => if IsIdentity(c) then Identity else c
    case Algebraic(formula) => if o.parses(Shown(formula)) then Algebraic(Shown(formula)) else Unsupported(3)
    case Table(interpolated, keys, values) =>
      var n := |keys| % 0x8000;
      if n == 0 || |values| != |keys| then Unsupported(if interpolated then 4 else 5)
      else Table(interpolated, keys[..n], values[..n])
    case ValueToText(keys, entries, default) =>
      var n := |keys| % 0x1_0000;
      if |entries| != |keys| then c
      else ValueToText(keys[..n], ShownEntries(entries[..n]),
                       if n < |keys| then Some(ShownEntry(entries[n]))
                       else if default.Some? then Some(ShownEntry(default.value)) else None)
    case _ => c
  }

  /** A file as it is written. */
  ghost predicate Holds(f: File, blocks: seq<Blk>) {
    |f| < U64_LIMIT && exists id :: |id| == ID_SIZE && f == id + Serialized(blocks)
  }

  lemma {:induction false} StandsIn(f: File, blocks: seq<Blk>, a: nat, b: Blk)
    requires Holds(f, blocks) && Stands(ID_SIZE, blocks, a, b)
    ensures a >= ID_SIZE && InFile(f, a, b) && a < U64_LIMIT
  {
    hide Serialized, Stands, BlkBytes;
    var id :| |id| == ID_SIZE && f == id + Serialized(blocks);
    StandingIsInFile(f, id, blocks, a, b);
  }

  lemma {:induction false} LeadsIn(f: File, blocks: seq<Blk>, link: Link, b: Blk)
    requires Holds(f, blocks) && Leads(ID_SIZE, blocks, link, b)
    ensures Offset(link) != 0 && InFile(f, Offset(link), b) && Offset(link) < U64_LIMIT
  {
    hide Holds, Stands, InFile;
    StandsIn(f, blocks, link.target, b);
  }

  function LabelOf(ref: Option<Text>): Option<Entry> {
    match ref
    case None => None
    case Some(text) => Some(Label(Shown(text)))
  }

  lemma {:induction false} RefIsRead(f: File, o: Outside, blocks: seq<Blk>, link: Link, ref: Option<Text>, depth: nat)
    requires Holds(f, blocks) && RefMeant(ID_SIZE, blocks, link, ref) && depth <= MAX_DEPTH
    ensures EntryAt(f, o, Offset(link), depth) == Ok(LabelOf(ref))
    ensures ref.Some? ==> Offset(link) != 0 && ReadText(f, o, Offset(link)) == Ok(Shown(ref.value))
    ensures Offset(link) < U64_LIMIT
  {
    hide Stands, ReadText, BlkBytes, Leads;
    if ref.Some? {
      LeadsIn(f, blocks, link, TxBlk(ref.value));
      TextIsRead(f, o, Offset(link), ref.value);
      assert Scramble.TX[2] == 84 && Scramble.CC[2] == 67;
    }
  }

  /** A block as read whose references lead to `refs`. */
  ghost predicate RefersTo(cc: CcRead, blocks: seq<Blk>, refs: seq<Option<Text>>) {
    exists links :: RefsMeant(ID_SIZE, blocks, links, refs) && cc.references == WrittenFile.Offsets(links)
  }

  lemma {:induction false} ReferenceIsRead(f: File, o: Outside, blocks: seq<Blk>, cc: CcRead, refs: seq<Option<Text>>, i: nat, depth: nat)
    requires Holds(f, blocks) && RefersTo(cc, blocks, refs) && i < |refs| && depth <= MAX_DEPTH
    ensures EntryAt(f, o, Reference(cc, i), depth) == Ok(LabelOf(refs[i]))
    ensures refs[i].Some? ==> Reference(cc, i) != 0 && ReadText(f, o, Reference(cc, i)) == Ok(Shown(refs[i].value))
  {
    hide Holds, RefMeant, EntryAt, ReadText, Shown;
    var links :| RefsMeant(ID_SIZE, blocks, links, refs) && cc.references == WrittenFile.Offsets(links);
    assert RefMeant(ID_SIZE, blocks, links[i], refs[i]);
    RefIsRead(f, o, blocks, links[i], refs[i], depth);
  }

  lemma {:induction false} EntriesAreRead(f: File, o: Outside, blocks: seq<Blk>, cc: CcRead, entries: seq<Entry>, tail: seq<Option<Text>>, n: nat)
    requires AllLabels(entries) && n <= |entries|
    requires Holds(f, blocks) && RefersTo(cc, blocks, Refs(entries) + tail)
    ensures EntriesAt(f, o, cc, 0, n) == Ok(ShownEntries(entries[..n]))
  {
    hide Holds, RefersTo, EntryAt, Shown, Reference;
    if n != 0 {
      EntriesAreRead(f, o, blocks, cc, entries, tail, n - 1);
      ReferenceIsRead(f, o, blocks, cc, Refs(entries) + tail, n - 1, 0);
      assert (Refs(entries) + tail)[n - 1] == Some(entries[n - 1].text);
      assert ShownEntries(entries[..n]) == ShownEntries(entries[..n - 1]) + [ShownEntry(entries[n - 1])];
    }
  }

  /** What the block read back is built into. */
  lemma {:induction false} TableIsBuilt(f: File, o: Outside, cc: CcRead, interpolated: bool, keys: seq<nat>, values: seq<nat>)
    requires |keys| == |values| > 0
    requires cc.ccType == (if interpolated then 4 else 5)
    requires cc.values == KeysAndValues(keys, values)[..2 * |keys| % 0x1_0000]
    ensures BuildAt(f, o, cc, 0) == Ok(Recovered(Table(interpolated, keys, values), o))
  {
    hide EntryAt, EntriesAt, ReadText, Alternate, KeysAndValues;
    HalfCount(|keys|);
    Untangled(keys, values, |keys| % 0x8000);
  }

  /** Taking every other number undoes the interleaving, cut anywhere between pairs. */
  lemma {:induction false} Untangled(keys: seq<nat>, values: seq<nat>, n: nat)
    requires n <= |keys| == |values|
    ensures Alternate(KeysAndValues(keys, values)[..2 * n], 0) == keys[..n]
    ensures Alternate(KeysAndValues(keys, values)[..2 * n], 1) == values[..n]
  {
    hide KeysAndValues;
    var s := KeysAndValues(keys, values)[..2 * n];
    assert |s| / 2 == n;
    forall i | 0 <= i < n ensures Alternate(s, 0)[i] == keys[i] && Alternate(s, 1)[i] == values[i] {
      PairAt(keys, values, i);
    }
  }

  lemma {:induction false} PairAt(keys: seq<nat>, values: seq<nat>, i: nat)
    requires i < |keys| == |values|
    ensures KeysAndValues(keys, values)[2 * i] == keys[i] && KeysAndValues(keys, values)[2 * i + 1] == values[i]
  {
    assert (2 * i) / 2 == i && (2 * i + 1) / 2 == i;
  }

  lemma {:induction false} HalfCount(k: nat)
    ensures 2 * k % 0x1_0000 == 2 * (k % 0x8000)
  {
    var q := k / 0x8000;
    assert 2 * k == 0x1_0000 * q + 2 * (k % 0x8000);
  }

  lemma {:induction false} LabelsAreBuilt(f: File, o: Outside, blocks: seq<Blk>, cc: CcRead, c: Conversion)
    requires c.ValueToText? && PlanOf(c).Ok? && Holds(f, blocks)
    requires cc.ccType == 7 && cc.values == c.keys[..|c.keys| % 0x1_0000]
    requires RefersTo(cc, blocks, Refs(c.entries) + [DefaultRef(c.default)])
    ensures BuildAt(f, o, cc, 0) == Ok(Recovered(c, o))
  {
    hide Holds, RefersTo, EntryAt, EntriesAt, Shown, Reference, ReadText;
    var n, refs := |c.keys| % 0x1_0000, Refs(c.entries) + [DefaultRef(c.default)];
    EntriesAreRead(f, o, blocks, cc, c.entries, [DefaultRef(c.default)], n);
    ReferenceIsRead(f, o, blocks, cc, refs, n, 0);
    if n < |c.keys| { assert refs[n] == Some(c.entries[n].text); } else { assert refs[n] == DefaultRef(c.default); }
  }

  lemma {:induction false} BlockIsBuilt(f: File, o: Outside, blocks: seq<Blk>, cc: CcRead, c: Conversion)
    requires Valid(c) && PlanOf(c).Ok? && PlanOf(c).value.Some? && Holds(f, blocks)
    requires var plan := PlanOf(c).value.value;
      && cc.ccType == plan.ccType && cc.values == plan.values[..|plan.values| % 0x1_0000]
      && RefersTo(cc, blocks, plan.refs)
    ensures BuildAt(f, o, cc, 0) == Ok(Recovered(c, o))
  {
    hide Holds, RefersTo, EntryAt, EntriesAt, Shown, Reference, ReadText;
    match c
    case Table(interpolated, keys, values) => TableIsBuilt(f, o, cc, interpolated, keys, values);
    case ValueToText(_, _, _) => LabelsAreBuilt(f, o, blocks, cc, c);
    case Algebraic(formula) => ReferenceIsRead(f, o, blocks, cc, [Some(formula)], 0, 0);
    case Rational(p) => assert p[..6] == p;
    case _ =>
  }

  lemma {:induction false} PlanNumbers(c: Conversion)
    requires Valid(c) && PlanOf(c).Ok? && PlanOf(c).value.Some?
    ensures Numbers(PlanOf(c).value.value.values)
  {
  }

  /** Whatever is written, a channel's conversion link leads to what `Recovered` says. */
  lemma {:induction false} ConversionReadsBack(f: File, o: Outside, blocks: seq<Blk>, link: Link, cc: Option<CcPart>, c: Conversion)
    requires Holds(f, blocks) && ConversionMeant(ID_SIZE, blocks, link, cc) && Valid(c)
    requires PlanOf(c) == Ok(if cc.Some? then Some(cc.value.plan) else None)
    requires cc.Some? ==> link.To? && cc.value.at == link.target
    ensures ReadConversion(f, o, Offset(link)) == Ok(Recovered(c, o))
  {
    hide Holds, InFile, RefsMeant, BuildAt, Shown, Stands, Numbers, BlkBytes, ReadCc, LinksFit, Words;
    if cc.Some? {
      var a, plan := cc.value.at, cc.value.plan;
      var links := RefLinks(plan.refs, a + CcSize(plan));
      LeadsIn(f, blocks, link, CcBlk(a, plan));
      assert CcBlk(a, plan).links[4..] == links;
      MeantLinksFit(f, o, blocks, links, plan.refs);
      FileFits(f, blocks);
      PlanNumbers(c);
      CcIsRead(f, a, plan);
      BlockIsBuilt(f, o, blocks, ReadCc(f, a).value, c);
    }
  }

  lemma {:induction false} FileFits(f: File, blocks: seq<Blk>)
    requires Holds(f, blocks)
    ensures |f| < U64_LIMIT
  {
  }

  lemma {:induction false} MeantLinksFit(f: File, o: Outside, blocks: seq<Blk>, links: seq<Link>, refs: seq<Option<Text>>)
    requires Holds(f, blocks) && RefsMeant(ID_SIZE, blocks, links, refs)
    ensures LinksFit(links)
  {
    hide Holds, RefMeant, Offset, EntryAt, ReadText;
    forall k | 0 <= k < |links| ensures Offset(links[k]) < U64_LIMIT {
      RefIsRead(f, o, blocks, links[k], refs[k], 0);
    }
  }

  // ---------------------------------------------------------------- when that is what was written

  /** Text without a NUL, and with no white space at either end. */
  predicate Clean(text: Text) {
    0 !in text && WhiteFront(text) == 0 && WhiteBack(text) == 0
  }

  lemma {:induction false} CleanIsShown(text: Text)
    ensures Shown(text) == text <==> Clean(text)
  {
    var end := Scramble.TextEnd(text);
    assert text[..|text|] == text;
    if 0 in text {
      assert end < |text|;
    } else {
      assert end == |text|;
    }
  }

  /** What a caller can check before storing a conversion. */
  predicate Storable(c: Conversion, o: Outside) {
    match c
    case Algebraic(formula) => Clean(formula) && o.parses(formula)
    case Table(_, keys, _) => |keys| < 0x8000
    case ValueToText(keys, entries, default) =>
      && |keys| < 0x1_0000
      && (forall i :: 0 <= i < |entries| && entries[i].Label? ==> Clean(entries[i].text))
      && (default.Some? && default.value.Label? ==> Clean(default.value.text))
    case _ => true
  }

  lemma {:induction false} EntriesShown(entries: seq<Entry>)
    requires AllLabels(entries)
    ensures ShownEntries(entries) == entries <==> forall i :: 0 <= i < |entries| ==> Clean(entries[i].text)
  {
    hide Clean, Shown;
    forall i | 0 <= i < |entries| ensures ShownEntries(entries)[i] == entries[i] <==> Clean(entries[i].text) {
      CleanIsShown(entries[i].text);
    }
    if ShownEntries(entries) == entries {
      forall i | 0 <= i < |entries| ensures Clean(entries[i].text) {
        assert ShownEntries(entries)[i] == entries[i];
      }
    }
  }

  /** Exactly which of the accepted conversions are recovered as they were; the identity written as a linear rule is
      recovered as no conversion. */
  lemma {:induction false} RecoveredExactly(c: Conversion, o: Outside)
    requires PlanOf(c).Ok?
    ensures Recovered(c, o) == (if IsIdentity(c) then Identity else c) <==> Storable(c, o)
  {
    hide Clean, Shown, ShownEntries;
    match c
    case Algebraic(formula) => CleanIsShown(formula);
    case Table(_, keys, values) =>
      if |keys| < 0x8000 {
        assert keys[..|keys|] == keys && values[..|keys|] == values;
      }
    case ValueToText(keys, entries, default) =>
      EntriesShown(entries);
      if default.Some? { CleanIsShown(default.value.text); }
      if |keys| < 0x1_0000 { assert keys[..|keys|] == keys && entries[..|keys|] == entries; }
    case _ =>
  }

  // ---------------------------------------------------------------- a channel of a written file

  function LinkOf(f: File, a: nat, k: nat): nat
    requires a + 24 + 8 * k + 8 <= |f|
  {
    FromLe(f[a + 24 + 8 * k..a + 24 + 8 * k + 8])
  }

  /** What the channel block at `a` gives for a name, a unit, a comment and a conversion. */
  ghost predicate ReadsAs(f: File, o: Outside, a: nat, name: Text, unit: Text, comment: Text, c: Conversion) {
    && a + 88 <= |f|
    && ReadText(f, o, LinkOf(f, a, 2)) == Ok(name) && ReadText(f, o, LinkOf(f, a, 6)) == Ok(unit)
    && ReadText(f, o, LinkOf(f, a, 7)) == Ok(comment) && ReadConversion(f, o, LinkOf(f, a, 4)) == Ok(c)
  }

  lemma {:induction false} OptionalTextIsRead(f: File, o: Outside, blocks: seq<Blk>, link: Link, text: Text)
    requires Holds(f, blocks) && TextMeant(ID_SIZE, blocks, link, text)
    ensures ReadText(f, o, Offset(link)) == Ok(Shown(text)) && Offset(link) < U64_LIMIT
  {
    hide Holds, Leads, ReadText, Stands;
    if text == [] {
      assert Shown([]) == [];
      NoText(f, o);
    } else {
      RefIsRead(f, o, blocks, link, Some(text), 0);
    }
  }

  lemma {:induction false} NoText(f: File, o: Outside)
    ensures ReadText(f, o, 0) == Ok([])
  {
  }

  lemma {:induction false} LinkFits(f: File, o: Outside, blocks: seq<Blk>, link: Link, cc: Option<CcPart>)
    requires Holds(f, blocks) && ConversionMeant(ID_SIZE, blocks, link, cc)
    ensures Offset(link) < U64_LIMIT
  {
    hide Holds, Leads, Stands, RefsMeant, CcBlk;
    if cc.Some? { LeadsIn(f, blocks, link, CcBlk(cc.value.at, cc.value.plan)); }
  }

  lemma {:induction false} ChannelIsRead(f: File, o: Outside, blocks: seq<Blk>, l: ChannelLayout, next: Link, c: Conversion)
    requires Holds(f, blocks) && ChannelMeant(ID_SIZE, blocks, l, next) && Valid(c)
    requires PlanOf(c) == Ok(if l.cc.Some? then Some(l.cc.value.plan) else None)
    ensures ReadsAs(f, o, l.cnOff, Shown(l.name), Shown(l.unit), Shown(l.comment), Recovered(c, o))
  {
    hide Holds, Leads, Stands, TextMeant, ConversionMeant, ReadText, ReadConversion, Shown, Recovered, FromLe, BlkBytes, CommentAt;
    var b := CnBlk(l, next);
    StandsIn(f, blocks, l.cnOff, b);
    RefIsRead(f, o, blocks, b.links[2], Some(l.name), 0);
    OptionalTextIsRead(f, o, blocks, b.links[6], l.unit);
    OptionalTextIsRead(f, o, blocks, b.links[7], l.comment);
    LinkFits(f, o, blocks, b.links[4], l.cc);
    ConversionReadsBack(f, o, blocks, b.links[4], l.cc, c);
    WrittenFile.LinkReadsBack(f, l.cnOff, b, 2);
    WrittenFile.LinkReadsBack(f, l.cnOff, b, 4);
    WrittenFile.LinkReadsBack(f, l.cnOff, b, 6);
    WrittenFile.LinkReadsBack(f, l.cnOff, b, 7);
  }

  /** Channel `k` of a written group, wherever its block was placed, reads back with what is shown of its texts and what
      is recovered of its conversion; and that is what was given exactly when the texts are clean and the conversion is
      storable. */
  lemma {:induction false} ChannelReadsBackExactly(w: FileWriter.Writer, list: seq<(nat, seq<nat>)>, dgs: seq<DataGroup>,
                                                   layouts: seq<DataGroupLayout>, file: seq<byte>, o: Outside,
                                                   d: nat, g: nat, k: nat, c: Conversion) returns (at: nat)
    requires RecordStream.ValidGroups(w.groups) && FileWriter.Written(w, list, dgs, layouts, file) && |file| < U64_LIMIT
    requires d < |dgs| && g < |dgs[d].groups| && k < |dgs[d].groups[g].channels|
    requires Valid(c) && PlanOf(c) == Ok(dgs[d].groups[g].channels[k].plan)
    ensures g < |layouts[d].cgs| && k + 1 < |layouts[d].cgs[g].channels| && at == layouts[d].cgs[g].channels[k + 1].cnOff
    ensures var ch := dgs[d].groups[g].channels[k];
      && ReadsAs(file, o, at, Shown(ch.name), Shown(ch.unit), Shown(ch.comment), Recovered(c, o))
      && (ReadsAs(file, o, at, ch.name, ch.unit, ch.comment, if IsIdentity(c) then Identity else c)
          <==> Clean(ch.name) && Clean(ch.unit) && Clean(ch.comment) && Storable(c, o))
  {
    hide Holds, HeaderMeant, DataGroupsMeant, DgsPlaced, Serialized, FileBlocksOf, ReadText, ReadConversion, Shown, Recovered,
         Storable, Clean, FromLe, ChannelMeant, Collected, FileWriter.Built, FileWriter.IdBytes, RecordStream.ValidGroups,
         ByteOffset, InvalBit;
    var blocks := FileBlocksOf(layouts, dgs, w.startTime, w.history);
    EveryLinkMeant(layouts, dgs, w.startTime, w.history);
    var start := PlacedAndMeant(ID_SIZE, blocks, layouts, dgs, FileRegions.DgsAt(w.history), d, g);
    var cg := layouts[d].cgs[g];
    var l, ch := cg.channels[k + 1], dgs[d].groups[g].channels[k];
    at := l.cnOff;
    HoldsWritten(file, FileWriter.IdBytes(), blocks);
    assert ChannelMeant(ID_SIZE, blocks, l, NextCn(cg.channels, k + 1));
    assert Describes(l, ch, ByteOffset(dgs[d].groups[g], k), InvalBit(dgs[d].groups[g], k));
    ChannelIsRead(file, o, blocks, l, NextCn(cg.channels, k + 1), c);
    CleanIsShown(ch.name);
    CleanIsShown(ch.unit);
    CleanIsShown(ch.comment);
    RecoveredExactly(c, o);
  }

  lemma {:induction false} HoldsWritten(f: File, id: seq<byte>, blocks: seq<Blk>)
    requires |id| == ID_SIZE && f == id + Serialized(blocks) && |f| < U64_LIMIT
    ensures Holds(f, blocks)
  {
  }

  // ---------------------------------------------------------------- inputs that fail

  /** 32768 keys are accepted, and no number of them is read back: the channel cannot be converted. */
  lemma {:induction false} FullTableIsLost(keys: seq<nat>, values: seq<nat>, o: Outside)
    requires |keys| == |values| == 0x8000
    ensures PlanOf(Table(false, keys, values)).Ok? && Recovered(Table(false, keys, values), o) == Unsupported(5)
  {
    hide KeysAndValues;
  }

  /** 65536 keys with labels are accepted, and the label of the first is read back as the one for every value. */
  lemma {:induction false} FirstLabelForAll(keys: seq<nat>, entries: seq<Entry>, o: Outside)
    requires |keys| == |entries| == 0x1_0000 && AllLabels(entries)
    ensures PlanOf(ValueToText(keys, entries, None)).Ok?
    ensures Recovered(ValueToText(keys, entries, None), o) == ValueToText([], [], Some(ShownEntry(entries[0])))
  {
    hide Refs, AllLabels, Shown;
  }
}
