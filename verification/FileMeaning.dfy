/** Which block each link leads to: not only one of its kind but the very one meant. A channel's links lead to its own
    name, unit, comment, conversion, shape and signal data, and the chains run through the groups in their order. */
module FileMeaning {
  import opened Bytes
  import opened Options
  import opened WriterModel
  import opened BlockFormat
  import opened FileLayout
  import opened FileBlocks
  import opened FileRegions

  // ---------------------------------------------------------------- where a block stands

  /** In a run that begins at `at`, block `b` begins at `a`. */
  ghost predicate Stands(at: nat, blocks: seq<Blk>, a: nat, b: Blk) {
    exists i :: 0 <= i < |blocks| && blocks[i] == b && at + Extent(blocks[..i]) == a
  }

  /** A link leads to that very block. */
  ghost predicate Leads(at: nat, blocks: seq<Blk>, link: Link, b: Blk) {
    link.To? && link.kind == b.kind && Stands(at, blocks, link.target, b)
  }

  /** What stands in one run stands where it stood in another. */
  ghost predicate Within(at: nat, part: seq<Blk>, at': nat, whole: seq<Blk>) {
    forall a: nat, b :: Stands(at, part, a, b) ==> Stands(at', whole, a, b)
  }

  lemma {:induction false} WithinLeft(at: nat, a: seq<Blk>, b: seq<Blk>)
    ensures Within(at, a, at, a + b)
  {
    forall x: nat, blk | Stands(at, a, x, blk) ensures Stands(at, a + b, x, blk) {
      var i :| 0 <= i < |a| && a[i] == blk && at + Extent(a[..i]) == x;
      assert (a + b)[..i] == a[..i] && (a + b)[i] == blk;
    }
  }

  lemma {:induction false} WithinRight(at: nat, a: seq<Blk>, mid: nat, b: seq<Blk>)
    requires at + Extent(a) == mid
    ensures Within(mid, b, at, a + b)
  {
    hide Extent;
    forall x: nat, blk | Stands(mid, b, x, blk) ensures Stands(at, a + b, x, blk) {
      var i :| 0 <= i < |b| && b[i] == blk && mid + Extent(b[..i]) == x;
      ExtentAppended(a, b[..i]);
      assert (a + b)[..|a| + i] == a + b[..i] && (a + b)[|a| + i] == blk;
    }
  }

  lemma {:induction false} WithinBoth(at: nat, a: seq<Blk>, at': nat, b: seq<Blk>, at'': nat, c: seq<Blk>)
    requires Within(at, a, at', b) && Within(at', b, at'', c)
    ensures Within(at, a, at'', c)
  {
    hide Stands;
  }

  lemma {:induction false} StandsFirst(at: nat, b: Blk, rest: seq<Blk>)
    ensures Stands(at, [b] + rest, at, b)
  {
    assert ([b] + rest)[0] == b && ([b] + rest)[..0] == [];
  }

  lemma {:induction false} LeadsOn(at: nat, a: seq<Blk>, at': nat, b: seq<Blk>, link: Link, blk: Blk)
    requires Within(at, a, at', b) && Leads(at, a, link, blk)
    ensures Leads(at', b, link, blk)
  {
    hide Stands;
  }

  lemma {:induction false} RunExtent(at: nat, blocks: seq<Blk>, end: nat, entry: Link, exit: Link)
    requires Run(at, blocks, end, entry, exit)
    ensures at + Extent(blocks) == end
  {
  }

  lemma {:induction false} RegionExtent(at: nat, blocks: seq<Blk>, end: nat, entries: Places, exits: Places)
    requires Region(at, blocks, end, entries, exits)
    ensures at + Extent(blocks) == end
  {
  }

  /** In a chain, each run stands where it begins. */
  lemma {:induction false} WithinChain(ats: seq<nat>, runs: seq<seq<Blk>>, end: nat, kind: Kind, k: nat)
    requires Chain(ats, runs, end, kind) && k < |runs|
    ensures Within(ats[k], runs[k], ats[0], Flatten(runs))
  {
    hide Within, Run, Extent;
    if k > 0 {
      ChainPrefix(ats, runs, end, kind, k);
      RunExtent(ats[0], Flatten(runs[..k]), ats[k], To(ats[0], kind), NextIn(ats, k, kind));
    } else {
      NoExtent();
      assert runs[..0] == [];
    }
    WithinRight(ats[0], Flatten(runs[..k]), ats[k], runs[k]);
    FlattenNext(runs, k);
    WithinPrefix(ats[0], runs, k + 1);
    WithinBoth(ats[k], runs[k], ats[0], Flatten(runs[..k + 1]), ats[0], Flatten(runs));
  }

  lemma {:induction false} NoExtent()
    ensures Extent([]) == 0
  {
  }

  lemma {:induction false} WithinPrefix(at: nat, runs: seq<seq<Blk>>, k: nat)
    requires k <= |runs|
    ensures Within(at, Flatten(runs[..k]), at, Flatten(runs))
    decreases |runs| - k
  {
    hide Within;
    if k == |runs| {
      assert runs[..k] == runs;
      WithinLeft(at, Flatten(runs), []);
      assert Flatten(runs) + [] == Flatten(runs);
    } else {
      FlattenNext(runs, k);
      WithinLeft(at, Flatten(runs[..k]), runs[k]);
      WithinPrefix(at, runs, k + 1);
      WithinBoth(at, Flatten(runs[..k]), at, Flatten(runs[..k + 1]), at, Flatten(runs));
    }
  }

  // ---------------------------------------------------------------- a channel's links

  /** An optional text has a link to the block that holds it, an absent one none. */
  ghost predicate TextMeant(at: nat, blocks: seq<Blk>, link: Link, text: Text) {
    if text == [] then link == Null else Leads(at, blocks, link, TxBlk(text))
  }

  ghost predicate RefMeant(at: nat, blocks: seq<Blk>, link: Link, ref: Option<Text>) {
    match ref
    case None => link == Null
    case Some(text) => Leads(at, blocks, link, TxBlk(text))
  }

  /** Each text a conversion refers to is the one its link leads to. */
  ghost predicate RefsMeant(at: nat, blocks: seq<Blk>, links: seq<Link>, refs: seq<Option<Text>>) {
    |links| == |refs| && forall i :: 0 <= i < |refs| ==> RefMeant(at, blocks, links[i], refs[i])
  }

  ghost predicate ConversionMeant(at: nat, blocks: seq<Blk>, link: Link, cc: Option<CcPart>) {
    match cc
    case None => link == Null
    case Some(c) =>
      && Leads(at, blocks, link, CcBlk(c.at, c.plan))
      && RefsMeant(at, blocks, CcBlk(c.at, c.plan).links[4..], c.plan.refs)
  }

  /** The links of a channel's block lead to the channel's own parts. */
  ghost predicate ChannelMeant(at: nat, blocks: seq<Blk>, l: ChannelLayout, next: Link) {
    var links := CnBlk(l, next).links;
    && Stands(at, blocks, l.cnOff, CnBlk(l, next))
    && Leads(at, blocks, links[2], TxBlk(l.name))
    && TextMeant(at, blocks, links[6], l.unit) && TextMeant(at, blocks, links[7], l.comment)
    && ConversionMeant(at, blocks, links[4], l.cc)
    && (if l.ca.Some? then Leads(at, blocks, links[1], CaBlk(l.ca.value.shape, l.ca.value.stride)) else links[1] == Null)
    && (if l.sd.Some? then Leads(at, blocks, links[5], SdBlk(l.sd.value.data)) else links[5] == Null)
  }

  lemma {:induction false} TextMeantOn(at: nat, a: seq<Blk>, at': nat, b: seq<Blk>, link: Link, text: Text)
    requires Within(at, a, at', b) && TextMeant(at, a, link, text)
    ensures TextMeant(at', b, link, text)
  {
    if text != [] { LeadsOn(at, a, at', b, link, TxBlk(text)); }
  }

  lemma {:induction false} RefsMeantOn(at: nat, a: seq<Blk>, at': nat, b: seq<Blk>, links: seq<Link>, refs: seq<Option<Text>>)
    requires Within(at, a, at', b) && RefsMeant(at, a, links, refs)
    ensures RefsMeant(at', b, links, refs)
  {
    hide Leads, Within;
    forall i | 0 <= i < |refs| ensures RefMeant(at', b, links[i], refs[i]) {
      assert RefMeant(at, a, links[i], refs[i]);
      if refs[i].Some? { LeadsOn(at, a, at', b, links[i], TxBlk(refs[i].value)); }
    }
  }

  lemma {:induction false} ConversionMeantOn(at: nat, a: seq<Blk>, at': nat, b: seq<Blk>, link: Link, cc: Option<CcPart>)
    requires Within(at, a, at', b) && ConversionMeant(at, a, link, cc)
    ensures ConversionMeant(at', b, link, cc)
  {
    hide Leads, Within, RefsMeant, TxBlk, Words;
    if cc.Some? {
      LeadsOn(at, a, at', b, link, CcBlk(cc.value.at, cc.value.plan));
      RefsMeantOn(at, a, at', b, CcBlk(cc.value.at, cc.value.plan).links[4..], cc.value.plan.refs);
    }
  }

  lemma {:induction false} ChannelMeantOn(at: nat, a: seq<Blk>, at': nat, b: seq<Blk>, l: ChannelLayout, next: Link)
    requires Within(at, a, at', b) && ChannelMeant(at, a, l, next)
    ensures ChannelMeant(at', b, l, next)
  {
    StandsOn(at, a, at', b, l.cnOff, CnBlk(l, next));
    hide Leads, Within, TextMeant, ConversionMeant, Stands, TxBlk, CaBlk, SdBlk, CnLinks;
    var links := CnBlk(l, next).links;
    LeadsOn(at, a, at', b, links[2], TxBlk(l.name));
    TextMeantOn(at, a, at', b, links[6], l.unit);
    TextMeantOn(at, a, at', b, links[7], l.comment);
    ConversionMeantOn(at, a, at', b, links[4], l.cc);
    if l.ca.Some? { LeadsOn(at, a, at', b, links[1], CaBlk(l.ca.value.shape, l.ca.value.stride)); }
    if l.sd.Some? { LeadsOn(at, a, at', b, links[5], SdBlk(l.sd.value.data)); }
  }

  lemma {:induction false} StandsOn(at: nat, a: seq<Blk>, at': nat, b: seq<Blk>, x: nat, blk: Blk)
    requires Within(at, a, at', b) && Stands(at, a, x, blk)
    ensures Stands(at', b, x, blk)
  {
  }

  lemma {:induction false} OwnText(at: nat, text: Text)
    ensures TextMeant(at, TextBlocks(text), TextLink(text, at), text)
  {
    if text != [] { StandsFirst(at, TxBlk(text), []); assert [TxBlk(text)] + [] == [TxBlk(text)]; }
  }

  lemma {:induction false} OwnRefs(at: nat, refs: seq<Option<Text>>)
    ensures RefsMeant(at, RefBlocks(refs), RefLinks(refs, at), refs)
  {
    hide RefMeant, Within, Extent, RefsSize;
    if refs != [] {
      var n := |refs| - 1;
      var before, last := refs[..n], refs[n];
      var tail := RefBlock(last);
      OwnRefs(at, before);
      RefsEnd(at, before);
      WithinLeft(at, RefBlocks(before), tail);
      RefsMeantOn(at, RefBlocks(before), at, RefBlocks(before) + tail, RefLinks(before, at), before);
      LastRef(at, RefBlocks(before), at + RefsSize(before), last);
      forall i | 0 <= i < |refs| ensures RefMeant(at, RefBlocks(before) + tail, RefLinks(refs, at)[i], refs[i]) {
        if i < n { assert refs[i] == before[i] && RefLinks(refs, at)[i] == RefLinks(before, at)[i]; }
      }
    }
  }

  function RefBlock(ref: Option<Text>): seq<Blk> {
    match ref
    case Some(t) => [TxBlk(t)]
    case None => []
  }

  lemma {:induction false} RefsEnd(at: nat, refs: seq<Option<Text>>)
    ensures at + Extent(RefBlocks(refs)) == at + RefsSize(refs)
  {
    hide Region;
    RefsRegion(refs, at);
    RegionExtent(at, RefBlocks(refs), at + RefsSize(refs), LinkPlaces(RefLinks(refs, at)), NONE);
  }

  lemma {:induction false} LastRef(at: nat, before: seq<Blk>, mid: nat, ref: Option<Text>)
    requires at + Extent(before) == mid
    ensures RefMeant(at, before + RefBlock(ref), if ref.Some? then To(mid, TX) else Null, ref)
  {
    hide Stands, Within, Extent;
    if ref.Some? {
      WithinRight(at, before, mid, RefBlock(ref));
      StandsFirst(mid, TxBlk(ref.value), []);
      assert [TxBlk(ref.value)] + [] == RefBlock(ref);
      StandsOn(mid, RefBlock(ref), at, before + RefBlock(ref), mid, TxBlk(ref.value));
    }
  }

  lemma {:induction false} OwnConversion(l: ChannelLayout)
    requires Coherent(l)
    ensures ConversionMeant(CcAt(l), CcBlocks(l), CcLink(l), l.cc)
  {
    hide Stands, Within, RefsMeant, Extent;
    if l.cc.Some? {
      var at, plan := CcAt(l), l.cc.value.plan;
      var cc := CcBlk(at, plan);
      StandsFirst(at, cc, RefBlocks(plan.refs));
      OwnRefs(at + CcSize(plan), plan.refs);
      OneExtent(cc);
      CcBlkSize(at, plan);
      WithinRight(at, [cc], at + CcSize(plan), RefBlocks(plan.refs));
      RefsMeantOn(at + CcSize(plan), RefBlocks(plan.refs), at, CcBlocks(l), RefLinks(plan.refs, at + CcSize(plan)), plan.refs);
      assert cc.links[4..] == RefLinks(plan.refs, at + CcSize(plan));
    }
  }

  lemma {:induction false} OneExtent(b: Blk)
    ensures Extent([b]) == Size(b)
  {
    assert [b][..0] == [];
  }

  lemma {:induction false} CcBlkSize(at: nat, plan: CcPlan)
    ensures Size(CcBlk(at, plan)) == CcSize(plan)
  {
  }

  /** A part appended behind a prefix, and more behind it. */
  lemma {:induction false} Placed(at: nat, before: seq<Blk>, mid: nat, part: seq<Blk>, after: seq<Blk>)
    requires at + Extent(before) == mid
    ensures Within(mid, part, at, before + part + after)
  {
    hide Within, Extent;
    WithinRight(at, before, mid, part);
    WithinLeft(at, before + part, after);
    WithinBoth(mid, part, at, before + part, at, before + part + after);
  }

  /** Where each part of a channel begins. */
  lemma {:induction false} PartsEnd(l: ChannelLayout)
    requires Coherent(l)
    ensures var at := l.cnOff + CN_SIZE;
            && at + Extent([TxBlk(l.name)]) == at + TxSize(l.name)
            && at + Extent([TxBlk(l.name)] + TextBlocks(l.unit)) == CommentAt(l)
            && at + Extent([TxBlk(l.name)] + TextBlocks(l.unit) + TextBlocks(l.comment)) == CcAt(l)
            && at + Extent([TxBlk(l.name)] + TextBlocks(l.unit) + TextBlocks(l.comment) + CcBlocks(l)) == CcAt(l) + CcPartSize(l)
            && at + Extent([TxBlk(l.name)] + TextBlocks(l.unit) + TextBlocks(l.comment) + CcBlocks(l) + CaBlocks(l))
               == CcAt(l) + CcPartSize(l) + CaPartSize(l)
  {
    hide Region, Run, TxBlk, TextBlocks, CcBlocks, CaBlocks, Coherent, Extent, CcPartSize, CaPartSize;
    var at := l.cnOff + CN_SIZE;
    TxRun(l.name, at);
    RunExtent(at, [TxBlk(l.name)], at + TxSize(l.name), To(at, TX), Null);
    var unitAt := at + TxSize(l.name);
    TextRun(l.unit, unitAt);
    RunExtent(unitAt, TextBlocks(l.unit), CommentAt(l), TextLink(l.unit, unitAt), Null);
    ExtentAppended([TxBlk(l.name)], TextBlocks(l.unit));
    TextRun(l.comment, CommentAt(l));
    RunExtent(CommentAt(l), TextBlocks(l.comment), CcAt(l), TextLink(l.comment, CommentAt(l)), Null);
    ExtentAppended([TxBlk(l.name)] + TextBlocks(l.unit), TextBlocks(l.comment));
    CcPartRun(l);
    RunExtent(CcAt(l), CcBlocks(l), CcAt(l) + CcPartSize(l), CcLink(l), Null);
    ExtentAppended([TxBlk(l.name)] + TextBlocks(l.unit) + TextBlocks(l.comment), CcBlocks(l));
    CaPartRun(l, CcAt(l) + CcPartSize(l));
    RunExtent(CcAt(l) + CcPartSize(l), CaBlocks(l), CcAt(l) + CcPartSize(l) + CaPartSize(l), CaLink(l), Null);
    ExtentAppended([TxBlk(l.name)] + TextBlocks(l.unit) + TextBlocks(l.comment) + CcBlocks(l), CaBlocks(l));
  }

  ghost predicate PartsMeant(at: nat, blocks: seq<Blk>, l: ChannelLayout) {
    && Leads(at, blocks, To(l.cnOff + CN_SIZE, TX), TxBlk(l.name))
    && TextMeant(at, blocks, TextLink(l.unit, l.cnOff + CN_SIZE + TxSize(l.name)), l.unit)
    && TextMeant(at, blocks, TextLink(l.comment, CommentAt(l)), l.comment)
    && ConversionMeant(at, blocks, CcLink(l), l.cc)
    && (l.ca.Some? ==> Leads(at, blocks, CaLink(l), CaBlk(l.ca.value.shape, l.ca.value.stride)))
    && (l.sd.Some? ==> Leads(at, blocks, SdLink(l), SdBlk(l.sd.value.data)))
  }

  lemma {:induction false} OwnBlock(at: nat, b: Blk)
    ensures Leads(at, [b], To(at, b.kind), b)
  {
    StandsFirst(at, b, []);
    assert [b] + [] == [b];
  }

  lemma {:induction false} OwnParts(l: ChannelLayout)
    requires Coherent(l)
    ensures PartsMeant(l.cnOff + CN_SIZE, ChannelParts(l), l)
  {
    hide Within, Leads, TextMeant, ConversionMeant, Extent, TextBlocks, CcBlocks, TxBlk, CommentAt, CcAt;
    var at := l.cnOff + CN_SIZE;
    var name, u, c, cc, ca, sd := [TxBlk(l.name)], TextBlocks(l.unit), TextBlocks(l.comment), CcBlocks(l), CaBlocks(l), SdBlocks(l);
    var whole := ChannelParts(l);
    PartsEnd(l);
    NoExtent();
    assert whole == [] + name + (u + c + cc + ca + sd);
    Placed(at, [], at, name, u + c + cc + ca + sd);
    OwnName(at, l.name);
    LeadsOn(at, name, at, whole, To(at, TX), TxBlk(l.name));
    assert whole == name + u + (c + cc + ca + sd);
    Placed(at, name, at + TxSize(l.name), u, c + cc + ca + sd);
    OwnText(at + TxSize(l.name), l.unit);
    TextMeantOn(at + TxSize(l.name), u, at, whole, TextLink(l.unit, at + TxSize(l.name)), l.unit);
    assert whole == (name + u) + c + (cc + ca + sd);
    Placed(at, name + u, CommentAt(l), c, cc + ca + sd);
    OwnText(CommentAt(l), l.comment);
    TextMeantOn(CommentAt(l), c, at, whole, TextLink(l.comment, CommentAt(l)), l.comment);
    assert whole == (name + u + c) + cc + (ca + sd);
    Placed(at, name + u + c, CcAt(l), cc, ca + sd);
    OwnConversion(l);
    ConversionMeantOn(CcAt(l), cc, at, whole, CcLink(l), l.cc);
    LastParts(l);
  }

  lemma {:induction false} OwnName(at: nat, text: Text)
    ensures Leads(at, [TxBlk(text)], To(at, TX), TxBlk(text))
  {
    OwnBlock(at, TxBlk(text));
  }

  lemma {:induction false} LastParts(l: ChannelLayout)
    requires Coherent(l)
    ensures l.ca.Some? ==> Leads(l.cnOff + CN_SIZE, ChannelParts(l), CaLink(l), CaBlk(l.ca.value.shape, l.ca.value.stride))
    ensures l.sd.Some? ==> Leads(l.cnOff + CN_SIZE, ChannelParts(l), SdLink(l), SdBlk(l.sd.value.data))
  {
    hide Within, Leads, Extent, TextBlocks, CcBlocks, TxBlk, CommentAt, CcAt, CcPartSize, CaPartSize;
    var at := l.cnOff + CN_SIZE;
    var before := [TxBlk(l.name)] + TextBlocks(l.unit) + TextBlocks(l.comment) + CcBlocks(l);
    var ca, sd := CaBlocks(l), SdBlocks(l);
    PartsEnd(l);
    if l.ca.Some? {
      var b := CaBlk(l.ca.value.shape, l.ca.value.stride);
      Placed(at, before, l.ca.value.at, ca, sd);
      OwnBlock(l.ca.value.at, b);
      LeadsOn(l.ca.value.at, ca, at, ChannelParts(l), CaLink(l), b);
    }
    if l.sd.Some? {
      var b := SdBlk(l.sd.value.data);
      assert ChannelParts(l) == (before + ca) + sd + [];
      Placed(at, before + ca, l.sd.value.at, sd, []);
      OwnBlock(l.sd.value.at, b);
      LeadsOn(l.sd.value.at, sd, at, ChannelParts(l), SdLink(l), b);
    }
  }

  lemma {:induction false} OwnLinks(l: ChannelLayout, next: Link)
    requires Coherent(l)
    ensures ChannelMeant(l.cnOff, ChannelBlocks(l, next), l, next)
  {
    hide Within, Leads, TextMeant, ConversionMeant, Extent, ChannelParts, TxBlk, CaBlk, SdBlk, CommentAt, Stands;
    var at, parts, whole := l.cnOff + CN_SIZE, ChannelParts(l), ChannelBlocks(l, next);
    OwnParts(l);
    StandsFirst(l.cnOff, CnBlk(l, next), parts);
    OneExtent(CnBlk(l, next));
    WithinRight(l.cnOff, [CnBlk(l, next)], at, parts);
    LeadsOn(at, parts, l.cnOff, whole, To(at, TX), TxBlk(l.name));
    TextMeantOn(at, parts, l.cnOff, whole, TextLink(l.unit, at + TxSize(l.name)), l.unit);
    TextMeantOn(at, parts, l.cnOff, whole, TextLink(l.comment, CommentAt(l)), l.comment);
    ConversionMeantOn(at, parts, l.cnOff, whole, CcLink(l), l.cc);
    if l.ca.Some? { LeadsOn(at, parts, l.cnOff, whole, CaLink(l), CaBlk(l.ca.value.shape, l.ca.value.stride)); }
    if l.sd.Some? { LeadsOn(at, parts, l.cnOff, whole, SdLink(l), SdBlk(l.sd.value.data)); }
  }

  // ---------------------------------------------------------------- a channel group's links

  /** Each channel's links lead to its own parts, and its first link to the next channel. */
  ghost predicate ChannelsMeant(at: nat, blocks: seq<Blk>, ls: seq<ChannelLayout>) {
    forall k :: 0 <= k < |ls| ==> ChannelMeant(at, blocks, ls[k], NextCn(ls, k)) && NextChannelMeant(at, blocks, ls, k)
  }

  ghost predicate NextChannelMeant(at: nat, blocks: seq<Blk>, ls: seq<ChannelLayout>, k: nat)
    requires k < |ls|
  {
    k + 1 < |ls| ==> Leads(at, blocks, CnBlk(ls[k], NextCn(ls, k)).links[0], CnBlk(ls[k + 1], NextCn(ls, k + 1)))
  }

  lemma {:induction false} ChannelsMeantOn(at: nat, a: seq<Blk>, at': nat, b: seq<Blk>, ls: seq<ChannelLayout>)
    requires Within(at, a, at', b) && ChannelsMeant(at, a, ls)
    ensures ChannelsMeant(at', b, ls)
  {
    hide Within, Leads, ChannelMeant, CnLinks;
    forall k | 0 <= k < |ls| ensures ChannelMeant(at', b, ls[k], NextCn(ls, k)) && NextChannelMeant(at', b, ls, k) {
      assert ChannelMeant(at, a, ls[k], NextCn(ls, k)) && NextChannelMeant(at, a, ls, k);
      ChannelMeantOn(at, a, at', b, ls[k], NextCn(ls, k));
      if k + 1 < |ls| {
        LeadsOn(at, a, at', b, CnBlk(ls[k], NextCn(ls, k)).links[0], CnBlk(ls[k + 1], NextCn(ls, k + 1)));
      }
    }
  }

  lemma {:induction false} ChannelsChained(ls: seq<ChannelLayout>, g: Group, at: nat) returns (ats: seq<nat>)
    requires ChannelsPlaced(ls, g, |g.channels|, at)
    ensures Chain(ats, ChannelRuns(ls), ChannelEnd(ls[|ls| - 1]), CN)
    ensures |ats| == |ls| && ats[0] == at && forall k :: 0 <= k < |ls| ==> ats[k] == ls[k].cnOff && Coherent(ls[k])
  {
    hide Run, Describes, ChannelBlocks, Coherent;
    var end := ChannelEnd(ls[|ls| - 1]);
    ats := seq(|ls|, k requires 0 <= k < |ls| => ls[k].cnOff);
    forall k | 0 <= k < |ls|
      ensures Run(ats[k], ChannelRuns(ls)[k], NextAt(ats, k + 1, end), To(ats[k], CN), NextIn(ats, k + 1, CN))
    {
      ChannelRun(ls[k], NextCn(ls, k));
    }
  }

  lemma {:induction false} ChannelsOwn(ls: seq<ChannelLayout>, g: Group, at: nat)
    requires ChannelsPlaced(ls, g, |g.channels|, at)
    ensures ChannelsMeant(at, Flatten(ChannelRuns(ls)), ls)
  {
    hide Within, ChannelMeant, Chain, ChannelsPlaced, ChannelBlocks, Coherent, Flatten;
    var ats := ChannelsChained(ls, g, at);
    var runs, whole := ChannelRuns(ls), Flatten(ChannelRuns(ls));
    forall k | 0 <= k < |ls| ensures ChannelMeant(at, whole, ls[k], NextCn(ls, k)) {
      OwnLinks(ls[k], NextCn(ls, k));
      WithinChain(ats, runs, ChannelEnd(ls[|ls| - 1]), CN, k);
      ChannelMeantOn(ats[k], runs[k], at, whole, ls[k], NextCn(ls, k));
    }
    forall k | 0 <= k < |ls| ensures NextChannelMeant(at, whole, ls, k) {
      if k + 1 < |ls| { ChannelStands(at, whole, ls[k + 1], NextCn(ls, k + 1)); }
    }
  }

  lemma {:induction false} ChannelStands(at: nat, blocks: seq<Blk>, l: ChannelLayout, next: Link)
    requires ChannelMeant(at, blocks, l, next)
    ensures Leads(at, blocks, To(l.cnOff, CN), CnBlk(l, next))
  {
  }

  /** A channel group's own block. */
  function CgHead(cg: CgLayout, next: Link): Blk {
    CgBlk(cg.group, if cg.channels == [] then Null else To(cg.channels[0].cnOff, CN), next, cg.recordId)
  }

  ghost predicate GroupMeant(at: nat, blocks: seq<Blk>, cg: CgLayout, next: Link) {
    && Stands(at, blocks, cg.cgOff, CgHead(cg, next))
    && cg.channels != [] && Leads(at, blocks, CgHead(cg, next).links[1], CnBlk(cg.channels[0], NextCn(cg.channels, 0)))
    && ChannelsMeant(at, blocks, cg.channels)
  }

  lemma {:induction false} GroupMeantOn(at: nat, a: seq<Blk>, at': nat, b: seq<Blk>, cg: CgLayout, next: Link)
    requires Within(at, a, at', b) && GroupMeant(at, a, cg, next)
    ensures GroupMeant(at', b, cg, next)
  {
    StandsOn(at, a, at', b, cg.cgOff, CgHead(cg, next));
    hide Within, Leads, ChannelsMeant, Stands, CnBlk, DataBytes, InvalBytes;
    ChannelsMeantOn(at, a, at', b, cg.channels);
    LeadsOn(at, a, at', b, CgHead(cg, next).links[1], CnBlk(cg.channels[0], NextCn(cg.channels, 0)));
  }

  lemma {:induction false} GroupOwn(cg: CgLayout, g: Group, recordId: nat, at: nat, next: Link)
    requires CgPlaced(cg, g, recordId, at)
    ensures GroupMeant(at, CgBlocks(cg, next), cg, next)
  {
    hide Within, ChannelMeant, Stands, ChannelsPlaced, ChannelRuns, CnBlk;
    var head, rest := CgHead(cg, next), Flatten(ChannelRuns(cg.channels));
    StandsFirst(at, head, rest);
    OneExtent(head);
    HeadSize(cg, next);
    WithinRight(at, [head], at + CG_SIZE, rest);
    ChannelsOwn(cg.channels, g, at + CG_SIZE);
    ChannelsMeantOn(at + CG_SIZE, rest, at, CgBlocks(cg, next), cg.channels);
    FirstPlaced(cg.channels, g, at + CG_SIZE);
    assert ChannelMeant(at, CgBlocks(cg, next), cg.channels[0], NextCn(cg.channels, 0));
    ChannelStands(at, CgBlocks(cg, next), cg.channels[0], NextCn(cg.channels, 0));
  }

  lemma {:induction false} HeadSize(cg: CgLayout, next: Link)
    ensures Size(CgHead(cg, next)) == CG_SIZE
  {
  }

  lemma {:induction false} FirstPlaced(ls: seq<ChannelLayout>, g: Group, at: nat)
    requires ChannelsPlaced(ls, g, |g.channels|, at)
    ensures ls != [] && ls[0].cnOff == at
  {
  }

  // ---------------------------------------------------------------- a data group's links

  ghost predicate NextGroupMeant(at: nat, blocks: seq<Blk>, cgs: seq<CgLayout>, i: nat)
    requires i < |cgs|
  {
    i + 1 < |cgs| ==> Leads(at, blocks, CgHead(cgs[i], NextCg(cgs, i)).links[0], CgHead(cgs[i + 1], NextCg(cgs, i + 1)))
  }

  ghost predicate GroupsMeant(at: nat, blocks: seq<Blk>, cgs: seq<CgLayout>) {
    forall i :: 0 <= i < |cgs| ==> GroupMeant(at, blocks, cgs[i], NextCg(cgs, i)) && NextGroupMeant(at, blocks, cgs, i)
  }

  lemma {:induction false} GroupsMeantOn(at: nat, a: seq<Blk>, at': nat, b: seq<Blk>, cgs: seq<CgLayout>)
    requires Within(at, a, at', b) && GroupsMeant(at, a, cgs)
    ensures GroupsMeant(at', b, cgs)
  {
    hide Within, Leads, GroupMeant, CgHead;
    forall i | 0 <= i < |cgs| ensures GroupMeant(at', b, cgs[i], NextCg(cgs, i)) && NextGroupMeant(at', b, cgs, i) {
      assert GroupMeant(at, a, cgs[i], NextCg(cgs, i)) && NextGroupMeant(at, a, cgs, i);
      GroupMeantOn(at, a, at', b, cgs[i], NextCg(cgs, i));
      if i + 1 < |cgs| {
        HeadLinks(cgs[i], NextCg(cgs, i));
        LeadsOn(at, a, at', b, CgHead(cgs[i], NextCg(cgs, i)).links[0], CgHead(cgs[i + 1], NextCg(cgs, i + 1)));
      }
    }
  }

  lemma {:induction false} HeadLinks(cg: CgLayout, next: Link)
    ensures |CgHead(cg, next).links| == 6 && CgHead(cg, next).links[0] == next && CgHead(cg, next).kind == CG
  {
  }

  lemma {:induction false} GroupStands(at: nat, blocks: seq<Blk>, cg: CgLayout, next: Link)
    requires GroupMeant(at, blocks, cg, next)
    ensures Leads(at, blocks, To(cg.cgOff, CG), CgHead(cg, next))
  {
    hide Stands, ChannelsMeant, CnBlk;
  }

  lemma {:induction false} GroupsChained(cgs: seq<CgLayout>, groups: seq<Group>, at: nat) returns (ats: seq<nat>)
    requires CgsPlaced(cgs, groups, |groups|, at) && cgs != []
    ensures Chain(ats, CgRuns(cgs), CgsEnd(cgs, at), CG)
    ensures |ats| == |cgs| == |groups| && ats[0] == at && forall i :: 0 <= i < |cgs| ==> ats[i] == cgs[i].cgOff
    ensures forall i :: 0 <= i < |cgs| ==> CgPlaced(cgs[i], groups[i], RecordIdOf(|groups|, i), cgs[i].cgOff)
  {
    hide Run, CgBlocks, CgEnd, CgPlaced;
    ats := seq(|cgs|, i requires 0 <= i < |cgs| => cgs[i].cgOff);
    forall i | 0 <= i < |cgs|
      ensures Run(ats[i], CgRuns(cgs)[i], NextAt(ats, i + 1, CgsEnd(cgs, at)), To(ats[i], CG), NextIn(ats, i + 1, CG))
      ensures CgPlaced(cgs[i], groups[i], RecordIdOf(|groups|, i), cgs[i].cgOff)
    {
      CgsLink(cgs, groups, at, i);
      if i + 1 < |cgs| { CgsLink(cgs, groups, at, i + 1); }
    }
    CgsLink(cgs, groups, at, 0);
  }

  lemma {:induction false} GroupsOwn(cgs: seq<CgLayout>, groups: seq<Group>, at: nat)
    requires CgsPlaced(cgs, groups, |groups|, at)
    ensures GroupsMeant(at, Flatten(CgRuns(cgs)), cgs)
  {
    hide Within, GroupMeant, Chain, CgsPlaced, CgBlocks, CgPlaced, Flatten, CgHead;
    if cgs != [] {
      var ats := GroupsChained(cgs, groups, at);
      var runs, whole := CgRuns(cgs), Flatten(CgRuns(cgs));
      forall i | 0 <= i < |cgs| ensures GroupMeant(at, whole, cgs[i], NextCg(cgs, i)) {
        GroupOwn(cgs[i], groups[i], RecordIdOf(|groups|, i), cgs[i].cgOff, NextCg(cgs, i));
        WithinChain(ats, runs, CgsEnd(cgs, at), CG, i);
        GroupMeantOn(ats[i], runs[i], at, whole, cgs[i], NextCg(cgs, i));
      }
      forall i | 0 <= i < |cgs| ensures NextGroupMeant(at, whole, cgs, i) {
        if i + 1 < |cgs| {
          HeadLinks(cgs[i], NextCg(cgs, i));
          GroupStands(at, whole, cgs[i + 1], NextCg(cgs, i + 1));
        }
      }
    }
  }

  function DgHead(dg: DataGroupLayout, p: Payload, next: Link): Blk {
    DgBlk(next, if dg.cgs == [] then Null else To(dg.cgs[0].cgOff, CG), To(dg.dtOff, PayloadKind(p)), dg.recIdSize)
  }

  /** The data link leads to the payload, and a compressed payload's list to its data. */
  ghost predicate PayloadMeant(at: nat, blocks: seq<Blk>, link: Link, p: Payload) {
    match p
    case Plain(data) => Leads(at, blocks, link, DtBlk(data))
    case Compressed(zipType, zipParameter, originalLen, data) =>
      && link.To?
      && var hl, dl := HlBlk(link.target + HL_SIZE, zipType), DlBlk(link.target + HL_SIZE + DL_SIZE, originalLen);
         && Leads(at, blocks, link, hl) && Leads(at, blocks, hl.links[0], dl)
         && Leads(at, blocks, dl.links[1], DzBlk(zipType, zipParameter, originalLen, data))
  }

  lemma {:induction false} PayloadMeantOn(at: nat, a: seq<Blk>, at': nat, b: seq<Blk>, link: Link, p: Payload)
    requires Within(at, a, at', b) && PayloadMeant(at, a, link, p)
    ensures PayloadMeant(at', b, link, p)
  {
    hide Leads, Within, DzBlk, DtBlk;
    match p
    case Plain(data) => LeadsOn(at, a, at', b, link, DtBlk(data));
    case Compressed(zipType, zipParameter, originalLen, data) =>
      var hl, dl := HlBlk(link.target + HL_SIZE, zipType), DlBlk(link.target + HL_SIZE + DL_SIZE, originalLen);
      LeadsOn(at, a, at', b, link, hl);
      LeadsOn(at, a, at', b, hl.links[0], dl);
      LeadsOn(at, a, at', b, dl.links[1], DzBlk(zipType, zipParameter, originalLen, data));
  }

  lemma {:induction false} ThreeInARow(at: nat, a: Blk, b: Blk, c: Blk)
    ensures Leads(at, [a, b, c], To(at, a.kind), a)
    ensures Leads(at, [a, b, c], To(at + Size(a), b.kind), b)
    ensures Leads(at, [a, b, c], To(at + Size(a) + Size(b), c.kind), c)
  {
    hide Size;
    var all := [a, b, c];
    assert all[..0] == [] && all[..1] == [a] && all[..2] == [a, b];
    NoExtent();
    OneExtent(a);
    OneExtent(b);
    ExtentAppended([a], [b]);
    assert [a] + [b] == [a, b];
    assert all[0] == a && all[1] == b && all[2] == c;
  }

  lemma {:induction false} PayloadOwn(at: nat, p: Payload)
    ensures PayloadMeant(at, PayloadBlocks(at, p), To(at, PayloadKind(p)), p)
  {
    hide Leads, Size, LinksForward;
    match p
    case Plain(data) => OwnBlock(at, DtBlk(data));
    case Compressed(zipType, zipParameter, originalLen, data) =>
      var dlAt, dzAt := at + HL_SIZE, at + HL_SIZE + DL_SIZE;
      ListForward(dlAt, dzAt, zipType, originalLen);
      ThreeInARow(at, HlBlk(dlAt, zipType), DlBlk(dzAt, originalLen), DzBlk(zipType, zipParameter, originalLen, data));
  }

  ghost predicate DataGroupMeant(at: nat, blocks: seq<Blk>, dg: DataGroupLayout, p: Payload, next: Link) {
    var head := DgHead(dg, p, next);
    && Stands(at, blocks, dg.dgOff, head)
    && (if dg.cgs == [] then head.links[1] == Null
        else Leads(at, blocks, head.links[1], CgHead(dg.cgs[0], NextCg(dg.cgs, 0))))
    && PayloadMeant(at, blocks, head.links[2], p)
    && GroupsMeant(at, blocks, dg.cgs)
  }

  lemma {:induction false} DataGroupMeantOn(at: nat, a: seq<Blk>, at': nat, b: seq<Blk>, dg: DataGroupLayout, p: Payload, next: Link)
    requires Within(at, a, at', b) && DataGroupMeant(at, a, dg, p, next)
    ensures DataGroupMeant(at', b, dg, p, next)
  {
    var head := DgHead(dg, p, next);
    StandsOn(at, a, at', b, dg.dgOff, head);
    hide Within, Leads, GroupsMeant, Stands, PayloadMeant, CgHead;
    GroupsMeantOn(at, a, at', b, dg.cgs);
    PayloadMeantOn(at, a, at', b, head.links[2], p);
    if dg.cgs != [] { LeadsOn(at, a, at', b, head.links[1], CgHead(dg.cgs[0], NextCg(dg.cgs, 0))); }
  }

  lemma {:induction false} DataGroupOwn(dg: DataGroupLayout, d: DataGroup, at: nat, next: Link)
    requires DgPlaced(dg, d, at)
    ensures DataGroupMeant(at, DgBlocks(dg, d.payload, next), dg, d.payload, next)
  {
    hide Within, Leads, GroupMeant, Stands, PayloadMeant, CgHead, CgsPlaced, CgRuns, Flatten, PayloadBlocks, Extent;
    var head, groups, payload := DgHead(dg, d.payload, next), Flatten(CgRuns(dg.cgs)), PayloadBlocks(dg.dtOff, d.payload);
    var whole := DgBlocks(dg, d.payload, next);
    assert whole == [head] + (groups + payload);
    StandsFirst(at, head, groups + payload);
    OneExtent(head);
    DgHeadSize(dg, d.payload, next);
    GroupsEnd(dg, d, at);
    Placed(at, [head], at + DG_SIZE, groups, payload);
    GroupsOwn(dg.cgs, d.groups, at + DG_SIZE);
    GroupsMeantOn(at + DG_SIZE, groups, at, whole, dg.cgs);
    ExtentAppended([head], groups);
    WithinRight(at, [head] + groups, dg.dtOff, payload);
    PayloadOwn(dg.dtOff, d.payload);
    PayloadMeantOn(dg.dtOff, payload, at, whole, To(dg.dtOff, PayloadKind(d.payload)), d.payload);
    if dg.cgs != [] {
      assert GroupMeant(at, whole, dg.cgs[0], NextCg(dg.cgs, 0));
      GroupStands(at, whole, dg.cgs[0], NextCg(dg.cgs, 0));
    }
  }

  lemma {:induction false} DgHeadSize(dg: DataGroupLayout, p: Payload, next: Link)
    ensures Size(DgHead(dg, p, next)) == DG_SIZE
  {
  }

  lemma {:induction false} GroupsEnd(dg: DataGroupLayout, d: DataGroup, at: nat)
    requires DgPlaced(dg, d, at)
    ensures at + DG_SIZE + Extent(Flatten(CgRuns(dg.cgs))) == dg.dtOff
  {
    hide Run, CgsPlaced, CgsEnd, CgRuns, Extent;
    CgsRun(dg.cgs, d.groups, at + DG_SIZE);
    RunExtent(at + DG_SIZE, Flatten(CgRuns(dg.cgs)), dg.dtOff, if dg.cgs == [] then Null else To(at + DG_SIZE, CG), Null);
  }

  // ---------------------------------------------------------------- the file's links

  ghost predicate NextDataGroupMeant(at: nat, blocks: seq<Blk>, layouts: seq<DataGroupLayout>, dgs: seq<DataGroup>, i: nat)
    requires |layouts| == |dgs| && i < |layouts|
  {
    i + 1 < |layouts| ==>
      Leads(at, blocks, DgHead(layouts[i], dgs[i].payload, NextDg(layouts, i)).links[0],
            DgHead(layouts[i + 1], dgs[i + 1].payload, NextDg(layouts, i + 1)))
  }

  ghost predicate DataGroupsMeant(at: nat, blocks: seq<Blk>, layouts: seq<DataGroupLayout>, dgs: seq<DataGroup>)
    requires |layouts| == |dgs|
  {
    forall i :: 0 <= i < |layouts| ==>
      && DataGroupMeant(at, blocks, layouts[i], dgs[i].payload, NextDg(layouts, i))
      && NextDataGroupMeant(at, blocks, layouts, dgs, i)
  }

  lemma {:induction false} DgHeadLinks(dg: DataGroupLayout, p: Payload, next: Link)
    ensures |DgHead(dg, p, next).links| == 4 && DgHead(dg, p, next).links[0] == next && DgHead(dg, p, next).kind == DG
  {
  }

  lemma {:induction false} DataGroupStands(at: nat, blocks: seq<Blk>, dg: DataGroupLayout, p: Payload, next: Link)
    requires DataGroupMeant(at, blocks, dg, p, next)
    ensures Leads(at, blocks, To(dg.dgOff, DG), DgHead(dg, p, next))
  {
    hide Stands, GroupsMeant, PayloadMeant, CgHead;
  }

  lemma {:induction false} DataGroupsChained(layouts: seq<DataGroupLayout>, dgs: seq<DataGroup>, at: nat) returns (ats: seq<nat>)
    requires |layouts| == |dgs| && DgsPlaced(layouts, dgs, |dgs|, at) && layouts != []
    ensures Chain(ats, DgRuns(layouts, dgs), DgsEnd(layouts, dgs, at), DG)
    ensures |ats| == |layouts| && ats[0] == at && forall i :: 0 <= i < |layouts| ==> ats[i] == layouts[i].dgOff
    ensures forall i :: 0 <= i < |layouts| ==> DgPlaced(layouts[i], dgs[i], layouts[i].dgOff)
  {
    hide Run, DgBlocks, DgEnd, DgPlaced, DgsPlaced;
    ats := seq(|layouts|, i requires 0 <= i < |layouts| => layouts[i].dgOff);
    forall i | 0 <= i < |layouts|
      ensures Run(ats[i], DgRuns(layouts, dgs)[i], NextAt(ats, i + 1, DgsEnd(layouts, dgs, at)), To(ats[i], DG), NextIn(ats, i + 1, DG))
      ensures DgPlaced(layouts[i], dgs[i], layouts[i].dgOff)
    {
      DgsLink(layouts, dgs, at, i);
      DgPlacedAt(layouts, dgs, at, i);
      if i + 1 < |layouts| { DgsLink(layouts, dgs, at, i + 1); }
    }
    DgsLink(layouts, dgs, at, 0);
  }

  lemma {:induction false} DgPlacedAt(layouts: seq<DataGroupLayout>, dgs: seq<DataGroup>, at: nat, i: nat)
    requires DgsPlaced(layouts, dgs, |dgs|, at) && i < |layouts|
    ensures DgPlaced(layouts[i], dgs[i], DgFrom(layouts, dgs, i, at))
  {
  }

  lemma {:induction false} DataGroupsOwn(layouts: seq<DataGroupLayout>, dgs: seq<DataGroup>, at: nat, at': nat, whole: seq<Blk>)
    requires |layouts| == |dgs| && DgsPlaced(layouts, dgs, |dgs|, at) && Within(at, Flatten(DgRuns(layouts, dgs)), at', whole)
    ensures DataGroupsMeant(at', whole, layouts, dgs)
  {
    hide Within, Leads, DataGroupMeant, Chain, DgsPlaced, DgBlocks, DgPlaced, Flatten, DgHead;
    if layouts != [] {
      var ats := DataGroupsChained(layouts, dgs, at);
      var runs := DgRuns(layouts, dgs);
      forall i | 0 <= i < |layouts| ensures DataGroupMeant(at', whole, layouts[i], dgs[i].payload, NextDg(layouts, i)) {
        DataGroupOwn(layouts[i], dgs[i], layouts[i].dgOff, NextDg(layouts, i));
        WithinChain(ats, runs, DgsEnd(layouts, dgs, at), DG, i);
        WithinBoth(ats[i], runs[i], at, Flatten(runs), at', whole);
        DataGroupMeantOn(ats[i], runs[i], at', whole, layouts[i], dgs[i].payload, NextDg(layouts, i));
      }
      forall i | 0 <= i < |layouts| ensures NextDataGroupMeant(at', whole, layouts, dgs, i) {
        if i + 1 < |layouts| {
          DgHeadLinks(layouts[i], dgs[i].payload, NextDg(layouts, i));
          DataGroupStands(at', whole, layouts[i + 1], dgs[i + 1].payload, NextDg(layouts, i + 1));
        }
      }
    }
  }

  /** The header's links lead to the first data group and the file history, whose link leads to its text. */
  ghost predicate HeaderMeant(at: nat, blocks: seq<Blk>, layouts: seq<DataGroupLayout>, dgs: seq<DataGroup>,
                              startTime: StartTime, history: Text)
    requires |layouts| == |dgs|
  {
    var hd, fh := HdBlk(FirstDg(layouts), To(FH_AT, FH), startTime), FhBlk(To(FH_TEXT_AT, TX), startTime);
    && Stands(at, blocks, ID_SIZE, hd)
    && (if layouts == [] then hd.links[0] == Null
        else Leads(at, blocks, hd.links[0], DgHead(layouts[0], dgs[0].payload, NextDg(layouts, 0))))
    && Leads(at, blocks, hd.links[1], fh) && Leads(at, blocks, fh.links[1], TxBlk(history))
  }

  lemma {:induction false} HeaderOwn(rest: seq<Blk>, dgFirst: Link, startTime: StartTime, history: Text)
    ensures var whole := HeaderBlocks(dgFirst, startTime, history) + rest;
            && Stands(ID_SIZE, whole, ID_SIZE, HdBlk(dgFirst, To(FH_AT, FH), startTime))
            && Leads(ID_SIZE, whole, To(FH_AT, FH), FhBlk(To(FH_TEXT_AT, TX), startTime))
            && Leads(ID_SIZE, whole, To(FH_TEXT_AT, TX), TxBlk(history))
            && Within(DgsAt(history), rest, ID_SIZE, whole)
  {
    hide Within, Extent, Stands;
    var hd, fh, tx := HdBlk(dgFirst, To(FH_AT, FH), startTime), FhBlk(To(FH_TEXT_AT, TX), startTime), TxBlk(history);
    var whole := HeaderBlocks(dgFirst, startTime, history) + rest;
    HeaderSizes(dgFirst, startTime, history);
    OneExtent(hd);
    OneExtent(fh);
    OneExtent(tx);
    ExtentAppended([hd], [fh]);
    ExtentAppended([hd] + [fh], [tx]);
    assert whole == [hd] + [fh, tx] + rest == [hd] + [fh] + ([tx] + rest) == [hd] + [fh] + [tx] + rest;
    StandsFirst(ID_SIZE, hd, [fh, tx] + rest);
    assert [hd] + ([fh, tx] + rest) == whole;
    Placed(ID_SIZE, [hd], FH_AT, [fh], [tx] + rest);
    OwnBlock(FH_AT, fh);
    LeadsOn(FH_AT, [fh], ID_SIZE, whole, To(FH_AT, FH), fh);
    Placed(ID_SIZE, [hd] + [fh], FH_TEXT_AT, [tx], rest);
    OwnBlock(FH_TEXT_AT, tx);
    LeadsOn(FH_TEXT_AT, [tx], ID_SIZE, whole, To(FH_TEXT_AT, TX), tx);
    WithinRight(ID_SIZE, [hd] + [fh] + [tx], DgsAt(history), rest);
  }

  lemma {:induction false} HeaderSizes(dgFirst: Link, startTime: StartTime, history: Text)
    ensures ID_SIZE + Size(HdBlk(dgFirst, To(FH_AT, FH), startTime)) == FH_AT
    ensures FH_AT + Size(FhBlk(To(FH_TEXT_AT, TX), startTime)) == FH_TEXT_AT
    ensures FH_TEXT_AT + Size(TxBlk(history)) == DgsAt(history)
  {
  }

  /** Every link in the file leads to the very block it is meant for, whatever is being written. */
  lemma {:induction false} EveryLinkMeant(layouts: seq<DataGroupLayout>, dgs: seq<DataGroup>, startTime: StartTime, history: Text)
    requires |layouts| == |dgs| && DgsPlaced(layouts, dgs, |dgs|, DgsAt(history))
    ensures HeaderMeant(ID_SIZE, FileBlocksOf(layouts, dgs, startTime, history), layouts, dgs, startTime, history)
    ensures DataGroupsMeant(ID_SIZE, FileBlocksOf(layouts, dgs, startTime, history), layouts, dgs)
  {
    hide Within, Leads, Stands, DataGroupMeant, DgsPlaced, DgRuns, DgHead, TxBlk;
    var whole := FileBlocksOf(layouts, dgs, startTime, history);
    HeaderOwn(Flatten(DgRuns(layouts, dgs)), FirstDg(layouts), startTime, history);
    DataGroupsOwn(layouts, dgs, DgsAt(history), ID_SIZE, whole);
    if layouts != [] {
      assert DataGroupMeant(ID_SIZE, whole, layouts[0], dgs[0].payload, NextDg(layouts, 0));
      DataGroupStands(ID_SIZE, whole, layouts[0], dgs[0].payload, NextDg(layouts, 0));
    }
  }

  /** Where a channel group has been placed, and that its links are meant. */
  lemma {:induction false} PlacedAndMeant(at: nat, blocks: seq<Blk>, layouts: seq<DataGroupLayout>, dgs: seq<DataGroup>, from: nat,
                                          d: nat, g: nat) returns (start: nat)
    requires |layouts| == |dgs| && DgsPlaced(layouts, dgs, |dgs|, from) && DataGroupsMeant(at, blocks, layouts, dgs)
    requires d < |dgs| && g < |dgs[d].groups|
    ensures g < |layouts[d].cgs|
    ensures CgPlaced(layouts[d].cgs[g], dgs[d].groups[g], RecordIdOf(|dgs[d].groups|, g), start)
    ensures GroupMeant(at, blocks, layouts[d].cgs[g], NextCg(layouts[d].cgs, g))
  {
    hide Stands, Leads, DgHead, PayloadMeant, ChannelsPlaced, ChannelsMeant, CgHead, CgEnd, PayloadSize;
    var dg := layouts[d];
    assert DataGroupMeant(at, blocks, dg, dgs[d].payload, NextDg(layouts, d));
    assert DgPlaced(dg, dgs[d], DgFrom(layouts, dgs, d, from));
    start := CgFrom(dg.cgs, g, dg.dgOff + DG_SIZE);
    assert CgPlaced(dg.cgs[g], dgs[d].groups[g], RecordIdOf(|dgs[d].groups|, g), start);
    assert GroupMeant(at, blocks, dg.cgs[g], NextCg(dg.cgs, g));
  }
}
