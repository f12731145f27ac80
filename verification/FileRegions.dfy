/** The two passes agree: each run of blocks pass 2 emits fills the footprint pass 1 set aside for it, and its links
    name exactly the blocks in it. */
module FileRegions {
  import opened Bytes
  import opened Options
  import opened WriterModel
  import opened BlockFormat
  import opened FileLayout
  import opened FileBlocks

  /** A run whose only way in is `entry`, and whose only way out is `exit`. */
  ghost predicate Run(at: nat, blocks: seq<Blk>, end: nat, entry: Link, exit: Link) {
    Region(at, blocks, end, PlaceOf(entry), PlaceOf(exit))
  }

  lemma {:induction false} NoRun(at: nat)
    ensures Run(at, [], at, Null, Null)
  {
    NoBlocks(at);
  }

  lemma {:induction false} TxRun(text: Text, at: nat)
    ensures Run(at, [TxBlk(text)], at + TxSize(text), To(at, TX), Null)
  {
    OneBlock(at, TxBlk(text));
  }

  lemma {:induction false} TextRun(text: Text, at: nat)
    ensures Run(at, TextBlocks(text), at + OptionalTxSize(text), TextLink(text, at), Null)
  {
    hide Run;
    if text == [] { NoRun(at); } else { TxRun(text, at); }
  }

  // ---------------------------------------------------------------- a conversion and its texts

  lemma {:induction false} RefLinksForward(refs: seq<Option<Text>>, at: nat)
    ensures forall i :: 0 <= i < |refs| && RefLinks(refs, at)[i].To? ==>
      RefLinks(refs, at)[i].kind == TX && at <= RefLinks(refs, at)[i].target
  {
    if refs != [] { RefLinksForward(refs[..|refs| - 1], at); }
  }

  lemma {:induction false} RunIsRegion(at: nat, blocks: seq<Blk>, end: nat, entry: Link, exit: Link)
    ensures Run(at, blocks, end, entry, exit) <==> Region(at, blocks, end, PlaceOf(entry), PlaceOf(exit))
  {
  }

  /** One more run behind a region that leads nowhere. */
  lemma {:induction false} Behind(at: nat, a: seq<Blk>, mid: nat, entries: Places, b: seq<Blk>, end: nat, entry: Link)
    requires Region(at, a, mid, entries, NONE) && Run(mid, b, end, entry, Null)
    ensures Region(at, a + b, end, entries + PlaceOf(entry), NONE)
  {
    RunIsRegion(mid, b, end, entry, Null);
    hide Region;
    Joined(at, a, mid, b, end, entries, NONE, PlaceOf(entry), NONE, NONE, entries + PlaceOf(entry), NONE);
  }

  lemma {:induction false} RefsRegion(refs: seq<Option<Text>>, at: nat)
    ensures Region(at, RefBlocks(refs), at + RefsSize(refs), LinkPlaces(RefLinks(refs, at)), NONE)
  {
    hide Region, Run, LinkPlaces, PlaceOf;
    if refs == [] {
      NoBlocks(at);
      NoLinks();
    } else {
      var before, last := refs[..|refs| - 1], refs[|refs| - 1];
      var mid := at + RefsSize(before);
      RefsRegion(before, at);
      LinksAppended(RefLinks(before, at), if last.Some? then To(mid, TX) else Null);
      NullIsNowhere();
      if last.Some? {
        TxRun(last.value, mid);
        Behind(at, RefBlocks(before), mid, LinkPlaces(RefLinks(before, at)), [TxBlk(last.value)], mid + TxSize(last.value), To(mid, TX));
      } else {
        assert RefBlocks(before) + [] == RefBlocks(before);
        assert LinkPlaces(RefLinks(before, at)) + NONE == LinkPlaces(RefLinks(before, at));
      }
    }
  }

  lemma {:induction false} CcBlkForward(at: nat, plan: CcPlan)
    ensures LinksForward(CcBlk(at, plan), at + Size(CcBlk(at, plan))) && Size(CcBlk(at, plan)) == CcSize(plan)
  {
    hide RefLinks;
    RefLinksForward(plan.refs, at + CcSize(plan));
  }

  lemma {:induction false} CcRun(at: nat, plan: CcPlan)
    ensures Run(at, [CcBlk(at, plan)] + RefBlocks(plan.refs), at + CcSize(plan) + RefsSize(plan.refs), To(at, CC), Null)
  {
    var mid := at + CcSize(plan);
    hide Region, LinkPlaces, RefLinks, RefBlocks, RefsSize, CcSize;
    CcBlkForward(at, plan);
    RefsRegion(plan.refs, mid);
    NullLinks([Null, Null, Null, Null], RefLinks(plan.refs, mid));
    assert LinkPlaces(RefLinks(plan.refs, mid)) + NONE == LinkPlaces(RefLinks(plan.refs, mid));
    Headed(at, CcBlk(at, plan), mid, RefBlocks(plan.refs), mid + RefsSize(plan.refs), LinkPlaces(RefLinks(plan.refs, mid)), Null);
  }

  /** A block in front of what its links name, but for one link that leads on. */
  lemma {:induction false} Headed(at: nat, b: Blk, mid: nat, rest: seq<Blk>, end: nat, inner: Places, exit: Link)
    requires LinksForward(b, mid) && mid == at + Size(b) && LinkPlaces(b.links) == inner + PlaceOf(exit)
    requires Region(mid, rest, end, inner, NONE)
    ensures Run(at, [b] + rest, end, To(at, b.kind), exit)
  {
    hide Region, LinkPlaces, LinksForward;
    OneBlock(at, b);
    Joined(at, [b], mid, rest, end, multiset{(at, b.kind)}, inner + PlaceOf(exit), inner, NONE,
           inner, multiset{(at, b.kind)}, PlaceOf(exit));
  }

  // ---------------------------------------------------------------- a channel

  lemma {:induction false} CcPartRun(l: ChannelLayout)
    requires Coherent(l)
    ensures Run(CcAt(l), CcBlocks(l), CcAt(l) + CcPartSize(l), CcLink(l), Null)
  {
    hide Run, RefBlocks, RefsSize;
    if l.cc.Some? { CcRun(l.cc.value.at, l.cc.value.plan); } else { NoRun(CcAt(l)); }
  }

  lemma {:induction false} CaPartRun(l: ChannelLayout, at: nat)
    requires Coherent(l) && at == CcAt(l) + CcPartSize(l)
    ensures Run(at, CaBlocks(l), at + CaPartSize(l), CaLink(l), Null)
  {
    if l.ca.Some? {
      OneBlock(at, CaBlk(l.ca.value.shape, l.ca.value.stride));
      OneLink(Null);
    } else {
      NoRun(at);
    }
  }

  lemma {:induction false} SdPartRun(l: ChannelLayout, at: nat)
    requires Coherent(l) && at == CcAt(l) + CcPartSize(l) + CaPartSize(l)
    ensures Run(at, SdBlocks(l), ChannelEnd(l), SdLink(l), Null)
  {
    if l.sd.Some? {
      OneBlock(at, SdBlk(l.sd.value.data));
    } else {
      NoRun(at);
    }
  }

  ghost function PartPlaces(l: ChannelLayout): Places {
    PlaceOf(To(l.cnOff + CN_SIZE, TX)) + PlaceOf(TextLink(l.unit, l.cnOff + CN_SIZE + TxSize(l.name)))
    + PlaceOf(TextLink(l.comment, CommentAt(l))) + PlaceOf(CcLink(l)) + PlaceOf(CaLink(l)) + PlaceOf(SdLink(l))
  }

  lemma {:induction false} TextsRegion(l: ChannelLayout) returns (blocks: seq<Blk>, places: Places)
    ensures blocks == [TxBlk(l.name)] + TextBlocks(l.unit) + TextBlocks(l.comment)
    ensures places == PlaceOf(To(l.cnOff + CN_SIZE, TX)) + PlaceOf(TextLink(l.unit, l.cnOff + CN_SIZE + TxSize(l.name)))
                    + PlaceOf(TextLink(l.comment, CommentAt(l)))
    ensures Region(l.cnOff + CN_SIZE, blocks, CcAt(l), places, NONE)
  {
    hide Region, TextBlocks, PlaceOf;
    var at := l.cnOff + CN_SIZE;
    var unitAt := at + TxSize(l.name);
    TxRun(l.name, at);
    NothingLeaves(at, [TxBlk(l.name)], unitAt, To(at, TX));
    TextRun(l.unit, unitAt);
    Behind(at, [TxBlk(l.name)], unitAt, PlaceOf(To(at, TX)), TextBlocks(l.unit), CommentAt(l), TextLink(l.unit, unitAt));
    TextRun(l.comment, CommentAt(l));
    Behind(at, [TxBlk(l.name)] + TextBlocks(l.unit), CommentAt(l), PlaceOf(To(at, TX)) + PlaceOf(TextLink(l.unit, unitAt)),
           TextBlocks(l.comment), CcAt(l), TextLink(l.comment, CommentAt(l)));
    blocks := [TxBlk(l.name)] + TextBlocks(l.unit) + TextBlocks(l.comment);
    places := PlaceOf(To(at, TX)) + PlaceOf(TextLink(l.unit, unitAt)) + PlaceOf(TextLink(l.comment, CommentAt(l)));
  }

  lemma {:induction false} NothingLeaves(at: nat, blocks: seq<Blk>, end: nat, entry: Link)
    requires Run(at, blocks, end, entry, Null)
    ensures Region(at, blocks, end, PlaceOf(entry), NONE)
  {
  }

  lemma {:induction false} PartsRegion(l: ChannelLayout)
    requires Coherent(l)
    ensures Region(l.cnOff + CN_SIZE, ChannelParts(l), ChannelEnd(l), PartPlaces(l), NONE)
  {
    var caAt, sdAt := CcAt(l) + CcPartSize(l), CcAt(l) + CcPartSize(l) + CaPartSize(l);
    hide Region, Run, PlaceOf, TextBlocks, CcBlocks, CaBlocks, SdBlocks, CcAt, CcPartSize, CaPartSize, Coherent;
    CcPartRun(l);
    CaPartRun(l, caAt);
    SdPartRun(l, sdAt);
    var at := l.cnOff + CN_SIZE;
    var texts, places := TextsRegion(l);
    Behind(at, texts, CcAt(l), places, CcBlocks(l), caAt, CcLink(l));
    Behind(at, texts + CcBlocks(l), caAt, places + PlaceOf(CcLink(l)), CaBlocks(l), sdAt, CaLink(l));
    Behind(at, texts + CcBlocks(l) + CaBlocks(l), sdAt, places + PlaceOf(CcLink(l)) + PlaceOf(CaLink(l)),
           SdBlocks(l), ChannelEnd(l), SdLink(l));
  }

  lemma {:induction false} CnPlaces(l: ChannelLayout, next: Link)
    ensures LinkPlaces(CnLinks(l, next)) == PartPlaces(l) + PlaceOf(next)
  {
    hide LinkPlaces, PlaceOf;
    var ls := CnLinks(l, next);
    SixLinks(ls[0], ls[1], ls[2], ls[3], ls[4], ls[5]);
    var six := [ls[0], ls[1], ls[2], ls[3], ls[4], ls[5]];
    LinksAppended(six, ls[6]);
    LinksAppended(six + [ls[6]], ls[7]);
    assert six + [ls[6]] + [ls[7]] == ls;
    NullIsNowhere();
    Shuffle(PlaceOf(ls[0]), PlaceOf(ls[1]), PlaceOf(ls[2]), PlaceOf(ls[4]), PlaceOf(ls[5]), PlaceOf(ls[6]), PlaceOf(ls[7]));
  }

  lemma {:induction false} NullIsNowhere()
    ensures PlaceOf(Null) == NONE
  {
  }

  lemma {:induction false} Shuffle(next: Places, ca: Places, name: Places, cc: Places, sd: Places, unit: Places, comment: Places)
    ensures next + ca + name + NONE + cc + sd + unit + comment == name + unit + comment + cc + ca + sd + next
  {
  }

  lemma {:induction false} CnForward(l: ChannelLayout, next: Link)
    requires Coherent(l) && (next == Null || next == To(ChannelEnd(l), CN))
    ensures LinksForward(CnBlk(l, next), l.cnOff + Size(CnBlk(l, next))) && Size(CnBlk(l, next)) == CN_SIZE
  {
    hide Le, Zeros, TxSize, CcSize, RefsSize;
  }

  /** A channel's blocks fill its footprint, and nothing but the chain of channels leads in or out. */
  lemma {:induction false} ChannelRun(l: ChannelLayout, next: Link)
    requires Coherent(l) && (next == Null || next == To(ChannelEnd(l), CN))
    ensures Run(l.cnOff, ChannelBlocks(l, next), ChannelEnd(l), To(l.cnOff, CN), next)
  {
    hide Region, LinkPlaces, PartPlaces, ChannelParts, ChannelEnd, CnLinks, LinksForward, Coherent, Size;
    CnForward(l, next);
    PartsRegion(l);
    CnPlaces(l, next);
    Headed(l.cnOff, CnBlk(l, next), l.cnOff + CN_SIZE, ChannelParts(l), ChannelEnd(l), PartPlaces(l), next);
  }

  // ---------------------------------------------------------------- chains

  function NextIn(ats: seq<nat>, k: nat, kind: Kind): Link {
    if k < |ats| then To(ats[k], kind) else Null
  }

  function NextAt(ats: seq<nat>, k: nat, end: nat): nat {
    if k < |ats| then ats[k] else end
  }

  /** One run behind another that leads to it. */
  lemma {:induction false} Linked(at: nat, a: seq<Blk>, mid: nat, b: seq<Blk>, end: nat, entry: Link, joint: Link, exit: Link)
    requires Run(at, a, mid, entry, joint) && Run(mid, b, end, joint, exit)
    ensures Run(at, a + b, end, entry, exit)
  {
    hide Region;
    Joined(at, a, mid, b, end, PlaceOf(entry), PlaceOf(joint), PlaceOf(joint), PlaceOf(exit),
           PlaceOf(joint), PlaceOf(entry), PlaceOf(exit));
  }

  ghost predicate Chain(ats: seq<nat>, runs: seq<seq<Blk>>, end: nat, kind: Kind) {
    && |ats| == |runs|
    && forall k :: 0 <= k < |runs| ==>
        Run(ats[k], runs[k], NextAt(ats, k + 1, end), To(ats[k], kind), NextIn(ats, k + 1, kind))
  }

  lemma {:induction false} ChainPrefix(ats: seq<nat>, runs: seq<seq<Blk>>, end: nat, kind: Kind, k: nat)
    requires Chain(ats, runs, end, kind) && 0 < k <= |runs|
    ensures Run(ats[0], Flatten(runs[..k]), NextAt(ats, k, end), To(ats[0], kind), NextIn(ats, k, kind))
  {
    hide Run;
    if k == 1 {
      assert runs[..1] == [runs[0]] && [runs[0]][..0] == [];
      assert Flatten([runs[0]]) == [] + runs[0] == runs[0];
    } else {
      ChainPrefix(ats, runs, end, kind, k - 1);
      FlattenNext(runs, k - 1);
      Linked(ats[0], Flatten(runs[..k - 1]), ats[k - 1], runs[k - 1], NextAt(ats, k, end),
             To(ats[0], kind), To(ats[k - 1], kind), NextIn(ats, k, kind));
    }
  }

  /** Runs one behind the other, each leading to the next, make one run. */
  lemma {:induction false} ChainRun(ats: seq<nat>, runs: seq<seq<Blk>>, end: nat, kind: Kind)
    requires Chain(ats, runs, end, kind) && runs != []
    ensures Run(ats[0], Flatten(runs), end, To(ats[0], kind), Null)
  {
    ChainPrefix(ats, runs, end, kind, |runs|);
    assert runs[..|runs|] == runs;
  }

  // ---------------------------------------------------------------- a channel group

  lemma {:induction false} ChannelsRun(ls: seq<ChannelLayout>, g: Group, at: nat)
    requires ChannelsPlaced(ls, g, |g.channels|, at)
    ensures Run(at, Flatten(ChannelRuns(ls)), ChannelEnd(ls[|ls| - 1]), To(at, CN), Null)
  {
    var end := ChannelEnd(ls[|ls| - 1]);
    var ats: seq<nat> := seq(|ls|, k requires 0 <= k < |ls| => ls[k].cnOff);
    var runs := ChannelRuns(ls);
    forall k | 0 <= k < |ls|
      ensures Run(ats[k], runs[k], NextAt(ats, k + 1, end), To(ats[k], CN), NextIn(ats, k + 1, CN))
    {
      hide Run, Describes, ChannelBlocks, Coherent;
      ChannelRun(ls[k], NextCn(ls, k));
    }
    hide Run;
    ChainRun(ats, runs, end, CN);
  }

  lemma {:induction false} CgRun(cg: CgLayout, g: Group, recordId: nat, at: nat, next: Link)
    requires CgPlaced(cg, g, recordId, at) && (next == Null || next == To(CgEnd(cg), CG))
    ensures Run(at, CgBlocks(cg, next), CgEnd(cg), To(at, CG), next)
  {
    hide Run, Region, LinkPlaces;
    var first := To(at + CG_SIZE, CN);
    ChannelsRun(cg.channels, g, at + CG_SIZE);
    NothingLeaves(at + CG_SIZE, Flatten(ChannelRuns(cg.channels)), CgEnd(cg), first);
    var b := CgBlk(g, first, next, recordId);
    SixLinks(next, first, Null, Null, Null, Null);
    CgForward(cg, g, recordId, at, next);
    Headed(at, b, at + CG_SIZE, Flatten(ChannelRuns(cg.channels)), CgEnd(cg), PlaceOf(first), next);
  }

  lemma {:induction false} CgForward(cg: CgLayout, g: Group, recordId: nat, at: nat, next: Link)
    requires CgPlaced(cg, g, recordId, at) && (next == Null || next == To(CgEnd(cg), CG))
    ensures Size(CgBlk(g, To(at + CG_SIZE, CN), next, recordId)) == CG_SIZE
    ensures LinksForward(CgBlk(g, To(at + CG_SIZE, CN), next, recordId), at + CG_SIZE)
  {
    ChannelsAdvance(cg.channels, g, at + CG_SIZE, |g.channels|);
  }

  lemma {:induction false} ChannelsAdvance(ls: seq<ChannelLayout>, g: Group, at: nat, k: nat)
    requires ChannelsPlaced(ls, g, |g.channels|, at) && k < |ls|
    ensures at <= ChannelEnd(ls[k])
  {
    if k > 0 { ChannelsAdvance(ls, g, at, k - 1); }
  }

  lemma {:induction false} CgsLink(cgs: seq<CgLayout>, groups: seq<Group>, at: nat, i: nat)
    requires CgsPlaced(cgs, groups, |groups|, at) && i < |cgs|
    ensures cgs[i].cgOff == CgFrom(cgs, i, at)
    ensures Run(cgs[i].cgOff, CgBlocks(cgs[i], NextCg(cgs, i)), CgFrom(cgs, i + 1, at), To(cgs[i].cgOff, CG), NextCg(cgs, i))
    ensures NextCg(cgs, i) == if i + 1 < |cgs| then To(CgFrom(cgs, i + 1, at), CG) else Null
  {
    hide Run, CgEnd, CgBlocks, ChannelsPlaced;
    assert CgPlaced(cgs[i], groups[i], RecordIdOf(|groups|, i), CgFrom(cgs, i, at));
    if i + 1 < |cgs| { assert CgPlaced(cgs[i + 1], groups[i + 1], RecordIdOf(|groups|, i + 1), CgFrom(cgs, i + 1, at)); }
    CgRun(cgs[i], groups[i], RecordIdOf(|groups|, i), CgFrom(cgs, i, at), NextCg(cgs, i));
  }

  lemma {:induction false} CgsRun(cgs: seq<CgLayout>, groups: seq<Group>, at: nat)
    requires CgsPlaced(cgs, groups, |groups|, at)
    ensures Run(at, Flatten(CgRuns(cgs)), CgsEnd(cgs, at), if cgs == [] then Null else To(at, CG), Null)
  {
    hide Run, CgsPlaced, CgBlocks, CgEnd;
    if cgs == [] {
      NoRun(at);
    } else {
      var ats: seq<nat> := seq(|cgs|, i requires 0 <= i < |cgs| => cgs[i].cgOff);
      forall i | 0 <= i < |cgs|
        ensures Run(ats[i], CgRuns(cgs)[i], NextAt(ats, i + 1, CgsEnd(cgs, at)), To(ats[i], CG), NextIn(ats, i + 1, CG))
      {
        CgsLink(cgs, groups, at, i);
        if i + 1 < |cgs| { CgsLink(cgs, groups, at, i + 1); }
      }
      CgsLink(cgs, groups, at, 0);
      ChainRun(ats, CgRuns(cgs), CgsEnd(cgs, at), CG);
    }
  }

  // ---------------------------------------------------------------- a data group

  lemma {:induction false} DtRun(at: nat, data: seq<byte>)
    ensures Run(at, [DtBlk(data)], at + DT_HEADER_SIZE + |data|, To(at, DT), Null)
  {
    OneBlock(at, DtBlk(data));
  }

  lemma {:induction false} DzRun(at: nat, zipType: byte, zipParameter: nat, originalLen: nat, data: seq<byte>)
    ensures Run(at, [DzBlk(zipType, zipParameter, originalLen, data)], at + DZ_HEADER_SIZE + |data|, To(at, DZ), Null)
  {
    OneBlock(at, DzBlk(zipType, zipParameter, originalLen, data));
  }

  lemma {:induction false} ListForward(dlAt: nat, dzAt: nat, zipType: byte, originalLen: nat)
    requires dzAt == dlAt + DL_SIZE
    ensures Size(HlBlk(dlAt, zipType)) == HL_SIZE && LinksForward(HlBlk(dlAt, zipType), dlAt)
    ensures Size(DlBlk(dzAt, originalLen)) == DL_SIZE && LinksForward(DlBlk(dzAt, originalLen), dzAt)
  {
  }

  lemma {:induction false} CompressedRun(at: nat, zipType: byte, zipParameter: nat, originalLen: nat, data: seq<byte>)
    ensures Run(at, [HlBlk(at + HL_SIZE, zipType)] + ([DlBlk(at + HL_SIZE + DL_SIZE, originalLen)]
                    + [DzBlk(zipType, zipParameter, originalLen, data)]),
                at + HL_SIZE + DL_SIZE + DZ_HEADER_SIZE + |data|, To(at, HL), Null)
  {
    hide Run, Region, LinkPlaces, Size, LinksForward;
    var dlAt, dzAt := at + HL_SIZE, at + HL_SIZE + DL_SIZE;
    var end := dzAt + DZ_HEADER_SIZE + |data|;
    var dz, dl, hl := DzBlk(zipType, zipParameter, originalLen, data), DlBlk(dzAt, originalLen), HlBlk(dlAt, zipType);
    ListForward(dlAt, dzAt, zipType, originalLen);
    DzRun(dzAt, zipType, zipParameter, originalLen, data);
    NothingLeaves(dzAt, [dz], end, To(dzAt, DZ));
    TwoLinks(Null, To(dzAt, DZ));
    Headed(dlAt, dl, dzAt, [dz], end, PlaceOf(To(dzAt, DZ)), Null);
    NothingLeaves(dlAt, [dl] + [dz], end, To(dlAt, DL));
    OneLink(To(dlAt, DL));
    Headed(at, hl, dlAt, [dl] + [dz], end, PlaceOf(To(dlAt, DL)), Null);
  }

  lemma {:induction false} PayloadRun(at: nat, p: Payload)
    ensures Run(at, PayloadBlocks(at, p), at + PayloadSize(p), To(at, PayloadKind(p)), Null)
  {
    hide Run, DtBlk, DzBlk, HlBlk, DlBlk;
    match p
    case Plain(data) => DtRun(at, data);
    case Compressed(zipType, zipParameter, originalLen, data) =>
      CompressedRun(at, zipType, zipParameter, originalLen, data);
      var hl, dl, dz := HlBlk(at + HL_SIZE, zipType), DlBlk(at + HL_SIZE + DL_SIZE, originalLen),
                        DzBlk(zipType, zipParameter, originalLen, data);
      assert [hl] + ([dl] + [dz]) == PayloadBlocks(at, p);
  }

  lemma {:induction false} DgForward(dg: DataGroupLayout, d: DataGroup, at: nat, next: Link, cgFirst: Link, data: Link)
    requires DgPlaced(dg, d, at) && (next == Null || next == To(DgEnd(dg, d), DG))
    requires (cgFirst == Null || cgFirst == To(at + DG_SIZE, CG)) && data == To(dg.dtOff, PayloadKind(d.payload))
    ensures Size(DgBlk(next, cgFirst, data, dg.recIdSize)) == DG_SIZE
    ensures LinksForward(DgBlk(next, cgFirst, data, dg.recIdSize), at + DG_SIZE)
  {
    hide CgsPlaced, CgsEnd, Zeros;
    CgsAdvance(dg.cgs, d.groups, at + DG_SIZE, |dg.cgs|);
    assert CgsEnd(dg.cgs, at + DG_SIZE) == CgFrom(dg.cgs, |dg.cgs|, at + DG_SIZE) by { EndIsFrom(dg.cgs, at + DG_SIZE); }
  }

  lemma {:induction false} EndIsFrom(cgs: seq<CgLayout>, at: nat)
    ensures CgsEnd(cgs, at) == CgFrom(cgs, |cgs|, at)
  {
  }

  lemma {:induction false} CgAdvance(cg: CgLayout, g: Group, recordId: nat, at: nat)
    requires CgPlaced(cg, g, recordId, at)
    ensures at <= CgEnd(cg)
  {
    ChannelsAdvance(cg.channels, g, at + CG_SIZE, |g.channels|);
  }

  lemma {:induction false} CgsAdvance(cgs: seq<CgLayout>, groups: seq<Group>, at: nat, i: nat)
    requires CgsPlaced(cgs, groups, |groups|, at) && i <= |cgs|
    ensures at <= CgFrom(cgs, i, at)
  {
    hide CgPlaced, CgEnd;
    if i > 0 {
      CgsAdvance(cgs, groups, at, i - 1);
      CgAdvance(cgs[i - 1], groups[i - 1], RecordIdOf(|groups|, i - 1), CgFrom(cgs, i - 1, at));
    }
  }

  lemma {:induction false} DgRun(dg: DataGroupLayout, d: DataGroup, at: nat, next: Link)
    requires DgPlaced(dg, d, at) && (next == Null || next == To(DgEnd(dg, d), DG))
    ensures Run(at, DgBlocks(dg, d.payload, next), DgEnd(dg, d), To(at, DG), next)
  {
    hide Run, Region, LinkPlaces, CgsPlaced, CgsEnd, PayloadBlocks, CgRuns, Flatten, LinksForward, Size;
    var cgs, payload := Flatten(CgRuns(dg.cgs)), PayloadBlocks(dg.dtOff, d.payload);
    var cgFirst := FirstCg(dg, d, at);
    var data := To(dg.dtOff, PayloadKind(d.payload));
    DgForward(dg, d, at, next, cgFirst, data);
    CgsRun(dg.cgs, d.groups, at + DG_SIZE);
    NothingLeaves(at + DG_SIZE, cgs, dg.dtOff, cgFirst);
    PayloadRun(dg.dtOff, d.payload);
    Behind(at + DG_SIZE, cgs, dg.dtOff, PlaceOf(cgFirst), payload, DgEnd(dg, d), data);
    FourLinks(next, cgFirst, data, Null);
    var b := DgBlk(next, cgFirst, data, dg.recIdSize);
    assert DgBlocks(dg, d.payload, next) == [b] + cgs + payload;
    Headed(at, b, at + DG_SIZE, cgs + payload, DgEnd(dg, d), PlaceOf(cgFirst) + PlaceOf(data), next);
    assert [b] + cgs + payload == [b] + (cgs + payload);
  }

  lemma {:induction false} FirstCg(dg: DataGroupLayout, d: DataGroup, at: nat) returns (l: Link)
    requires DgPlaced(dg, d, at)
    ensures l == (if dg.cgs == [] then Null else To(dg.cgs[0].cgOff, CG))
    ensures l == (if dg.cgs == [] then Null else To(at + DG_SIZE, CG))
  {
    l := if dg.cgs == [] then Null else To(dg.cgs[0].cgOff, CG);
    if dg.cgs != [] { assert CgPlaced(dg.cgs[0], d.groups[0], RecordIdOf(|d.groups|, 0), CgFrom(dg.cgs, 0, at + DG_SIZE)); }
  }

  lemma {:induction false} DgsLink(layouts: seq<DataGroupLayout>, dgs: seq<DataGroup>, at: nat, i: nat)
    requires DgsPlaced(layouts, dgs, |dgs|, at) && i < |layouts|
    ensures layouts[i].dgOff == DgFrom(layouts, dgs, i, at)
    ensures Run(layouts[i].dgOff, DgBlocks(layouts[i], dgs[i].payload, NextDg(layouts, i)), DgFrom(layouts, dgs, i + 1, at),
                To(layouts[i].dgOff, DG), NextDg(layouts, i))
    ensures NextDg(layouts, i) == if i + 1 < |layouts| then To(DgFrom(layouts, dgs, i + 1, at), DG) else Null
  {
    hide Run, DgEnd, DgBlocks, CgsPlaced;
    assert DgPlaced(layouts[i], dgs[i], DgFrom(layouts, dgs, i, at));
    if i + 1 < |layouts| { assert DgPlaced(layouts[i + 1], dgs[i + 1], DgFrom(layouts, dgs, i + 1, at)); }
    DgRun(layouts[i], dgs[i], DgFrom(layouts, dgs, i, at), NextDg(layouts, i));
  }

  lemma {:induction false} DgsRun(layouts: seq<DataGroupLayout>, dgs: seq<DataGroup>, at: nat)
    requires |layouts| == |dgs| && DgsPlaced(layouts, dgs, |dgs|, at)
    ensures Run(at, Flatten(DgRuns(layouts, dgs)), DgsEnd(layouts, dgs, at), FirstDg(layouts), Null)
  {
    hide Run, DgsPlaced, DgBlocks, DgEnd;
    if layouts == [] {
      NoRun(at);
    } else {
      var ats: seq<nat> := seq(|layouts|, i requires 0 <= i < |layouts| => layouts[i].dgOff);
      var runs, end := DgRuns(layouts, dgs), DgsEnd(layouts, dgs, at);
      forall i | 0 <= i < |layouts|
        ensures Run(ats[i], runs[i], NextAt(ats, i + 1, end), To(ats[i], DG), NextIn(ats, i + 1, DG))
      {
        DgsLink(layouts, dgs, at, i);
        if i + 1 < |layouts| { DgsLink(layouts, dgs, at, i + 1); }
      }
      DgsLink(layouts, dgs, at, 0);
      ChainRun(ats, runs, end, DG);
    }
  }

  // ---------------------------------------------------------------- the file

  /** Where the data groups go: behind the header, the file history and its text. */
  function DgsAt(history: Text): nat {
    FH_TEXT_AT + TxSize(history)
  }

  /** The two passes agree, whatever is being written. The blocks run from the end of the ID block to where pass 1
      stopped; every place a link names is the start of a block of the kind the link calls for; and but for the HD
      block, which is found by its position, every block is named by exactly one link. */
  lemma {:induction false} TwoPassesAgree(layouts: seq<DataGroupLayout>, dgs: seq<DataGroup>, startTime: StartTime, history: Text)
    requires |layouts| == |dgs| && DgsPlaced(layouts, dgs, |dgs|, DgsAt(history))
    ensures Region(ID_SIZE, FileBlocksOf(layouts, dgs, startTime, history), DgsEnd(layouts, dgs, DgsAt(history)),
                   multiset{(ID_SIZE, HD)}, NONE)
  {
    hide Run, Region, LinkPlaces, DgsPlaced, DgsEnd, Flatten, DgRuns;
    var rest, end := Flatten(DgRuns(layouts, dgs)), DgsEnd(layouts, dgs, DgsAt(history));
    var blocks := HeaderBlocks(FirstDg(layouts), startTime, history);
    DgsRun(layouts, dgs, DgsAt(history));
    TxRun(history, FH_TEXT_AT);
    NothingLeaves(FH_TEXT_AT, [blocks[2]], DgsAt(history), To(FH_TEXT_AT, TX));
    TwoLinks(Null, To(FH_TEXT_AT, TX));
    Headed(FH_AT, blocks[1], FH_TEXT_AT, [blocks[2]], DgsAt(history), PlaceOf(To(FH_TEXT_AT, TX)), Null);
    NothingLeaves(FH_AT, [blocks[1]] + [blocks[2]], DgsAt(history), To(FH_AT, FH));
    Behind(FH_AT, [blocks[1]] + [blocks[2]], DgsAt(history), PlaceOf(To(FH_AT, FH)), rest, end, FirstDg(layouts));
    SixLinks(FirstDg(layouts), To(FH_AT, FH), Null, Null, Null, Null);
    FirstDgForward(layouts, dgs, history);
    Headed(ID_SIZE, blocks[0], FH_AT, [blocks[1]] + [blocks[2]] + rest, end,
           PlaceOf(To(FH_AT, FH)) + PlaceOf(FirstDg(layouts)), Null);
    assert [blocks[0]] + ([blocks[1]] + [blocks[2]] + rest) == FileBlocksOf(layouts, dgs, startTime, history);
    RunIsRegion(ID_SIZE, FileBlocksOf(layouts, dgs, startTime, history), end, To(ID_SIZE, HD), Null);
  }

  lemma {:induction false} FirstDgForward(layouts: seq<DataGroupLayout>, dgs: seq<DataGroup>, history: Text)
    requires |layouts| == |dgs| && DgsPlaced(layouts, dgs, |dgs|, DgsAt(history))
    ensures FirstDg(layouts).To? ==> FirstDg(layouts) == To(DgsAt(history), DG)
  {
    if layouts != [] { assert DgPlaced(layouts[0], dgs[0], DgFrom(layouts, dgs, 0, DgsAt(history))); }
  }
}
