/** Pass 2 of `Mf4Writer::write` (src/write.rs): the blocks it emits, and why their links land where pass 1 said. */
module FileBlocks {
  import opened Bytes
  import opened Options
  import opened WriterModel
  import opened BlockFormat
  import opened FileLayout

  // ---------------------------------------------------------------- the `write_*` functions

  /** An i64 as the u64 with the same bytes. */
  function AsU64(n: int): nat
    requires -0x8000_0000_0000_0000 <= n < 0x8000_0000_0000_0000
  {
    if n < 0 then n + U64_LIMIT else n
  }

  type StartTime = n: int | -0x8000_0000_0000_0000 <= n < 0x8000_0000_0000_0000

  function HdBlk(dgFirst: Link, fhFirst: Link, startTime: StartTime): Blk {
    Blk(HD, HD_SIZE, 6, [dgFirst, fhFirst, Null, Null, Null, Null], Le64(AsU64(startTime)) + Zeros(24))
  }

  function FhBlk(comment: Link, time: StartTime): Blk {
    Blk(FH, FH_SIZE, 2, [Null, comment], Le64(if time < 0 then 0 else time) + Zeros(8))
  }

  function TxBlk(text: Text): Blk {
    Blk(TX, TxSize(text), 0, [], text + [0])
  }

  function DgBlk(next: Link, cgFirst: Link, data: Link, recIdSize: byte): Blk {
    Blk(DG, DG_SIZE, 4, [next, cgFirst, data, Null], [recIdSize] + Zeros(7))
  }

  function CgBlk(group: Group, cnFirst: Link, next: Link, recordId: nat): Blk {
    Blk(CG, CG_SIZE, 6, [next, cnFirst, Null, Null, Null, Null],
        Le64(recordId) + Le64(|group.times|) + Zeros(8) + Le(DataBytes(group), 4) + Le(InvalBytes(group), 4))
  }

  /** `unit_off`, `comment_off`: where a text lands, when there is one. */
  function TextLink(text: Text, at: nat): Link {
    if text == [] then Null else To(at, TX)
  }

  function CcLink(l: ChannelLayout): Link {
    if l.cc.Some? then To(l.cc.value.at, CC) else Null
  }

  function CaLink(l: ChannelLayout): Link {
    if l.ca.Some? then To(l.ca.value.at, CA) else Null
  }

  function SdLink(l: ChannelLayout): Link {
    if l.sd.Some? then To(l.sd.value.at, SD) else Null
  }

  function CnLinks(l: ChannelLayout, next: Link): (links: seq<Link>)
    ensures |links| == 8
  {
    [next, CaLink(l), To(l.cnOff + CN_SIZE, TX), Null, CcLink(l), SdLink(l),
     TextLink(l.unit, l.cnOff + CN_SIZE + TxSize(l.name)), TextLink(l.comment, CommentAt(l))]
  }

  function CnBlk(l: ChannelLayout, next: Link): Blk {
    Blk(CN, CN_SIZE, 8, CnLinks(l, next),
        [l.channelType, if l.channelType == 2 then 1 else 0, l.dataType, 0]
        + Le(l.byteOffset, 4) + Le(l.bitCount, 4) + Le(l.flags, 4) + Le(l.invalBitPos, 4) + Zeros(52))
  }

  function Words(values: seq<nat>): (s: seq<byte>)
    ensures |s| == 8 * |values|
  {
    if values == [] then [] else Words(values[..|values| - 1]) + Le64(values[|values| - 1])
  }

  /** The dimension count is a u16, and the declared length is computed from it. */
  function CaBlk(shape: seq<nat>, stride: nat): Blk {
    var ndim := |shape| % 0x1_0000;
    Blk(CA, 48 + ndim * 8, 1, [Null], [0, 0] + Le(ndim, 2) + Zeros(4) + Le(stride, 4) + Zeros(4) + Words(shape))
  }

  function SdBlk(data: seq<byte>): Blk {
    Blk(SD, SD_HEADER_SIZE + |data|, 0, [], data)
  }

  /** The links of a conversion to its texts, which follow it from `at` on. */
  function RefLinks(refs: seq<Option<Text>>, at: nat): (links: seq<Link>)
    ensures |links| == |refs|
  {
    if refs == [] then [] else
      var before := refs[..|refs| - 1];
      RefLinks(before, at) + [if refs[|refs| - 1].Some? then To(at + RefsSize(before), TX) else Null]
  }

  function CcBlk(at: nat, plan: CcPlan): Blk {
    Blk(CC, CcSize(plan), 4 + |plan.refs|, [Null, Null, Null, Null] + RefLinks(plan.refs, at + CcSize(plan)),
        [plan.ccType, 0] + Zeros(2) + Le(|plan.refs|, 2) + Le(|plan.values|, 2) + Zeros(16) + Words(plan.values))
  }

  /** The part of `write_cc` that pushes the links: `textOff` runs over the texts. */
  method PushRefLinks(at: nat, plan: CcPlan) returns (links: seq<Link>)
    ensures links == [Null, Null, Null, Null] + RefLinks(plan.refs, at + CcSize(plan))
  {
    links := [Null, Null, Null, Null];
    var textOff := at + CC_HEADER_SIZE + (4 + |plan.refs|) * 8 + 24 + |plan.values| * 8;
    for i := 0 to |plan.refs|
      invariant textOff == at + CcSize(plan) + RefsSize(plan.refs[..i])
      invariant links == [Null, Null, Null, Null] + RefLinks(plan.refs[..i], at + CcSize(plan))
    {
      assert plan.refs[..i + 1][..i] == plan.refs[..i];
      match plan.refs[i]
      case Some(text) =>
        links := links + [To(textOff, TX)];
        textOff := textOff + TxSize(text);
      case None =>
        links := links + [Null];
    }
    assert plan.refs[..|plan.refs|] == plan.refs;
  }

  function DtBlk(data: seq<byte>): Blk {
    Blk(DT, DT_HEADER_SIZE + |data|, 0, [], data)
  }

  function HlBlk(dlAt: nat, zipType: byte): Blk {
    Blk(HL, HL_SIZE, 1, [To(dlAt, DL)], Zeros(2) + [zipType] + Zeros(5))
  }

  /** One entry, in the equal-length form. */
  function DlBlk(dzAt: nat, originalLen: nat): Blk {
    Blk(DL, DL_SIZE, 2, [Null, To(dzAt, DZ)], [1] + Zeros(3) + Le(1, 4) + Le64(originalLen))
  }

  function DzBlk(zipType: byte, zipParameter: nat, originalLen: nat, data: seq<byte>): Blk {
    Blk(DZ, DZ_HEADER_SIZE + |data|, 0, [],
        [68, 84, zipType, 0] + Le(zipParameter, 4) + Le64(originalLen) + Le64(|data|) + data)
  }

  function PayloadKind(p: Payload): Kind {
    if p.Plain? then DT else HL
  }

  /** `write_payload`. */
  function PayloadBlocks(at: nat, p: Payload): seq<Blk> {
    match p
    case Plain(data) => [DtBlk(data)]
    case Compressed(zipType, zipParameter, originalLen, data) =>
      [HlBlk(at + HL_SIZE, zipType), DlBlk(at + HL_SIZE + DL_SIZE, originalLen),
       DzBlk(zipType, zipParameter, originalLen, data)]
  }

  // ---------------------------------------------------------------- in the order they are emitted

  function TextBlocks(text: Text): seq<Blk> {
    if text == [] then [] else [TxBlk(text)]
  }

  function RefBlocks(refs: seq<Option<Text>>): seq<Blk> {
    if refs == [] then []
    else RefBlocks(refs[..|refs| - 1]) + match refs[|refs| - 1] case Some(t) => [TxBlk(t)] case None => []
  }

  function CcBlocks(l: ChannelLayout): seq<Blk> {
    if l.cc.Some? then [CcBlk(l.cc.value.at, l.cc.value.plan)] + RefBlocks(l.cc.value.plan.refs) else []
  }

  function CaBlocks(l: ChannelLayout): seq<Blk> {
    if l.ca.Some? then [CaBlk(l.ca.value.shape, l.ca.value.stride)] else []
  }

  function SdBlocks(l: ChannelLayout): seq<Blk> {
    if l.sd.Some? then [SdBlk(l.sd.value.data)] else []
  }

  /** What follows a channel's CN block. */
  function ChannelParts(l: ChannelLayout): seq<Blk> {
    [TxBlk(l.name)] + TextBlocks(l.unit) + TextBlocks(l.comment) + CcBlocks(l) + CaBlocks(l) + SdBlocks(l)
  }

  function ChannelBlocks(l: ChannelLayout, next: Link): seq<Blk> {
    [CnBlk(l, next)] + ChannelParts(l)
  }

  function NextCn(ls: seq<ChannelLayout>, k: nat): Link {
    if k + 1 < |ls| then To(ls[k + 1].cnOff, CN) else Null
  }

  function ChannelRuns(ls: seq<ChannelLayout>): (runs: seq<seq<Blk>>)
    ensures |runs| == |ls|
  {
    seq(|ls|, k requires 0 <= k < |ls| => ChannelBlocks(ls[k], NextCn(ls, k)))
  }

  function CgBlocks(cg: CgLayout, next: Link): seq<Blk> {
    [CgBlk(cg.group, if cg.channels == [] then Null else To(cg.channels[0].cnOff, CN), next, cg.recordId)]
    + Flatten(ChannelRuns(cg.channels))
  }

  function NextCg(cgs: seq<CgLayout>, i: nat): Link {
    if i + 1 < |cgs| then To(cgs[i + 1].cgOff, CG) else Null
  }

  function CgRuns(cgs: seq<CgLayout>): (runs: seq<seq<Blk>>)
    ensures |runs| == |cgs|
  {
    seq(|cgs|, i requires 0 <= i < |cgs| => CgBlocks(cgs[i], NextCg(cgs, i)))
  }

  function DgBlocks(dg: DataGroupLayout, p: Payload, next: Link): seq<Blk> {
    [DgBlk(next, if dg.cgs == [] then Null else To(dg.cgs[0].cgOff, CG), To(dg.dtOff, PayloadKind(p)), dg.recIdSize)]
    + Flatten(CgRuns(dg.cgs)) + PayloadBlocks(dg.dtOff, p)
  }

  function NextDg(layouts: seq<DataGroupLayout>, i: nat): Link {
    if i + 1 < |layouts| then To(layouts[i + 1].dgOff, DG) else Null
  }

  function DgRuns(layouts: seq<DataGroupLayout>, dgs: seq<DataGroup>): (runs: seq<seq<Blk>>)
    requires |layouts| == |dgs|
    ensures |runs| == |layouts|
  {
    seq(|layouts|, i requires 0 <= i < |layouts| => DgBlocks(layouts[i], dgs[i].payload, NextDg(layouts, i)))
  }

  const FH_AT: nat := ID_SIZE + HD_SIZE
  const FH_TEXT_AT: nat := FH_AT + FH_SIZE

  function HeaderBlocks(dgFirst: Link, startTime: StartTime, history: Text): seq<Blk> {
    [HdBlk(dgFirst, To(FH_AT, FH), startTime), FhBlk(To(FH_TEXT_AT, TX), startTime), TxBlk(history)]
  }

  function FirstDg(layouts: seq<DataGroupLayout>): Link {
    if layouts == [] then Null else To(layouts[0].dgOff, DG)
  }

  /** Every block of the file behind the ID block. */
  function FileBlocksOf(layouts: seq<DataGroupLayout>, dgs: seq<DataGroup>, startTime: StartTime, history: Text): seq<Blk>
    requires |layouts| == |dgs|
  {
    HeaderBlocks(FirstDg(layouts), startTime, history) + Flatten(DgRuns(layouts, dgs))
  }

  // ---------------------------------------------------------------- links of one block

  lemma {:induction false} LinksAppended(links: seq<Link>, l: Link)
    ensures LinkPlaces(links + [l]) == LinkPlaces(links) + PlaceOf(l)
  {
    assert (links + [l])[..|links|] == links;
  }

  lemma {:induction false} NoLinks()
    ensures LinkPlaces([]) == multiset{}
  {
  }

  lemma {:induction false} OneLink(a: Link)
    ensures LinkPlaces([a]) == PlaceOf(a)
  {
    LinksAppended([], a);
    assert [] + [a] == [a];
  }

  lemma {:induction false} TwoLinks(a: Link, b: Link)
    ensures LinkPlaces([a, b]) == PlaceOf(a) + PlaceOf(b)
  {
    OneLink(a);
    LinksAppended([a], b);
    assert [a] + [b] == [a, b];
  }

  lemma {:induction false} FourLinks(a: Link, b: Link, c: Link, d: Link)
    ensures LinkPlaces([a, b, c, d]) == PlaceOf(a) + PlaceOf(b) + PlaceOf(c) + PlaceOf(d)
  {
    hide LinkPlaces, PlaceOf;
    TwoLinks(a, b);
    LinksAppended([a, b], c);
    LinksAppended([a, b, c], d);
    assert [a, b] + [c] == [a, b, c] && [a, b, c] + [d] == [a, b, c, d];
  }

  lemma {:induction false} SixLinks(a: Link, b: Link, c: Link, d: Link, e: Link, f: Link)
    ensures LinkPlaces([a, b, c, d, e, f]) == PlaceOf(a) + PlaceOf(b) + PlaceOf(c) + PlaceOf(d) + PlaceOf(e) + PlaceOf(f)
  {
    hide LinkPlaces, PlaceOf;
    FourLinks(a, b, c, d);
    LinksAppended([a, b, c, d], e);
    LinksAppended([a, b, c, d, e], f);
    assert [a, b, c, d] + [e] == [a, b, c, d, e] && [a, b, c, d, e] + [f] == [a, b, c, d, e, f];
  }

  lemma {:induction false} AllNull(links: seq<Link>)
    requires forall i :: 0 <= i < |links| ==> links[i].Null?
    ensures LinkPlaces(links) == multiset{}
  {
    if links != [] { AllNull(links[..|links| - 1]); }
  }

  /** Null links name nothing. */
  lemma {:induction false} NullLinks(links: seq<Link>, rest: seq<Link>)
    requires forall i :: 0 <= i < |links| ==> links[i].Null?
    ensures LinkPlaces(links + rest) == LinkPlaces(rest)
  {
    hide LinkPlaces, PlaceOf;
    if rest == [] {
      assert links + rest == links;
      AllNull(links);
      NoLinks();
    } else {
      var before, last := rest[..|rest| - 1], rest[|rest| - 1];
      NullLinks(links, before);
      LinksAppended(links + before, last);
      LinksAppended(before, last);
      assert links + before + [last] == links + rest && before + [last] == rest;
    }
  }
}
