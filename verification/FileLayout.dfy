/** Pass 1 of `Mf4Writer::write` (src/write.rs): the offset of every block, before any byte is emitted. */
module FileLayout {
  import opened Bytes
  import opened Options
  import opened WriterModel
  import RecordStream
  import Streams
  import Transpose

  const ID_SIZE: nat := 64
  const HD_SIZE: nat := 104
  const FH_SIZE: nat := 56
  const DG_SIZE: nat := 64
  const CG_SIZE: nat := 104
  const CN_SIZE: nat := 160
  const DT_HEADER_SIZE: nat := 24
  const SD_HEADER_SIZE: nat := 24
  const CC_HEADER_SIZE: nat := 24
  const HL_SIZE: nat := 40
  const DL_SIZE: nat := 56
  const DZ_HEADER_SIZE: nat := 48
  const CN_FLAG_INVALIDATION_BIT: nat := 0x2
  const CN_FLAG_VLSD_OFFSET: nat := 0x4000

  // ---------------------------------------------------------------- a data group's payload

  /** How records are compressed: transposed first or not, the zip type that says so, and the encoder. */
  datatype Codec = Codec(transposed: bool, zipType: byte, encode: seq<byte> -> seq<byte>)

  datatype Payload =
    | Plain(data: seq<byte>)
    | Compressed(zipType: byte, zipParameter: nat, originalLen: nat, data: seq<byte>)

  datatype WriteError = TransposedNeedsUniformRecords

  /** `Payload::build`. */
  method BuildPayload(groups: seq<Group>, compress: bool, codec: Codec) returns (r: Result<Payload, WriteError>)
    requires RecordStream.ValidGroups(groups)
    ensures r == PayloadOf(groups, compress, codec)
  {
    var raw := RecordStream.WriteRecordsMulti(groups);
    if !compress { return Ok(Plain(raw)); }
    if |groups| > 1 && codec.transposed { return Err(TransposedNeedsUniformRecords); }
    var colSize := if |groups| == 1 then RecordSize(groups[0]) else 0;
    if codec.transposed {
      var transposed := Transpose.TransposeBytes(raw, colSize);
      r := Ok(Compressed(codec.zipType, colSize % 0x1_0000_0000, |raw|, codec.encode(transposed)));
    } else {
      r := Ok(Compressed(codec.zipType, 0, |raw|, codec.encode(raw)));
    }
  }

  function PayloadOf(groups: seq<Group>, compress: bool, codec: Codec): Result<Payload, WriteError>
    requires RecordStream.ValidGroups(groups)
  {
    var raw := Streams.StreamBytes(RecordStream.SourcesOf(groups));
    if !compress then Ok(Plain(raw))
    else if !codec.transposed then Ok(Compressed(codec.zipType, 0, |raw|, codec.encode(raw)))
    else if |groups| > 1 then Err(TransposedNeedsUniformRecords)
    else
      var colSize := if |groups| == 1 then RecordSize(groups[0]) else 0;
      Ok(Compressed(codec.zipType, colSize % 0x1_0000_0000, |raw|, codec.encode(Transpose.Transposed(raw, colSize))))
  }

  /** A reader that decodes the stream, and turns it back by the parameter beside it when the codec transposes, has the
      records again, as long as a record's size fits the parameter's 32 bits. */
  lemma {:induction false} PayloadReadsBack(group: Group, codec: Codec, decode: seq<byte> -> seq<byte>)
    requires RecordStream.ValidGroups([group]) && RecordSize(group) < 0x1_0000_0000
    requires forall s :: decode(codec.encode(s)) == s
    ensures var p := PayloadOf([group], true, codec);
            var raw := Streams.StreamBytes(RecordStream.SourcesOf([group]));
            && p.Ok? && p.value.Compressed? && p.value.originalLen == |raw|
            && raw == if codec.transposed then Transpose.UnTransposed(decode(p.value.data), p.value.zipParameter)
                      else decode(p.value.data)
  {
    hide RecordStream.SourcesOf, Streams.StreamBytes, Transpose.Transposed, Transpose.UnTransposed;
    var raw := Streams.StreamBytes(RecordStream.SourcesOf([group]));
    Transpose.UnTransposeUndoesTranspose(raw, RecordSize(group));
  }

  /** Channel groups that share a data group, and their records ready to write. */
  datatype DataGroup = DataGroup(groups: seq<Group>, payload: Payload)

  // ---------------------------------------------------------------- sizes

  function TxSize(text: Text): nat {
    24 + |text| + 1
  }

  function OptionalTxSize(text: Text): nat {
    if text == [] then 0 else TxSize(text)
  }

  /** `CcPlan::size`. */
  function CcSize(plan: CcPlan): nat {
    CC_HEADER_SIZE + (4 + |plan.refs|) * 8 + 24 + |plan.values| * 8
  }

  /** The texts a conversion refers to, all together. */
  function RefsSize(refs: seq<Option<Text>>): nat {
    if refs == [] then 0
    else RefsSize(refs[..|refs| - 1]) + match refs[|refs| - 1] case Some(t) => TxSize(t) case None => 0
  }

  /** `Payload::size`. */
  function PayloadSize(p: Payload): nat {
    match p
    case Plain(data) => DT_HEADER_SIZE + |data|
    case Compressed(_, _, _, data) => HL_SIZE + DL_SIZE + DZ_HEADER_SIZE + |data|
  }

  // ---------------------------------------------------------------- layouts

  datatype CcPart = CcPart(at: nat, plan: CcPlan)
  datatype CaPart = CaPart(at: nat, shape: seq<nat>, stride: nat)
  datatype SdPart = SdPart(at: nat, data: seq<byte>)

  datatype ChannelLayout = ChannelLayout(
    cnOff: nat, size: nat, name: Text, unit: Text, comment: Text, byteOffset: nat, flags: nat, invalBitPos: nat,
    dataType: byte, bitCount: nat, channelType: byte,
    cc: Option<CcPart>, ca: Option<CaPart>, sd: Option<SdPart>)

  datatype CgLayout = CgLayout(cgOff: nat, recordId: nat, group: Group, channels: seq<ChannelLayout>)

  datatype DataGroupLayout = DataGroupLayout(dgOff: nat, recIdSize: byte, cgs: seq<CgLayout>, dtOff: nat)

  /** Where the parts of a channel's footprint begin, given what is in it. */
  function CommentAt(l: ChannelLayout): nat {
    l.cnOff + CN_SIZE + TxSize(l.name) + OptionalTxSize(l.unit)
  }

  function CcAt(l: ChannelLayout): nat {
    CommentAt(l) + OptionalTxSize(l.comment)
  }

  function CcPartSize(l: ChannelLayout): nat {
    if l.cc.Some? then CcSize(l.cc.value.plan) + RefsSize(l.cc.value.plan.refs) else 0
  }

  function CaPartSize(l: ChannelLayout): nat {
    if l.ca.Some? then 48 + |l.ca.value.shape| * 8 else 0
  }

  function SdPartSize(l: ChannelLayout): nat {
    if l.sd.Some? then SD_HEADER_SIZE + |l.sd.value.data| else 0
  }

  /** Each part of a channel's footprint is where the parts before it end, and the footprint ends with the last. */
  predicate Coherent(l: ChannelLayout) {
    && (l.cc.Some? ==> l.cc.value.at == CcAt(l))
    && (l.ca.Some? ==> l.ca.value.at == CcAt(l) + CcPartSize(l))
    && (l.sd.Some? ==> l.sd.value.at == CcAt(l) + CcPartSize(l) + CaPartSize(l))
    && l.cnOff + l.size == CcAt(l) + CcPartSize(l) + CaPartSize(l) + SdPartSize(l)
  }

  const TIME: Text := [84, 105, 109, 101] // "Time"
  const SECONDS: Text := [115] // "s"

  /** The implicit time master: a float64 at the front of every record. */
  function MasterLayout(at: nat): (l: ChannelLayout)
    ensures Coherent(l) && l.cnOff == at
  {
    ChannelLayout(at, CN_SIZE + TxSize(TIME) + TxSize(SECONDS), TIME, SECONDS, [], 0, 0, 0, 4, 64, 2, None, None, None)
  }

  /** The layout holds what the channel says, under the flags and places it was given. */
  predicate Describes(l: ChannelLayout, c: Channel, byteOffset: nat, inval: Option<nat>) {
    && l.name == c.name && l.unit == c.unit && l.comment == c.comment
    && l.byteOffset == byteOffset && l.invalBitPos == (if inval.Some? then inval.value else 0)
    && l.flags == (if inval.Some? then CN_FLAG_INVALIDATION_BIT else 0) + (if c.format.isVlsd then CN_FLAG_VLSD_OFFSET else 0)
    && l.dataType == c.format.dataType && l.bitCount == c.format.width * 8
    && l.channelType == (if c.format.isVlsd then 1 else 0)
    && (l.cc.Some? <==> c.plan.Some?) && (l.cc.Some? ==> l.cc.value.plan == c.plan.value)
    && (l.ca.Some? <==> c.shape.Some?)
    && (l.ca.Some? ==> l.ca.value.shape == c.shape.value && l.ca.value.stride == c.format.width)
    && (l.sd.Some? <==> c.format.isVlsd) && (l.sd.Some? ==> l.sd.value.data == SignalData(c.samples))
  }

  /** The texts of a conversion, placed one behind the other. */
  method AddRefs(size: nat, refs: seq<Option<Text>>) returns (size': nat)
    ensures size' == size + RefsSize(refs)
  {
    size' := size;
    for i := 0 to |refs|
      invariant size' == size + RefsSize(refs[..i])
    {
      assert refs[..i + 1][..i] == refs[..i];
      match refs[i]
      case Some(text) => size' := size' + TxSize(text);
      case None =>
    }
    assert refs[..|refs|] == refs;
  }

  /** `ChannelLayout::new`: `size` grows as each part is placed behind the ones before it. */
  method NewLayout(at: nat, byteOffset: nat, channel: Channel, inval: Option<nat>) returns (l: ChannelLayout)
    ensures Coherent(l) && l.cnOff == at && Describes(l, channel, byteOffset, inval)
  {
    var size := CN_SIZE + TxSize(channel.name);
    if channel.unit != [] {
      size := size + TxSize(channel.unit);
    }
    if channel.comment != [] {
      size := size + TxSize(channel.comment);
    }
    var cc := None;
    if channel.plan.Some? {
      var plan := channel.plan.value;
      cc := Some(CcPart(at + size, plan));
      size := AddRefs(size + CcSize(plan), plan.refs);
    }
    var ca := None;
    if channel.shape.Some? {
      ca := Some(CaPart(at + size, channel.shape.value, channel.format.width));
      size := size + 48 + |channel.shape.value| * 8;
    }
    var sd, channelType: byte, flags := None, 0, if inval.Some? then CN_FLAG_INVALIDATION_BIT else 0;
    if channel.format.isVlsd {
      var data, offsets := BuildSignalData(channel.samples);
      sd, channelType, flags := Some(SdPart(at + size, data)), 1, flags + CN_FLAG_VLSD_OFFSET;
      size := size + SD_HEADER_SIZE + |data|;
    }
    l := ChannelLayout(at, size, channel.name, channel.unit, channel.comment, byteOffset, flags,
                       if inval.Some? then inval.value else 0, channel.format.dataType, channel.format.width * 8,
                       channelType, cc, ca, sd);
  }

  // ---------------------------------------------------------------- one behind the other

  function ChannelEnd(l: ChannelLayout): nat {
    l.cnOff + l.size
  }

  /** The master and then the group's channels, from `at` on. */
  ghost predicate ChannelsPlaced(ls: seq<ChannelLayout>, g: Group, count: nat, at: nat) {
    && count <= |g.channels| && |ls| == count + 1 && ls[0] == MasterLayout(at)
    && forall k :: 0 < k <= count ==>
        && Coherent(ls[k]) && ls[k].cnOff == ChannelEnd(ls[k - 1])
        && Describes(ls[k], g.channels[k - 1], ByteOffset(g, k - 1), InvalBit(g, k - 1))
  }

  function CgEnd(cg: CgLayout): nat {
    if cg.channels == [] then cg.cgOff + CG_SIZE else ChannelEnd(cg.channels[|cg.channels| - 1])
  }

  ghost predicate CgPlaced(cg: CgLayout, g: Group, recordId: nat, at: nat) {
    && cg.cgOff == at && cg.recordId == recordId && cg.group == g
    && ChannelsPlaced(cg.channels, g, |g.channels|, at + CG_SIZE)
  }

  /** Record IDs count from one where groups share a stream; a group alone needs none. */
  function RecordIdOf(count: nat, index: nat): nat {
    if count > 1 then index + 1 else 0
  }

  ghost predicate CgsPlaced(cgs: seq<CgLayout>, groups: seq<Group>, count: nat, at: nat) {
    && |cgs| == count <= |groups|
    && (forall i :: 0 <= i < count ==> CgPlaced(cgs[i], groups[i], RecordIdOf(|groups|, i), CgFrom(cgs, i, at)))
  }

  /** Where the `i`-th channel group goes: behind the ones before it. */
  function CgFrom(cgs: seq<CgLayout>, i: nat, at: nat): nat
    requires i <= |cgs|
  {
    if i == 0 then at else CgEnd(cgs[i - 1])
  }

  function CgsEnd(cgs: seq<CgLayout>, at: nat): nat {
    CgFrom(cgs, |cgs|, at)
  }

  ghost predicate DgPlaced(dg: DataGroupLayout, d: DataGroup, at: nat) {
    && dg.dgOff == at && dg.recIdSize == (if |d.groups| > 1 then 1 else 0)
    && CgsPlaced(dg.cgs, d.groups, |d.groups|, at + DG_SIZE)
    && dg.dtOff == CgsEnd(dg.cgs, at + DG_SIZE)
  }

  function DgEnd(dg: DataGroupLayout, d: DataGroup): nat {
    dg.dtOff + PayloadSize(d.payload)
  }

  ghost predicate DgsPlaced(layouts: seq<DataGroupLayout>, dgs: seq<DataGroup>, count: nat, at: nat) {
    && |layouts| == count <= |dgs|
    && forall i :: 0 <= i < count ==> DgPlaced(layouts[i], dgs[i], DgFrom(layouts, dgs, i, at))
  }

  method PlaceChannels(g: Group, at: nat) returns (channels: seq<ChannelLayout>, next: nat)
    ensures ChannelsPlaced(channels, g, |g.channels|, at)
    ensures next == ChannelEnd(channels[|channels| - 1])
  {
    var invalBits := InvalBitIndices(g);
    var offsets := ByteOffsets(g);
    var master := MasterLayout(at);
    channels, next := [master], at + master.size;
    for index := 0 to |g.channels|
      invariant ChannelsPlaced(channels, g, index, at) && next == ChannelEnd(channels[|channels| - 1])
    {
      var layout := NewLayout(next, offsets[index], g.channels[index], invalBits[index]);
      next := next + layout.size;
      channels := channels + [layout];
    }
  }

  lemma {:induction false} CgAppended(cgs: seq<CgLayout>, groups: seq<Group>, i: nat, at: nat, cg: CgLayout)
    requires i < |groups| && CgsPlaced(cgs, groups, i, at)
    requires CgPlaced(cg, groups[i], RecordIdOf(|groups|, i), CgsEnd(cgs, at))
    ensures CgsPlaced(cgs + [cg], groups, i + 1, at) && CgsEnd(cgs + [cg], at) == CgEnd(cg)
  {
    hide CgPlaced, CgEnd;
    var all := cgs + [cg];
    forall j | 0 <= j <= i ensures CgPlaced(all[j], groups[j], RecordIdOf(|groups|, j), CgFrom(all, j, at)) {
      if j > 0 { assert all[j - 1] == cgs[j - 1]; }
      assert CgFrom(all, j, at) == CgFrom(cgs, j, at);
    }
  }

  method PlaceGroup(g: Group, recordId: nat, at: nat) returns (cg: CgLayout, next: nat)
    ensures CgPlaced(cg, g, recordId, at) && next == CgEnd(cg)
  {
    var channels;
    channels, next := PlaceChannels(g, at + CG_SIZE);
    cg := CgLayout(at, recordId, g, channels);
  }

  method PlaceGroups(groups: seq<Group>, at: nat) returns (cgs: seq<CgLayout>, next: nat)
    ensures CgsPlaced(cgs, groups, |groups|, at) && next == CgsEnd(cgs, at)
  {
    hide CgPlaced, CgEnd;
    cgs, next := [], at;
    for i := 0 to |groups|
      invariant CgsPlaced(cgs, groups, i, at) && next == CgsEnd(cgs, at)
    {
      var cg;
      cg, next := PlaceGroup(groups[i], RecordIdOf(|groups|, i), next);
      CgAppended(cgs, groups, i, at, cg);
      cgs := cgs + [cg];
    }
  }

  lemma {:induction false} DgAppended(layouts: seq<DataGroupLayout>, dgs: seq<DataGroup>, i: nat, at: nat, dg: DataGroupLayout)
    requires i < |dgs| && DgsPlaced(layouts, dgs, i, at) && DgPlaced(dg, dgs[i], DgsEnd(layouts, dgs, at))
    ensures DgsPlaced(layouts + [dg], dgs, i + 1, at) && DgsEnd(layouts + [dg], dgs, at) == DgEnd(dg, dgs[i])
  {
    hide DgPlaced, DgEnd;
    var all := layouts + [dg];
    forall j | 0 <= j <= i ensures DgPlaced(all[j], dgs[j], DgFrom(all, dgs, j, at)) {
      if j > 0 { assert all[j - 1] == layouts[j - 1]; }
      assert DgFrom(all, dgs, j, at) == DgFrom(layouts, dgs, j, at);
    }
  }

  /** Where the `i`-th data group goes. */
  function DgFrom(layouts: seq<DataGroupLayout>, dgs: seq<DataGroup>, i: nat, at: nat): nat
    requires i <= |layouts| && i <= |dgs|
  {
    if i == 0 then at else DgEnd(layouts[i - 1], dgs[i - 1])
  }

  function DgsEnd(layouts: seq<DataGroupLayout>, dgs: seq<DataGroup>, at: nat): nat
    requires |layouts| <= |dgs|
  {
    DgFrom(layouts, dgs, |layouts|, at)
  }

  method PlaceDataGroup(d: DataGroup, at: nat) returns (dg: DataGroupLayout, next: nat)
    ensures DgPlaced(dg, d, at) && next == DgEnd(dg, d)
  {
    var cgs, dtOff := PlaceGroups(d.groups, at + DG_SIZE);
    next := dtOff + PayloadSize(d.payload);
    dg := DataGroupLayout(at, if |d.groups| > 1 then 1 else 0, cgs, dtOff);
  }

  /** Pass 1, behind the header blocks. */
  method AssignOffsets(dgs: seq<DataGroup>, at: nat) returns (layouts: seq<DataGroupLayout>)
    ensures DgsPlaced(layouts, dgs, |dgs|, at)
  {
    hide DgPlaced, DgEnd;
    var next := at;
    layouts := [];
    for i := 0 to |dgs|
      invariant DgsPlaced(layouts, dgs, i, at) && next == DgsEnd(layouts, dgs, at)
    {
      var layout;
      layout, next := PlaceDataGroup(dgs[i], next);
      DgAppended(layouts, dgs, i, at, layout);
      layouts := layouts + [layout];
    }
  }

  // ---------------------------------------------------------------- which groups share a data group

  /** The groups before `n` that ask for data group `id`, in order. */
  function SharingBefore(groups: seq<Group>, id: nat, n: nat): (indices: seq<nat>)
    requires n <= |groups|
    ensures forall k :: 0 <= k < |indices| ==> indices[k] < n
  {
    if n == 0 then [] else SharingBefore(groups, id, n - 1) + if groups[n - 1].dgId == id then [n - 1] else []
  }

  /** A data group for each ID the first `n` groups ask for, in the order the IDs first appear, each with all the
      groups that ask for it. */
  ghost predicate Collected(list: seq<(nat, seq<nat>)>, groups: seq<Group>, n: nat)
    requires n <= |groups|
  {
    && (forall e :: 0 <= e < |list| ==> list[e].1 == SharingBefore(groups, list[e].0, n) && list[e].1 != [])
    && (forall e, f :: 0 <= e < f < |list| ==> list[e].0 != list[f].0 && list[e].1[0] < list[f].1[0])
    && (forall i :: 0 <= i < n ==> HasId(list, groups[i].dgId))
  }

  ghost predicate HasId(list: seq<(nat, seq<nat>)>, id: nat) {
    exists e :: 0 <= e < |list| && list[e].0 == id
  }

  method FindId(list: seq<(nat, seq<nat>)>, id: nat) returns (at: Option<nat>)
    ensures at.Some? ==> at.value < |list| && list[at.value].0 == id
    ensures at.None? ==> forall e :: 0 <= e < |list| ==> list[e].0 != id
  {
    for e := 0 to |list|
      invariant forall f :: 0 <= f < e ==> list[f].0 != id
    {
      if list[e].0 == id { return Some(e); }
    }
    at := None;
  }

  lemma {:induction false} NothingCollected(groups: seq<Group>)
    ensures Collected([], groups, 0)
  {
  }

  method CollectDataGroups(groups: seq<Group>) returns (list: seq<(nat, seq<nat>)>)
    ensures Collected(list, groups, |groups|)
  {
    hide Collected;
    list := [];
    NothingCollected(groups);
    for i := 0 to |groups|
      invariant Collected(list, groups, i)
    {
      var id := groups[i].dgId;
      var at := FindId(list, id);
      match at
      case Some(e) =>
        CollectedMore(list, groups, i, e);
        list := list[e := (list[e].0, list[e].1 + [i])];
      case None =>
        CollectedNew(list, groups, i);
        list := list + [(id, [i])];
    }
  }

  lemma {:induction false} CollectedMore(list: seq<(nat, seq<nat>)>, groups: seq<Group>, i: nat, at: nat)
    requires i < |groups| && Collected(list, groups, i) && at < |list| && list[at].0 == groups[i].dgId
    ensures Collected(list[at := (list[at].0, list[at].1 + [i])], groups, i + 1)
  {
    hide HasId;
    var list' := list[at := (list[at].0, list[at].1 + [i])];
    assert SharingBefore(groups, list[at].0, i + 1) == SharingBefore(groups, list[at].0, i) + [i];
    forall e | 0 <= e < |list'| && e != at
      ensures list'[e] == list[e] && SharingBefore(groups, list[e].0, i + 1) == SharingBefore(groups, list[e].0, i) + []
    {
    }
    forall k | 0 <= k <= i ensures HasId(list', groups[k].dgId) {
      SameIds(list, list', groups[k].dgId);
    }
  }

  lemma {:induction false} CollectedNew(list: seq<(nat, seq<nat>)>, groups: seq<Group>, i: nat)
    requires i < |groups| && Collected(list, groups, i) && forall e :: 0 <= e < |list| ==> list[e].0 != groups[i].dgId
    ensures Collected(list + [(groups[i].dgId, [i])], groups, i + 1)
  {
    hide HasId;
    var id := groups[i].dgId;
    var list' := list + [(id, [i])];
    NoneSharing(list, groups, i, id);
    assert SharingBefore(groups, id, i + 1) == [] + [i];
    forall e | 0 <= e < |list|
      ensures list'[e] == list[e] && SharingBefore(groups, list[e].0, i + 1) == SharingBefore(groups, list[e].0, i) + []
    {
    }
    forall k | 0 <= k <= i ensures HasId(list', groups[k].dgId) {
      SameIds(list, list', groups[k].dgId);
    }
  }

  lemma {:induction false} SameIds(list: seq<(nat, seq<nat>)>, list': seq<(nat, seq<nat>)>, id: nat)
    requires |list| <= |list'| && forall e :: 0 <= e < |list| ==> list'[e].0 == list[e].0
    requires HasId(list, id) || (|list| < |list'| && list'[|list|].0 == id) || exists e :: 0 <= e < |list| && list[e].0 == id
    ensures HasId(list', id)
  {
    if HasId(list, id) {
      var e :| 0 <= e < |list| && list[e].0 == id;
      assert list'[e].0 == id;
    }
  }

  lemma {:induction false} NoneSharing(list: seq<(nat, seq<nat>)>, groups: seq<Group>, n: nat, id: nat)
    requires n <= |groups|
    requires forall i :: 0 <= i < n ==> HasId(list, groups[i].dgId)
    requires forall e :: 0 <= e < |list| ==> list[e].0 != id
    ensures SharingBefore(groups, id, n) == []
  {
    if n > 0 {
      assert HasId(list, groups[n - 1].dgId);
      NoneSharing(list, groups, n - 1, id);
    }
  }
}
