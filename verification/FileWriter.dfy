/** `Mf4Writer::write` (src/write.rs) from end to end: group, build, place, emit. */
module FileWriter {
  import opened Bytes
  import opened Options
  import opened WriterModel
  import opened BlockFormat
  import opened FileLayout
  import opened FileBlocks
  import FileRegions
  import FileHonesty
  import RecordStream
  import WrittenFile
  import LinkTree
  import CleanWalk
  import BlockWalk

  datatype Writer = Writer(startTime: StartTime, history: Text, groups: seq<Group>, compress: bool, codec: Codec)

  /** The ID block: the file and format IDs, the program, and the version number. */
  function IdBytes(): (s: seq<byte>)
    ensures |s| == ID_SIZE
  {
    [77, 68, 70, 32, 32, 32, 32, 32] // "MDF     "
    + [52, 46, 49, 49, 32, 32, 32, 32] // "4.11    "
    + [102, 97, 108, 99, 111, 110, 32, 32] // "falcon  "
    + Zeros(4) + Le(411, 2) + Zeros(34)
  }

  // ---------------------------------------------------------------- pass 2

  /** The output: bytes go out a block at a time. */
  class Output {
    var bytes: seq<byte>
    ghost var blocks: seq<Blk>

    ghost predicate Valid()
      reads this
    {
      bytes == IdBytes() + Serialized(blocks)
    }

    constructor ()
      ensures Valid() && blocks == []
    {
      bytes, blocks := IdBytes(), [];
    }

    method Put(b: Blk)
      requires Valid()
      modifies this
      ensures Valid() && blocks == old(blocks) + [b]
    {
      assert (blocks + [b])[..|blocks|] == blocks;
      Assoc(IdBytes(), Serialized(blocks), BlkBytes(b));
      bytes := bytes + BlkBytes(b);
      blocks := blocks + [b];
    }

    method PutText(text: Text)
      requires Valid()
      modifies this
      ensures Valid() && blocks == old(blocks) + TextBlocks(text)
    {
      if text != [] { Put(TxBlk(text)); }
    }

    method PutRefs(refs: seq<Option<Text>>)
      requires Valid()
      modifies this
      ensures Valid() && blocks == old(blocks) + RefBlocks(refs)
    {
      hide Valid, TxBlk;
      ghost var before := blocks;
      for i := 0 to |refs|
        invariant Valid() && blocks == before + RefBlocks(refs[..i])
      {
        assert refs[..i + 1][..i] == refs[..i];
        match refs[i]
        case Some(text) =>
          Assoc(before, RefBlocks(refs[..i]), [TxBlk(text)]);
          Put(TxBlk(text));
        case None =>
          assert RefBlocks(refs[..i]) + [] == RefBlocks(refs[..i]);
      }
      assert refs[..|refs|] == refs;
    }

    /** A conversion block, then the texts it links to. */
    method PutConversion(l: ChannelLayout)
      requires Valid()
      modifies this
      ensures Valid() && blocks == old(blocks) + CcBlocks(l)
    {
      hide Valid, Words, Le, Zeros, RefBlocks, RefLinks;
      if l.cc.Some? {
        var at, plan := l.cc.value.at, l.cc.value.plan;
        var links := PushRefLinks(at, plan);
        Put(CcBlk(at, plan).(links := links));
        PutRefs(plan.refs);
        Assoc(old(blocks), [CcBlk(at, plan)], RefBlocks(plan.refs));
      }
    }

    method PutArray(l: ChannelLayout)
      requires Valid()
      modifies this
      ensures Valid() && blocks == old(blocks) + CaBlocks(l)
    {
      if l.ca.Some? { Put(CaBlk(l.ca.value.shape, l.ca.value.stride)); }
    }

    method PutSignalData(l: ChannelLayout)
      requires Valid()
      modifies this
      ensures Valid() && blocks == old(blocks) + SdBlocks(l)
    {
      if l.sd.Some? { Put(SdBlk(l.sd.value.data)); }
    }

    method PutChannel(l: ChannelLayout, next: Link)
      requires Valid()
      modifies this
      ensures Valid() && blocks == old(blocks) + ChannelBlocks(l, next)
    {
      hide Valid, TxBlk, CnBlk, TextBlocks, CcBlocks, CaBlocks, SdBlocks;
      Put(CnBlk(l, next));
      Put(TxBlk(l.name));
      PutText(l.unit);
      PutText(l.comment);
      PutConversion(l);
      PutArray(l);
      PutSignalData(l);
      Regroup(old(blocks), [CnBlk(l, next)], [TxBlk(l.name)], TextBlocks(l.unit), TextBlocks(l.comment),
              CcBlocks(l), CaBlocks(l), SdBlocks(l));
    }

    method PutChannels(ls: seq<ChannelLayout>)
      requires Valid()
      modifies this
      ensures Valid() && blocks == old(blocks) + Flatten(ChannelRuns(ls))
    {
      hide Valid, ChannelBlocks;
      ghost var before, runs := blocks, ChannelRuns(ls);
      for k := 0 to |ls|
        invariant Valid() && blocks == before + Flatten(runs[..k])
      {
        FlattenNext(runs, k);
        Assoc(before, Flatten(runs[..k]), runs[k]);
        PutChannel(ls[k], NextCn(ls, k));
      }
      assert runs[..|ls|] == runs;
    }

    method PutGroup(cg: CgLayout, next: Link)
      requires Valid()
      modifies this
      ensures Valid() && blocks == old(blocks) + CgBlocks(cg, next)
    {
      hide Valid, CgBlk, ChannelRuns, Flatten;
      Put(CgBlk(cg.group, if cg.channels == [] then Null else To(cg.channels[0].cnOff, CN), next, cg.recordId));
      PutChannels(cg.channels);
    }

    method PutGroups(cgs: seq<CgLayout>)
      requires Valid()
      modifies this
      ensures Valid() && blocks == old(blocks) + Flatten(CgRuns(cgs))
    {
      hide Valid, CgBlocks;
      ghost var before, runs := blocks, CgRuns(cgs);
      for i := 0 to |cgs|
        invariant Valid() && blocks == before + Flatten(runs[..i])
      {
        FlattenNext(runs, i);
        Assoc(before, Flatten(runs[..i]), runs[i]);
        PutGroup(cgs[i], NextCg(cgs, i));
      }
      assert runs[..|cgs|] == runs;
    }

    method PutPayload(at: nat, p: Payload)
      requires Valid()
      modifies this
      ensures Valid() && blocks == old(blocks) + PayloadBlocks(at, p)
    {
      hide Valid, DtBlk, HlBlk, DlBlk, DzBlk;
      match p
      case Plain(data) => Put(DtBlk(data));
      case Compressed(zipType, zipParameter, originalLen, data) =>
        Put(HlBlk(at + HL_SIZE, zipType));
        Put(DlBlk(at + HL_SIZE + DL_SIZE, originalLen));
        Put(DzBlk(zipType, zipParameter, originalLen, data));
    }

    method PutDataGroup(dg: DataGroupLayout, p: Payload, next: Link)
      requires Valid()
      modifies this
      ensures Valid() && blocks == old(blocks) + DgBlocks(dg, p, next)
    {
      hide Valid, DgBlk, CgRuns, Flatten, PayloadBlocks;
      Put(DgBlk(next, if dg.cgs == [] then Null else To(dg.cgs[0].cgOff, CG), To(dg.dtOff, PayloadKind(p)), dg.recIdSize));
      PutGroups(dg.cgs);
      PutPayload(dg.dtOff, p);
    }

    /** Pass 2, behind the ID block. */
    method Emit(layouts: seq<DataGroupLayout>, dgs: seq<DataGroup>, startTime: StartTime, history: Text)
      requires Valid() && blocks == [] && |layouts| == |dgs|
      modifies this
      ensures Valid() && blocks == FileBlocksOf(layouts, dgs, startTime, history)
    {
      hide Valid, HdBlk, FhBlk, TxBlk, DgBlocks;
      Put(HdBlk(FirstDg(layouts), To(FH_AT, FH), startTime));
      Put(FhBlk(To(FH_TEXT_AT, TX), startTime));
      Put(TxBlk(history));
      ghost var before, runs := blocks, DgRuns(layouts, dgs);
      for i := 0 to |layouts|
        invariant Valid() && blocks == before + Flatten(runs[..i])
      {
        FlattenNext(runs, i);
        Assoc(before, Flatten(runs[..i]), runs[i]);
        PutDataGroup(layouts[i], dgs[i].payload, NextDg(layouts, i));
      }
      assert runs[..|layouts|] == runs;
    }
  }

  lemma {:induction false} Regroup(o: seq<Blk>, a: seq<Blk>, b: seq<Blk>, c: seq<Blk>, d: seq<Blk>,
                                   e: seq<Blk>, f: seq<Blk>, g: seq<Blk>)
    ensures o + a + b + c + d + e + f + g == o + (a + (b + c + d + e + f + g))
  {
    Assoc(o + a, b, c);
    Assoc(o + a, b + c, d);
    Assoc(o + a, b + c + d, e);
    Assoc(o + a, b + c + d + e, f);
    Assoc(o + a, b + c + d + e + f, g);
    Assoc(o, a, b + c + d + e + f + g);
  }

  // ---------------------------------------------------------------- from groups to data groups

  /** The groups at `indices`, in that order. */
  function Chosen(groups: seq<Group>, indices: seq<nat>): (chosen: seq<Group>)
    requires forall k :: 0 <= k < |indices| ==> indices[k] < |groups|
    ensures |chosen| == |indices|
  {
    seq(|indices|, k requires 0 <= k < |indices| => groups[indices[k]])
  }

  ghost predicate InRange(list: seq<(nat, seq<nat>)>, n: nat) {
    forall e, k :: 0 <= e < |list| && 0 <= k < |list[e].1| ==> list[e].1[k] < n
  }

  /** Each data group holds its groups, and their records as `record_bytes_multi` writes them. */
  ghost predicate Built(w: Writer, list: seq<(nat, seq<nat>)>, dgs: seq<DataGroup>, n: nat)
    requires RecordStream.ValidGroups(w.groups) && InRange(list, |w.groups|)
  {
    && |dgs| == n <= |list|
    && forall e :: 0 <= e < n ==>
        && dgs[e].groups == Chosen(w.groups, list[e].1)
        && RecordStream.ValidGroups(dgs[e].groups)
        && PayloadOf(dgs[e].groups, w.compress, w.codec) == Ok(dgs[e].payload)
  }

  /** A data group that transposition cannot serve: more than one record size in its stream. */
  ghost predicate Untransposable(w: Writer, indices: seq<nat>) {
    w.compress && w.codec.transposed && |indices| > 1
  }

  method BuildAll(w: Writer, list: seq<(nat, seq<nat>)>) returns (r: Result<seq<DataGroup>, WriteError>)
    requires RecordStream.ValidGroups(w.groups) && InRange(list, |w.groups|)
    ensures r.Ok? ==> Built(w, list, r.value, |list|)
    ensures r.Err? <==> exists e :: 0 <= e < |list| && Untransposable(w, list[e].1)
  {
    var dgs := [];
    for e := 0 to |list|
      invariant Built(w, list, dgs, e)
      invariant forall f :: 0 <= f < e ==> !Untransposable(w, list[f].1)
    {
      var groups := Chosen(w.groups, list[e].1);
      var payload := BuildPayload(groups, w.compress, w.codec);
      match payload
      case Err(error) =>
        assert Untransposable(w, list[e].1);
        return Err(error);
      case Ok(p) => dgs := dgs + [DataGroup(groups, p)];
    }
    r := Ok(dgs);
  }

  /** What a written file is made of. */
  ghost predicate Written(w: Writer, list: seq<(nat, seq<nat>)>, dgs: seq<DataGroup>, layouts: seq<DataGroupLayout>,
                          file: seq<byte>)
    requires RecordStream.ValidGroups(w.groups)
  {
    && Collected(list, w.groups, |w.groups|) && InRange(list, |w.groups|) && Built(w, list, dgs, |list|)
    && |layouts| == |dgs| && DgsPlaced(layouts, dgs, |dgs|, FileRegions.DgsAt(w.history))
    && file == IdBytes() + Serialized(FileBlocksOf(layouts, dgs, w.startTime, w.history))
  }

  lemma {:induction false} CollectedInRange(list: seq<(nat, seq<nat>)>, groups: seq<Group>)
    requires Collected(list, groups, |groups|)
    ensures InRange(list, |groups|)
  {
  }

  /** Two groups share a data group. */
  ghost predicate SomeShare(groups: seq<Group>) {
    exists i, j :: 0 <= i < j < |groups| && groups[i].dgId == groups[j].dgId
  }

  lemma {:induction false} SharingMembers(groups: seq<Group>, id: nat, n: nat)
    requires n <= |groups|
    ensures var s := SharingBefore(groups, id, n);
            && (forall a, b :: 0 <= a < b < |s| ==> s[a] < s[b])
            && (forall i :: 0 <= i < n ==> (i in s <==> groups[i].dgId == id))
  {
    if n != 0 { SharingMembers(groups, id, n - 1); }
  }

  lemma {:induction false} SharersCollected(list: seq<(nat, seq<nat>)>, groups: seq<Group>, i: nat, j: nat) returns (e: nat)
    requires Collected(list, groups, |groups|) && i < j < |groups| && groups[i].dgId == groups[j].dgId
    ensures e < |list| && |list[e].1| > 1
  {
    hide SharingBefore;
    assert HasId(list, groups[i].dgId);
    e :| 0 <= e < |list| && list[e].0 == groups[i].dgId;
    SharingMembers(groups, list[e].0, |groups|);
    assert i in list[e].1 && j in list[e].1;
  }

  lemma {:induction false} CollectedShare(list: seq<(nat, seq<nat>)>, groups: seq<Group>, e: nat)
    requires Collected(list, groups, |groups|) && e < |list| && |list[e].1| > 1
    ensures SomeShare(groups)
  {
    hide SharingBefore;
    SharingMembers(groups, list[e].0, |groups|);
    var i, j := list[e].1[0], list[e].1[1];
    assert i in list[e].1 && j in list[e].1;
    assert i < j && groups[i].dgId == groups[j].dgId;
  }

  /** Two groups share a data group exactly when some data group has more than one. */
  lemma {:induction false} SharedExactly(list: seq<(nat, seq<nat>)>, groups: seq<Group>)
    requires Collected(list, groups, |groups|)
    ensures SomeShare(groups) <==> exists e :: 0 <= e < |list| && |list[e].1| > 1
  {
    hide Collected;
    if SomeShare(groups) {
      var i, j :| 0 <= i < j < |groups| && groups[i].dgId == groups[j].dgId;
      var e := SharersCollected(list, groups, i, j);
    }
    if e :| 0 <= e < |list| && |list[e].1| > 1 { CollectedShare(list, groups, e); }
  }

  lemma {:induction false} TransposesShared(w: Writer, list: seq<(nat, seq<nat>)>)
    ensures (exists e :: 0 <= e < |list| && Untransposable(w, list[e].1))
       <==> w.compress && w.codec.transposed && exists e :: 0 <= e < |list| && |list[e].1| > 1
  {
  }

  /** `Mf4Writer::write`. It refuses only to transpose the records of groups that share a data group. */
  method WriteFile(w: Writer) returns (r: Result<seq<byte>, WriteError>,
                                       ghost list: seq<(nat, seq<nat>)>, ghost dgs: seq<DataGroup>, ghost layouts: seq<DataGroupLayout>)
    requires RecordStream.ValidGroups(w.groups)
    ensures r.Ok? ==> Written(w, list, dgs, layouts, r.value)
    ensures r.Err? <==> w.compress && w.codec.transposed && SomeShare(w.groups)
  {
    hide Collected, DgsPlaced, Serialized, FileBlocksOf, RecordStream.ValidGroups, InRange, Built, Untransposable;
    dgs, layouts := [], [];
    var grouped := CollectDataGroups(w.groups);
    list := grouped;
    CollectedInRange(list, w.groups);
    SharedExactly(list, w.groups);
    TransposesShared(w, list);
    var built := BuildAll(w, grouped);
    if built.Err? { return Err(built.error), list, dgs, layouts; }
    dgs := built.value;
    var places := AssignOffsets(built.value, FileRegions.DgsAt(w.history));
    layouts := places;
    Lengths(places, built.value, FileRegions.DgsAt(w.history));
    var out := new Output();
    out.Emit(places, built.value, w.startTime, w.history);
    r := Ok(out.bytes);
  }

  lemma {:induction false} Lengths(layouts: seq<DataGroupLayout>, dgs: seq<DataGroup>, at: nat)
    requires DgsPlaced(layouts, dgs, |dgs|, at)
    ensures |layouts| == |dgs|
  {
  }

  // ---------------------------------------------------------------- what the block walk makes of it

  lemma {:induction false} FileLaid(w: Writer, list: seq<(nat, seq<nat>)>, dgs: seq<DataGroup>, layouts: seq<DataGroupLayout>,
                                    file: seq<byte>)
    requires RecordStream.ValidGroups(w.groups) && Written(w, list, dgs, layouts, file)
    requires FileHonesty.ShapesFit(dgs) && |file| < U64_LIMIT
    ensures WrittenFile.Laid(file, IdBytes(), FileBlocksOf(layouts, dgs, w.startTime, w.history))
  {
    hide Collected, Serialized, Built, InRange, DgsPlaced, DgRuns, AllHonest, Region, IdBytes, FileHonesty.ShapesFit, RecordStream.ValidGroups;
    var at := FileRegions.DgsAt(w.history);
    FileRegions.TwoPassesAgree(layouts, dgs, w.startTime, w.history);
    FileHonesty.HonestExactly(layouts, dgs, at, w.startTime, w.history);
    EndOfRegion(FileBlocksOf(layouts, dgs, w.startTime, w.history), DgsEnd(layouts, dgs, at));
  }

  lemma {:induction false} EndOfRegion(blocks: seq<Blk>, end: nat)
    requires Region(ID_SIZE, blocks, end, multiset{(ID_SIZE, HD)}, NONE)
    ensures LinkTree.Tree(ID_SIZE, blocks, HD)
  {
  }

  /** The header says the file is finished. */
  lemma {:induction false} IdIsFinalized(rest: seq<byte>)
    ensures !BlockWalk.DeclaredUnfinalized(IdBytes() + rest)
  {
    var f := IdBytes() + rest;
    assert f[..8][0] == 77;
    assert f[60..62] == [0, 0];
    assert FromLe([0, 0]) == 0 by { assert [0, 0][1..] == [0] && [0][1..] == []; }
  }

  /** Whatever is written, the block walk reports it clean: each emitted block once, one referrer each, every byte
      covered. Only an array channel of 65536 or more dimensions, or a file past the block cap, can spoil that. */
  lemma {:induction false} WrittenWalksCleanly(w: Writer, list: seq<(nat, seq<nat>)>, dgs: seq<DataGroup>,
                                               layouts: seq<DataGroupLayout>, file: seq<byte>, m: BlockWalk.BlockMap)
    requires RecordStream.ValidGroups(w.groups) && Written(w, list, dgs, layouts, file)
    requires FileHonesty.ShapesFit(dgs) && |file| < U64_LIMIT
    requires BlockWalk.Describes(file, m)
    requires |FileBlocksOf(layouts, dgs, w.startTime, w.history)| + 1 <= BlockWalk.MAX_BLOCKS || BlockWalk.Stopped !in m.warnings
    ensures CleanWalk.Clean(file, FileBlocksOf(layouts, dgs, w.startTime, w.history), m) && !m.unfinalized
  {
    hide CleanWalk.Clean, WrittenFile.Laid, Serialized, FileBlocksOf, Collected, Built, InRange, DgsPlaced, IdBytes,
         FileHonesty.ShapesFit, RecordStream.ValidGroups, BlockWalk.DeclaredUnfinalized;
    var blocks := FileBlocksOf(layouts, dgs, w.startTime, w.history);
    FileLaid(w, list, dgs, layouts, file);
    CleanWalk.WrittenFileWalksCleanly(file, IdBytes(), blocks, m);
    IdIsFinalized(Serialized(blocks));
  }

  // ---------------------------------------------------------------- writer and walk together

  lemma {:induction false} ShapesOfGroups(w: Writer, list: seq<(nat, seq<nat>)>, dgs: seq<DataGroup>)
    requires RecordStream.ValidGroups(w.groups) && InRange(list, |w.groups|) && Built(w, list, dgs, |list|)
    requires forall g :: 0 <= g < |w.groups| ==> FileHonesty.GroupFits(w.groups[g])
    ensures FileHonesty.ShapesFit(dgs)
  {
    hide FileHonesty.ShapesFit, FileHonesty.GroupFits, PayloadOf, RecordStream.ValidGroups;
    FileHonesty.FitsByGroup(dgs);
    forall d | 0 <= d < |dgs| ensures FileHonesty.DataGroupFits(dgs[d]) {
      forall g | 0 <= g < |dgs[d].groups| ensures FileHonesty.GroupFits(dgs[d].groups[g]) {
        assert dgs[d].groups[g] == w.groups[list[d].1[g]];
      }
    }
  }

  /** The listing of a gap-free tree: every block but the first two, ##ID and ##HD, has one referrer. */
  predicate IsTree(m: BlockWalk.BlockMap, size: nat) {
    && |m.blocks| >= 2 && m.gaps == [] && m.warnings == [] && m.coveredBytes == size && !m.unfinalized
    && forall k :: 0 <= k < |m.blocks| ==> |m.blocks[k].referencedBy| == if k < 2 then 0 else 1
  }

  lemma {:induction false} CleanIsTree(file: seq<byte>, blocks: seq<Blk>, m: BlockWalk.BlockMap)
    requires CleanWalk.Clean(file, blocks, m) && blocks != [] && !m.unfinalized
    ensures IsTree(m, |file|)
  {
    hide BlockWalk.IdFields, WrittenFile.FieldsOf, LinkTree.StartOf, LinkTree.Names;
    var root := 0;
    assert m.blocks[root + 1].block == WrittenFile.FieldsOf(blocks[root], LinkTree.StartOf(WrittenFile.ID_END, blocks, root));
    forall k | 2 <= k < |m.blocks| ensures |m.blocks[k].referencedBy| == 1 {
      var i := k - 1;
      assert m.blocks[i + 1].block == WrittenFile.FieldsOf(blocks[i], LinkTree.StartOf(WrittenFile.ID_END, blocks, i));
      assert CleanWalk.HasParent(blocks, i, m.blocks[i + 1].referencedBy);
    }
  }

  /** From end to end: what is written walks as a gap-free tree, unless the walk reports that it met its cap. */
  method WriteThenScan(w: Writer) returns (r: Result<seq<byte>, WriteError>, m: BlockWalk.BlockMap)
    requires RecordStream.ValidGroups(w.groups)
    ensures r.Err? <==> w.compress && w.codec.transposed && SomeShare(w.groups)
    ensures r.Ok? && |r.value| < U64_LIMIT && (forall g :: 0 <= g < |w.groups| ==> FileHonesty.GroupFits(w.groups[g])) ==>
      BlockWalk.Stopped in m.warnings || IsTree(m, |r.value|)
  {
    hide Collected, Built, InRange, DgsPlaced, Serialized, FileBlocksOf, RecordStream.ValidGroups, FileHonesty.GroupFits,
         FileHonesty.ShapesFit, BlockWalk.Describes, CleanWalk.Clean, IsTree, IdBytes;
    ghost var list, dgs, layouts;
    r, list, dgs, layouts := WriteFile(w);
    m := BlockWalk.BlockMap([], [], 0, 0, [], false);
    if r.Ok? {
      m := BlockWalk.Scan(r.value);
      if |r.value| < U64_LIMIT && (forall g :: 0 <= g < |w.groups| ==> FileHonesty.GroupFits(w.groups[g]))
         && BlockWalk.Stopped !in m.warnings
      {
        ShapesOfGroups(w, list, dgs);
        WrittenWalksCleanly(w, list, dgs, layouts, r.value, m);
        SomeBlocks(layouts, dgs, w.startTime, w.history);
        CleanIsTree(r.value, FileBlocksOf(layouts, dgs, w.startTime, w.history), m);
      }
    }
  }

  lemma {:induction false} SomeBlocks(layouts: seq<DataGroupLayout>, dgs: seq<DataGroup>, startTime: StartTime, history: Text)
    requires |layouts| == |dgs|
    ensures FileBlocksOf(layouts, dgs, startTime, history) != []
  {
  }
}
