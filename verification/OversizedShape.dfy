/** When a written file does not walk cleanly: exactly when some array channel has 65536 dimensions or more. */
module OversizedShape {
  import opened Bytes
  import opened Options
  import opened WriterModel
  import opened BlockFormat
  import opened FileLayout
  import opened FileBlocks
  import opened FileMeaning
  import opened FileWriter
  import FileHonesty
  import FileRegions
  import RecordStream
  import LinkTree
  import WrittenFile
  import CleanWalk
  import BlockWalk

  /** An oversized shape declares fewer bytes than it takes. */
  lemma {:induction false} DeclaresLess(shape: seq<nat>, stride: nat)
    requires |shape| >= 0x1_0000
    ensures CaBlk(shape, stride).length < Size(CaBlk(shape, stride)) && CaBlk(shape, stride).length < U64_LIMIT
  {
  }

  /** The channel's layout, and the shape block it leads to. */
  lemma {:induction false} ShapeStands(at: nat, blocks: seq<Blk>, cg: CgLayout, g: Group, recordId: nat, start: nat, next: Link, c: nat)
    requires CgPlaced(cg, g, recordId, start) && GroupMeant(at, blocks, cg, next)
    requires c < |g.channels| && g.channels[c].shape.Some?
    ensures exists a: nat, stride: nat :: Stands(at, blocks, a, CaBlk(g.channels[c].shape.value, stride))
  {
    hide Stands, CaBlk, SdBlk, TxBlk, CnLinks, TextMeant, ConversionMeant, ByteOffset, InvalBit;
    var l := cg.channels[c + 1];
    assert Describes(l, g.channels[c], ByteOffset(g, c), InvalBit(g, c));
    assert ChannelMeant(at, blocks, l, NextCn(cg.channels, c + 1));
    assert Stands(at, blocks, CnBlk(l, NextCn(cg.channels, c + 1)).links[1].target, CaBlk(l.ca.value.shape, l.ca.value.stride));
  }

  lemma {:induction false} OversizedStands(layouts: seq<DataGroupLayout>, dgs: seq<DataGroup>, startTime: StartTime, history: Text)
    returns (i: nat)
    requires |layouts| == |dgs| && DgsPlaced(layouts, dgs, |dgs|, FileRegions.DgsAt(history)) && !FileHonesty.ShapesFit(dgs)
    ensures var blocks := FileBlocksOf(layouts, dgs, startTime, history);
            i < |blocks| && blocks[i].length < Size(blocks[i]) && blocks[i].length < U64_LIMIT
  {
    hide Stands, CaBlk, HeaderMeant, GroupMeant, CgPlaced, DgsPlaced, Size, FileBlocksOf, DataGroupsMeant;
    var blocks := FileBlocksOf(layouts, dgs, startTime, history);
    var d, g, c :| 0 <= d < |dgs| && 0 <= g < |dgs[d].groups| && 0 <= c < |dgs[d].groups[g].channels|
                && !FileHonesty.ShapeFits(dgs[d].groups[g].channels[c]);
    EveryLinkMeant(layouts, dgs, startTime, history);
    var start := PlacedAndMeant(ID_SIZE, blocks, layouts, dgs, FileRegions.DgsAt(history), d, g);
    ShapeStands(ID_SIZE, blocks, layouts[d].cgs[g], dgs[d].groups[g], RecordIdOf(|dgs[d].groups|, g), start,
                NextCg(layouts[d].cgs, g), c);
    var shape := dgs[d].groups[g].channels[c].shape.value;
    var a: nat, stride: nat :| Stands(ID_SIZE, blocks, a, CaBlk(shape, stride));
    DeclaresLess(shape, stride);
    i := StandsSomewhere(ID_SIZE, blocks, a, CaBlk(shape, stride));
  }

  lemma {:induction false} StandsSomewhere(at: nat, blocks: seq<Blk>, a: nat, b: Blk) returns (i: nat)
    requires Stands(at, blocks, a, b)
    ensures i < |blocks| && blocks[i] == b
  {
    i :| 0 <= i < |blocks| && blocks[i] == b && at + Extent(blocks[..i]) == a;
  }

  /** The walk reads the length a block declares, true or not. */
  lemma {:induction false} DeclaredAsWritten(f: BlockWalk.File, id: seq<byte>, blocks: seq<Blk>, i: nat)
    requires |id| == ID_SIZE && f == id + Serialized(blocks) && i < |blocks| && blocks[i].length < U64_LIMIT
    ensures var a := LinkTree.StartOf(ID_SIZE, blocks, i);
            a + Size(blocks[i]) <= |f| && BlockWalk.DeclaredLength(f, a) == blocks[i].length
  {
    hide BlkBytes, Le64, FromLe, Serialized, KindId;
    WrittenFile.BlockIsThere(f, id, blocks, i);
    var a := LinkTree.StartOf(ID_SIZE, blocks, i);
    WrittenFile.HeaderBytes(blocks[i]);
    SliceOfSlice(f, a, BlkBytes(blocks[i]), 8, 8);
    Le64RoundTrip(blocks[i].length);
  }

  lemma {:induction false} ListedAsDeclared(f: BlockWalk.File, blocks: seq<Blk>, m: BlockWalk.BlockMap, i: nat)
    requires CleanWalk.Clean(f, blocks, m) && BlockWalk.Describes(f, m) && i < |blocks|
    ensures var a := LinkTree.StartOf(ID_SIZE, blocks, i);
            a != 0 && BlockWalk.Judge(f, a).Block? && BlockWalk.DeclaredLength(f, a) == Size(blocks[i])
  {
    hide LinkTree.StartOf, Extent, Size, CleanWalk.HasParent, BlockWalk.Listed, BlockWalk.Reachable, BlockWalk.Edge, BlockWalk.Distinct;
    hide BlockWalk.ListsEverything, BlockWalk.WarnsExactly, BlockWalk.GapsExactly, BlockWalk.StoppedShort, BlockWalk.Judge;
    WrittenFile.StartsPastId(blocks, i);
    var b := m.blocks[i + 1];
    assert b in m.blocks && BlockWalk.TrueEntry(BlockWalk.GraphOf(f), m, b);
    assert b.block == WrittenFile.FieldsOf(blocks[i], LinkTree.StartOf(ID_SIZE, blocks, i));
  }

  /** A written file walks cleanly exactly when no array channel has 65536 dimensions or more. */
  lemma {:induction false} WalksCleanlyExactly(w: Writer, list: seq<(nat, seq<nat>)>, dgs: seq<DataGroup>,
                                               layouts: seq<DataGroupLayout>, file: seq<byte>, m: BlockWalk.BlockMap)
    requires RecordStream.ValidGroups(w.groups) && Written(w, list, dgs, layouts, file) && |file| < U64_LIMIT
    requires BlockWalk.Describes(file, m)
    requires |FileBlocksOf(layouts, dgs, w.startTime, w.history)| + 1 <= BlockWalk.MAX_BLOCKS || BlockWalk.Stopped !in m.warnings
    ensures CleanWalk.Clean(file, FileBlocksOf(layouts, dgs, w.startTime, w.history), m) <==> FileHonesty.ShapesFit(dgs)
  {
    hide CleanWalk.Clean, Serialized, FileBlocksOf, Collected, Built, InRange, DgsPlaced, IdBytes, FileHonesty.ShapesFit,
         RecordStream.ValidGroups, BlockWalk.Describes, LinkTree.StartOf, Size;
    var blocks := FileBlocksOf(layouts, dgs, w.startTime, w.history);
    if FileHonesty.ShapesFit(dgs) {
      WrittenWalksCleanly(w, list, dgs, layouts, file, m);
    } else {
      var i := OversizedStands(layouts, dgs, w.startTime, w.history);
      DeclaredAsWritten(file, IdBytes(), blocks, i);
      if CleanWalk.Clean(file, blocks, m) { ListedAsDeclared(file, blocks, m, i); }
    }
  }

  /** A writer with one array channel of one sample and 65536 dimensions of one element. */
  function OversizedWriter(): (w: Writer)
    ensures RecordStream.ValidGroups(w.groups)
  {
    var format := SampleFormat(0, 1, 1, false);
    var channel := Channel([65], [], [], [[7]], None, None, format, Some(seq(0x1_0000, _ => 1)));
    Writer(0, [118], [Group([0], [channel], 0)], false, Codec(false, 0, (s: seq<byte>) => s))
  }

  /** It is written, and what is written does not walk cleanly. */
  lemma {:induction false} OversizedSpoils(list: seq<(nat, seq<nat>)>, dgs: seq<DataGroup>, layouts: seq<DataGroupLayout>,
                                           file: seq<byte>, m: BlockWalk.BlockMap)
    requires Written(OversizedWriter(), list, dgs, layouts, file)
    requires |file| < U64_LIMIT && BlockWalk.Describes(file, m) && BlockWalk.Stopped !in m.warnings
    ensures !CleanWalk.Clean(file, FileBlocksOf(layouts, dgs, OversizedWriter().startTime, OversizedWriter().history), m)
  {
    hide CleanWalk.Clean, Serialized, FileBlocksOf, DgsPlaced, IdBytes, RecordStream.ValidGroups, BlockWalk.Describes, PayloadOf;
    var groups := OversizedWriter().groups;
    assert groups[0].dgId == 0 && HasId(list, 0);
    var e :| 0 <= e < |list| && list[e].0 == 0;
    assert SharingBefore(groups, 0, 1) == SharingBefore(groups, 0, 0) + [0];
    assert dgs[e].groups == Chosen(groups, list[e].1) && dgs[e].groups[0] == groups[0];
    assert !FileHonesty.ShapeFits(dgs[e].groups[0].channels[0]);
    WalksCleanlyExactly(OversizedWriter(), list, dgs, layouts, file, m);
  }
}
