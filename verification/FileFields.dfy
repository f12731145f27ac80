/** What a written file holds, position by position: the fields of its blocks as they are found by following the links
    from the header. */
module FileFields {
  import Arithmetic
  import opened Bytes
  import opened Options
  import opened WriterModel
  import opened BlockFormat
  import opened FileLayout
  import opened FileBlocks
  import opened FileMeaning
  import opened ConversionLaws
  import RecordStream
  import FileRegions
  import FileWriter
  import WrittenFile

  type File = seq<byte>

  // ---------------------------------------------------------------- reading by position

  /** The unsigned integer of `n` bytes at `a`, least significant first. */
  function UIntAt(f: File, a: nat, n: nat): nat {
    if a + n <= |f| then FromLe(f[a..a + n]) else 0
  }

  /** Link `k` of the block at `a`. */
  function LinkAt(f: File, a: nat, k: nat): nat {
    UIntAt(f, a + 24 + 8 * k, 8)
  }

  predicate IsBlock(f: File, a: nat, letters: seq<byte>) {
    a + 24 <= |f| && f[a..a + 4] == [35, 35] + letters
  }

  /** The block `n` steps down a chain of first links. */
  function Down(f: File, first: nat, n: nat): nat {
    if n == 0 then first else LinkAt(f, Down(f, first, n - 1), 0)
  }

  /** Data group `d`, from the header on; its channel group `g`; and that group's channel block `k`, the master first. */
  function DgAt(f: File, d: nat): nat {
    Down(f, LinkAt(f, 64, 0), d)
  }

  function CgAt(f: File, d: nat, g: nat): nat {
    Down(f, LinkAt(f, DgAt(f, d), 1), g)
  }

  function CnAt(f: File, d: nat, g: nat, k: nat): nat {
    Down(f, LinkAt(f, CgAt(f, d, g), 1), k)
  }

  // ---------------------------------------------------------------- fields of a block in the file

  lemma {:induction false} LeCut(n: nat, width: nat)
    ensures FromLe(Le(n, width)) == n % Power256(width)
  {
    if width == 0 {
      assert n % 1 == 0;
    } else {
      LeCut(n / 256, width - 1);
      assert Le(n, width)[1..] == Le(n / 256, width - 1);
      CutTwice(n, Power256(width - 1));
    }
  }

  lemma {:induction false} CutTwice(n: nat, p: nat)
    requires p > 0
    ensures n % 256 + 256 * (n / 256 % p) == n % (256 * p)
  {
    var q, r := n / 256 / p, n / 256 % p;
    assert n / 256 == q * p + r;
    assert n == 256 * (q * p + r) + n % 256;
    assert 256 * (q * p + r) == q * (256 * p) + 256 * r;
    Arithmetic.DivUnique(n, 256 * p, q, 256 * r + n % 256);
  }

  lemma {:induction false} Powers256()
    ensures Power256(2) == 0x1_0000 && Power256(4) == 0x1_0000_0000 && Power256(8) == U64_LIMIT
  {
    assert Power256(3) == 0x100_0000;
    assert Power256(6) == 0x1_0000_0000_0000;
  }

  /** The data section begins behind header and links. */
  function BodyAt(a: nat, b: Blk): nat {
    a + 24 + 8 * |b.links|
  }

  lemma {:induction false} FieldIs(f: File, a: nat, b: Blk, from: nat, n: nat, v: nat)
    requires InFile(f, a, b) && from + n <= |b.body| && b.body[from..from + n] == Le(v, n)
    ensures UIntAt(f, BodyAt(a, b) + from, n) == v % Power256(n)
  {
    hide FromLe, Le, Power256;
    BodyIsRead(f, a, b, from, from + n);
    InRangeOf(f, a, b);
    LeCut(v, n);
  }

  lemma {:induction false} ByteIs(f: File, a: nat, b: Blk, from: nat)
    requires InFile(f, a, b) && from < |b.body|
    ensures BodyAt(a, b) + from < |f| && f[BodyAt(a, b) + from] == b.body[from]
  {
    BodyIsRead(f, a, b, from, from + 1);
    InRangeOf(f, a, b);
    assert f[BodyAt(a, b) + from] == f[BodyAt(a, b) + from..BodyAt(a, b) + from + 1][0];
    assert b.body[from] == b.body[from..from + 1][0];
  }

  lemma {:induction false} LinkIs(f: File, a: nat, b: Blk, k: nat)
    requires InFile(f, a, b) && k < |b.links| && Offset(b.links[k]) < U64_LIMIT
    ensures LinkAt(f, a, k) == Offset(b.links[k])
  {
    hide FromLe, BlkBytes;
    WrittenFile.LinkReadsBack(f, a, b, k);
  }

  lemma {:induction false} IdIs(f: File, a: nat, b: Blk)
    requires InFile(f, a, b)
    ensures IsBlock(f, a, KindLetters(b.kind)) && UIntAt(f, a + 8, 8) == b.length % U64_LIMIT && UIntAt(f, a + 16, 8) == b.linkCount % U64_LIMIT
  {
    hide FromLe, BlkBytes, Le64, KindLetters, Power256;
    WrittenFile.HeaderBytes(b);
    SliceOfSlice(f, a, BlkBytes(b), 0, 4);
    SliceOfSlice(f, a, BlkBytes(b), 8, 8);
    SliceOfSlice(f, a, BlkBytes(b), 16, 8);
    Powers256();
    AsLe(b.length);
    AsLe(b.linkCount);
    assert BlkBytes(b)[8..8 + 8] == Le64(b.length) && BlkBytes(b)[16..16 + 8] == Le64(b.linkCount);
    assert BlkBytes(b)[0..0 + 4] == KindId(b.kind);
  }

  lemma {:induction false} AsLe(n: nat)
    ensures FromLe(Le64(n)) == n % U64_LIMIT
  {
    hide FromLe, Le, Power256;
    LeCut(n, 8);
    Powers256();
  }

  lemma {:induction false} LinkLeads(f: File, blocks: seq<Blk>, a: nat, b: Blk, k: nat, target: Blk)
    requires Holds(f, blocks) && Stands(ID_SIZE, blocks, a, b) && k < |b.links| && Leads(ID_SIZE, blocks, b.links[k], target)
    ensures LinkAt(f, a, k) == b.links[k].target && LinkAt(f, a, k) != 0 && InFile(f, LinkAt(f, a, k), target)
    ensures Stands(ID_SIZE, blocks, LinkAt(f, a, k), target)
  {
    hide InFile, Holds;
    StandsIn(f, blocks, a, b);
    LeadsIn(f, blocks, b.links[k], target);
    LinkIs(f, a, b, k);
  }

  // ---------------------------------------------------------------- what each block says

  /** A channel block: its type, its data type, where and how wide it is in a record, its flags and its invalidation bit. */
  ghost predicate ChannelSays(f: File, cn: nat, kind: byte, dataType: byte, byteOffset: nat, bits: nat, flags: nat, invalBit: nat) {
    && IsBlock(f, cn, [67, 78]) && cn + 160 <= |f|
    && f[cn + 88] == kind && f[cn + 89] == (if kind == 2 then 1 else 0) && f[cn + 90] == dataType && f[cn + 91] == 0
    && UIntAt(f, cn + 92, 4) == byteOffset % 0x1_0000_0000 && UIntAt(f, cn + 96, 4) == bits % 0x1_0000_0000
    && UIntAt(f, cn + 100, 4) == flags % 0x1_0000_0000 && UIntAt(f, cn + 104, 4) == invalBit % 0x1_0000_0000
  }

  lemma {:induction false} CnSays(f: File, a: nat, l: ChannelLayout, next: Link)
    requires InFile(f, a, CnBlk(l, next))
    ensures ChannelSays(f, a, l.channelType, l.dataType, l.byteOffset, l.bitCount, l.flags, l.invalBitPos)
  {
    hide Le, FromLe, BlkBytes, InFile, UIntAt, CnLinks, Power256, Zeros;
    var b := CnBlk(l, next);
    CnBody(l, next);
    InRangeOf(f, a, b);
    IdIs(f, a, b);
    ByteIs(f, a, b, 0); ByteIs(f, a, b, 1); ByteIs(f, a, b, 2); ByteIs(f, a, b, 3);
    FieldIs(f, a, b, 4, 4, l.byteOffset);
    FieldIs(f, a, b, 8, 4, l.bitCount);
    FieldIs(f, a, b, 12, 4, l.flags);
    FieldIs(f, a, b, 16, 4, l.invalBitPos);
    Powers256();
  }

  lemma {:induction false} CnBody(l: ChannelLayout, next: Link)
    ensures var s := CnBlk(l, next).body;
      && |s| == 72 && s[0] == l.channelType && s[1] == (if l.channelType == 2 then 1 else 0) && s[2] == l.dataType && s[3] == 0
      && s[4..8] == Le(l.byteOffset, 4) && s[8..12] == Le(l.bitCount, 4) && s[12..16] == Le(l.flags, 4) && s[16..20] == Le(l.invalBitPos, 4)
  {
    hide Le, Zeros, CnLinks;
  }

  /** A channel group's block: its record ID, its number of samples, and the bytes of a record. */
  ghost predicate GroupSays(f: File, cg: nat, recordId: nat, count: nat, dataBytes: nat, invalBytes: nat) {
    && IsBlock(f, cg, [67, 71]) && cg + 104 <= |f|
    && UIntAt(f, cg + 72, 8) == recordId % U64_LIMIT && UIntAt(f, cg + 80, 8) == count % U64_LIMIT
    && UIntAt(f, cg + 88, 8) == 0
    && UIntAt(f, cg + 96, 4) == dataBytes % 0x1_0000_0000 && UIntAt(f, cg + 100, 4) == invalBytes % 0x1_0000_0000
  }

  lemma {:induction false} CgSays(f: File, a: nat, g: Group, cnFirst: Link, next: Link, recordId: nat)
    requires InFile(f, a, CgBlk(g, cnFirst, next, recordId))
    ensures GroupSays(f, a, recordId, |g.times|, DataBytes(g), InvalBytes(g))
  {
    hide Le, FromLe, BlkBytes, InFile, UIntAt, Power256, Zeros, DataBytes, InvalBytes;
    var b := CgBlk(g, cnFirst, next, recordId);
    CgBody(g, cnFirst, next, recordId);
    InRangeOf(f, a, b);
    IdIs(f, a, b);
    FieldIs(f, a, b, 0, 8, recordId);
    FieldIs(f, a, b, 8, 8, |g.times|);
    FieldIs(f, a, b, 16, 8, 0);
    FieldIs(f, a, b, 24, 4, DataBytes(g));
    FieldIs(f, a, b, 28, 4, InvalBytes(g));
    Powers256();
  }

  lemma {:induction false} CgBody(g: Group, cnFirst: Link, next: Link, recordId: nat)
    ensures var s := CgBlk(g, cnFirst, next, recordId).body;
      && |s| == 32 && s[0..8] == Le(recordId, 8) && s[8..16] == Le(|g.times|, 8) && s[16..24] == Le(0, 8)
      && s[24..28] == Le(DataBytes(g), 4) && s[28..32] == Le(InvalBytes(g), 4)
  {
    ZeroSpelt();
    hide Le, DataBytes, InvalBytes;
  }

  lemma {:induction false} ZeroSpelt()
    ensures Le(0, 8) == Zeros(8) && Le(0, 4) == Zeros(4)
  {
    assert Le(0, 2) == Zeros(2);
    assert Le(0, 4) == Zeros(4);
    assert Le(0, 6) == Zeros(6);
  }

  /** An array block: one level of elements in place, row by row, so many bytes apart, with these dimensions. */
  ghost predicate ArraySays(f: File, ca: nat, stride: nat, shape: seq<nat>) {
    && IsBlock(f, ca, [67, 65]) && ca + 48 + 8 * |shape| <= |f|
    && f[ca + 32] == 0 && f[ca + 33] == 0 && UIntAt(f, ca + 34, 2) == |shape| % 0x1_0000 && UIntAt(f, ca + 36, 4) == 0
    && UIntAt(f, ca + 40, 4) == stride % 0x1_0000_0000 && UIntAt(f, ca + 44, 4) == 0
    && forall j :: 0 <= j < |shape| ==> UIntAt(f, ca + 48 + 8 * j, 8) == shape[j] % U64_LIMIT
  }

  lemma {:induction false} CaSays(f: File, a: nat, shape: seq<nat>, stride: nat)
    requires InFile(f, a, CaBlk(shape, stride))
    ensures ArraySays(f, a, stride, shape)
  {
    hide Le, FromLe, BlkBytes, InFile, UIntAt, Power256, Zeros, Words;
    var b := CaBlk(shape, stride);
    CaBody(shape, stride);
    InRangeOf(f, a, b);
    IdIs(f, a, b);
    ByteIs(f, a, b, 0); ByteIs(f, a, b, 1);
    FieldIs(f, a, b, 2, 2, |shape| % 0x1_0000);
    FieldIs(f, a, b, 4, 4, 0);
    FieldIs(f, a, b, 8, 4, stride);
    FieldIs(f, a, b, 12, 4, 0);
    Powers256();
    forall j | 0 <= j < |shape| ensures UIntAt(f, a + 48 + 8 * j, 8) == shape[j] % U64_LIMIT {
      DimensionIs(f, a, shape, stride, j);
    }
  }

  lemma {:induction false} DimensionIs(f: File, a: nat, shape: seq<nat>, stride: nat, j: nat)
    requires InFile(f, a, CaBlk(shape, stride)) && j < |shape|
    ensures UIntAt(f, a + 48 + 8 * j, 8) == shape[j] % U64_LIMIT
  {
    hide Le, FromLe, BlkBytes, InFile, UIntAt, Power256, Words;
    var b := CaBlk(shape, stride);
    CaBody(shape, stride);
    Powers256();
    WordIsRead(shape, j);
    assert b.body[16 + 8 * j..16 + 8 * j + 8] == b.body[16..][8 * j..8 * j + 8];
    FieldIs(f, a, b, 16 + 8 * j, 8, shape[j]);
  }

  lemma {:induction false} CaBody(shape: seq<nat>, stride: nat)
    ensures var s := CaBlk(shape, stride).body;
      && |s| == 16 + 8 * |shape| && s[0] == 0 && s[1] == 0 && s[2..4] == Le(|shape| % 0x1_0000, 2) && s[4..8] == Le(0, 4)
      && s[8..12] == Le(stride, 4) && s[12..16] == Le(0, 4) && s[16..] == Words(shape)
  {
    ZeroSpelt();
    hide Le, Words;
  }

  /** A plain data block at `a` holds `data`; or a list at `a` leads to a packed block with these parameters and bytes. */
  ghost predicate PayloadSays(f: File, a: nat, p: Payload) {
    match p
    case Plain(data) =>
      && IsBlock(f, a, [68, 84]) && UIntAt(f, a + 8, 8) == 24 + |data| && a + 24 + |data| <= |f| && f[a + 24..a + 24 + |data|] == data
    case Compressed(zipType, zipParameter, originalLen, data) =>
      var dl := LinkAt(f, a, 0); var dz := LinkAt(f, dl, 1);
      && IsBlock(f, a, [72, 76]) && a + 40 <= |f| && UIntAt(f, a + 32, 2) == 0 && f[a + 34] == zipType
      && IsBlock(f, dl, [68, 76]) && LinkAt(f, dl, 0) == 0 && dl + 56 <= |f| && f[dl + 40] == 1
      && UIntAt(f, dl + 44, 4) == 1 && UIntAt(f, dl + 48, 8) == originalLen % U64_LIMIT
      && IsBlock(f, dz, [68, 90]) && dz + 48 + |data| <= |f| && f[dz + 24] == 68 && f[dz + 25] == 84 && f[dz + 26] == zipType && f[dz + 27] == 0
      && UIntAt(f, dz + 28, 4) == zipParameter % 0x1_0000_0000 && UIntAt(f, dz + 32, 8) == originalLen % U64_LIMIT
      && UIntAt(f, dz + 40, 8) == |data| && f[dz + 48..dz + 48 + |data|] == data
  }

  lemma {:induction false} SmallLength(f: File, a: nat, b: Blk)
    requires InFile(f, a, b) && |f| < U64_LIMIT
    ensures Size(b) < U64_LIMIT
  {
  }

  lemma {:induction false} BodyIs(f: File, a: nat, b: Blk, from: nat, data: seq<byte>)
    requires InFile(f, a, b) && from + |data| == |b.body| && b.body[from..] == data
    ensures BodyAt(a, b) + from + |data| <= |f| && f[BodyAt(a, b) + from..BodyAt(a, b) + from + |data|] == data
  {
    BodyIsRead(f, a, b, from, |b.body|);
    InRangeOf(f, a, b);
    assert b.body[from..|b.body|] == b.body[from..];
  }

  lemma {:induction false} DtSays(f: File, a: nat, data: seq<byte>)
    requires InFile(f, a, DtBlk(data)) && |f| < U64_LIMIT
    ensures PayloadSays(f, a, Plain(data))
  {
    hide FromLe, BlkBytes, InFile, UIntAt;
    var b := DtBlk(data);
    IdIs(f, a, b);
    SmallLength(f, a, b);
    assert b.body[0..] == data;
    BodyIs(f, a, b, 0, data);
  }

  lemma {:induction false} HlSays(f: File, a: nat, dlAt: nat, zipType: byte)
    requires InFile(f, a, HlBlk(dlAt, zipType))
    ensures IsBlock(f, a, [72, 76]) && a + 40 <= |f| && UIntAt(f, a + 32, 2) == 0 && f[a + 34] == zipType
  {
    hide FromLe, BlkBytes, InFile, UIntAt, Power256;
    var b := HlBlk(dlAt, zipType);
    IdIs(f, a, b);
    InRangeOf(f, a, b);
    ByteIs(f, a, b, 2);
    assert b.body[0..2] == Le(0, 2);
    FieldIs(f, a, b, 0, 2, 0);
    Powers256();
  }

  lemma {:induction false} DlSays(f: File, a: nat, dzAt: nat, originalLen: nat)
    requires InFile(f, a, DlBlk(dzAt, originalLen))
    ensures IsBlock(f, a, [68, 76]) && LinkAt(f, a, 0) == 0 && a + 56 <= |f| && f[a + 40] == 1
      && UIntAt(f, a + 44, 4) == 1 && UIntAt(f, a + 48, 8) == originalLen % U64_LIMIT
  {
    hide FromLe, BlkBytes, InFile, UIntAt, Power256, Le;
    var b := DlBlk(dzAt, originalLen);
    IdIs(f, a, b);
    InRangeOf(f, a, b);
    LinkIs(f, a, b, 0);
    ByteIs(f, a, b, 0);
    assert b.body[4..8] == Le(1, 4) && b.body[8..16] == Le(originalLen, 8);
    FieldIs(f, a, b, 4, 4, 1);
    FieldIs(f, a, b, 8, 8, originalLen);
    Powers256();
  }

  lemma {:induction false} DzSays(f: File, a: nat, zipType: byte, zipParameter: nat, originalLen: nat, data: seq<byte>)
    requires InFile(f, a, DzBlk(zipType, zipParameter, originalLen, data)) && |f| < U64_LIMIT
    ensures IsBlock(f, a, [68, 90]) && a + 48 + |data| <= |f| && f[a + 24] == 68 && f[a + 25] == 84 && f[a + 26] == zipType && f[a + 27] == 0
      && UIntAt(f, a + 28, 4) == zipParameter % 0x1_0000_0000 && UIntAt(f, a + 32, 8) == originalLen % U64_LIMIT
      && UIntAt(f, a + 40, 8) == |data| && f[a + 48..a + 48 + |data|] == data
  {
    hide FromLe, BlkBytes, InFile, UIntAt, Power256, Le;
    var b := DzBlk(zipType, zipParameter, originalLen, data);
    DzBody(zipType, zipParameter, originalLen, data);
    IdIs(f, a, b);
    InRangeOf(f, a, b);
    SmallLength(f, a, b);
    ByteIs(f, a, b, 0); ByteIs(f, a, b, 1); ByteIs(f, a, b, 2); ByteIs(f, a, b, 3);
    FieldIs(f, a, b, 4, 4, zipParameter);
    FieldIs(f, a, b, 8, 8, originalLen);
    FieldIs(f, a, b, 16, 8, |data|);
    BodyIs(f, a, b, 24, data);
    Powers256();
  }

  lemma {:induction false} DzBody(zipType: byte, zipParameter: nat, originalLen: nat, data: seq<byte>)
    ensures var s := DzBlk(zipType, zipParameter, originalLen, data).body;
      && |s| == 24 + |data| && s[0] == 68 && s[1] == 84 && s[2] == zipType && s[3] == 0
      && s[4..8] == Le(zipParameter, 4) && s[8..16] == Le(originalLen, 8) && s[16..24] == Le(|data|, 8) && s[24..] == data
  {
    hide Le;
  }

  lemma {:induction false} PayloadIsSaid(f: File, blocks: seq<Blk>, a: nat, head: Blk, k: nat, p: Payload)
    requires Holds(f, blocks) && Stands(ID_SIZE, blocks, a, head) && k < |head.links| && PayloadMeant(ID_SIZE, blocks, head.links[k], p)
    ensures PayloadSays(f, LinkAt(f, a, k), p)
  {
    hide Holds, Stands, Leads, InFile, UIntAt, BlkBytes, DtBlk, DzBlk, LinkAt, IsBlock;
    FileFits(f, blocks);
    match p
    case Plain(data) =>
      LinkLeads(f, blocks, a, head, k, DtBlk(data));
      DtSays(f, LinkAt(f, a, k), data);
    case Compressed(zipType, zipParameter, originalLen, data) =>
      var target := head.links[k].target;
      var hl, dl := HlBlk(target + HL_SIZE, zipType), DlBlk(target + HL_SIZE + DL_SIZE, originalLen);
      var dz := DzBlk(zipType, zipParameter, originalLen, data);
      LinkLeads(f, blocks, a, head, k, hl);
      LinkLeads(f, blocks, target, hl, 0, dl);
      LinkLeads(f, blocks, LinkAt(f, target, 0), dl, 1, dz);
      HlSays(f, target, target + HL_SIZE, zipType);
      DlSays(f, LinkAt(f, target, 0), target + HL_SIZE + DL_SIZE, originalLen);
      DzSays(f, LinkAt(f, LinkAt(f, target, 0), 1), zipType, zipParameter, originalLen, data);
  }

  // ---------------------------------------------------------------- following the links from the header

  /** A file of this writer state, read as blocks that mean what they are laid out for. */
  ghost predicate Stored(w: FileWriter.Writer, dgs: seq<DataGroup>, layouts: seq<DataGroupLayout>, file: File) {
    && |layouts| == |dgs| && DgsPlaced(layouts, dgs, |dgs|, FileRegions.DgsAt(w.history))
    && var blocks := FileBlocksOf(layouts, dgs, w.startTime, w.history);
    && Holds(file, blocks)
    && HeaderMeant(ID_SIZE, blocks, layouts, dgs, w.startTime, w.history) && DataGroupsMeant(ID_SIZE, blocks, layouts, dgs)
  }

  lemma {:induction false} WrittenIsStored(w: FileWriter.Writer, list: seq<(nat, seq<nat>)>, dgs: seq<DataGroup>,
                                           layouts: seq<DataGroupLayout>, file: File)
    requires RecordStream.ValidGroups(w.groups) && FileWriter.Written(w, list, dgs, layouts, file) && |file| < U64_LIMIT
    ensures Stored(w, dgs, layouts, file)
  {
    hide Holds, HeaderMeant, DataGroupsMeant, DgsPlaced, Serialized, FileBlocksOf, Collected, FileWriter.Built, FileWriter.IdBytes,
         RecordStream.ValidGroups;
    EveryLinkMeant(layouts, dgs, w.startTime, w.history);
    HoldsWritten(file, FileWriter.IdBytes(), FileBlocksOf(layouts, dgs, w.startTime, w.history));
  }

  lemma {:induction false} DgIsAt(w: FileWriter.Writer, dgs: seq<DataGroup>, layouts: seq<DataGroupLayout>, file: File, d: nat)
    requires Stored(w, dgs, layouts, file) && d < |dgs|
    ensures DgAt(file, d) == layouts[d].dgOff
    ensures Stands(ID_SIZE, FileBlocksOf(layouts, dgs, w.startTime, w.history), layouts[d].dgOff,
                   DgHead(layouts[d], dgs[d].payload, NextDg(layouts, d)))
  {
    hide Holds, DgsPlaced, FileBlocksOf, Stands, InFile, LinkAt, GroupsMeant, PayloadMeant, CgHead, DgHead;
    var blocks := FileBlocksOf(layouts, dgs, w.startTime, w.history);
    assert DataGroupMeant(ID_SIZE, blocks, layouts[d], dgs[d].payload, NextDg(layouts, d));
    var head := DgHead(layouts[d], dgs[d].payload, NextDg(layouts, d));
    if d == 0 {
      var hd := HdBlk(FirstDg(layouts), To(FH_AT, FH), w.startTime);
      LinkLeads(file, blocks, ID_SIZE, hd, 0, head);
      assert FirstDg(layouts) == To(layouts[0].dgOff, DG);
    } else {
      DgIsAt(w, dgs, layouts, file, d - 1);
      var before := DgHead(layouts[d - 1], dgs[d - 1].payload, NextDg(layouts, d - 1));
      DgHeadLinks(layouts[d - 1], dgs[d - 1].payload, NextDg(layouts, d - 1));
      assert NextDataGroupMeant(ID_SIZE, blocks, layouts, dgs, d - 1);
      LinkLeads(file, blocks, layouts[d - 1].dgOff, before, 0, head);
      assert NextDg(layouts, d - 1) == To(layouts[d].dgOff, DG);
    }
  }

  lemma {:induction false} GroupChain(file: File, blocks: seq<Blk>, cgs: seq<CgLayout>, g: nat, first: nat)
    requires Holds(file, blocks) && GroupsMeant(ID_SIZE, blocks, cgs) && g < |cgs| && first == cgs[0].cgOff
    ensures Down(file, first, g) == cgs[g].cgOff && GroupMeant(ID_SIZE, blocks, cgs[g], NextCg(cgs, g))
  {
    hide Holds, Stands, InFile, LinkAt, ChannelsMeant, CnBlk, CgHead;
    assert GroupMeant(ID_SIZE, blocks, cgs[g], NextCg(cgs, g));
    if g > 0 {
      GroupChain(file, blocks, cgs, g - 1, first);
      assert NextGroupMeant(ID_SIZE, blocks, cgs, g - 1);
      HeadLinks(cgs[g - 1], NextCg(cgs, g - 1));
      LinkLeads(file, blocks, cgs[g - 1].cgOff, CgHead(cgs[g - 1], NextCg(cgs, g - 1)), 0, CgHead(cgs[g], NextCg(cgs, g)));
      assert NextCg(cgs, g - 1) == To(cgs[g].cgOff, CG);
    }
  }

  lemma {:induction false} ChannelChain(file: File, blocks: seq<Blk>, ls: seq<ChannelLayout>, k: nat, first: nat)
    requires Holds(file, blocks) && ChannelsMeant(ID_SIZE, blocks, ls) && k < |ls| && first == ls[0].cnOff
    ensures Down(file, first, k) == ls[k].cnOff && ChannelMeant(ID_SIZE, blocks, ls[k], NextCn(ls, k))
  {
    hide Holds, Stands, InFile, LinkAt, TextMeant, ConversionMeant, TxBlk, CaBlk, SdBlk;
    assert ChannelMeant(ID_SIZE, blocks, ls[k], NextCn(ls, k));
    if k > 0 {
      ChannelChain(file, blocks, ls, k - 1, first);
      assert NextChannelMeant(ID_SIZE, blocks, ls, k - 1);
      LinkLeads(file, blocks, ls[k - 1].cnOff, CnBlk(ls[k - 1], NextCn(ls, k - 1)), 0, CnBlk(ls[k], NextCn(ls, k)));
      assert NextCn(ls, k - 1) == To(ls[k].cnOff, CN);
    }
  }

  lemma {:induction false} GroupsAreMeant(w: FileWriter.Writer, dgs: seq<DataGroup>, layouts: seq<DataGroupLayout>, file: File, d: nat)
    requires Stored(w, dgs, layouts, file) && d < |dgs|
    ensures var blocks, cgs := FileBlocksOf(layouts, dgs, w.startTime, w.history), layouts[d].cgs;
      && Holds(file, blocks) && GroupsMeant(ID_SIZE, blocks, cgs)
      && (cgs != [] ==> Leads(ID_SIZE, blocks, DgHead(layouts[d], dgs[d].payload, NextDg(layouts, d)).links[1], CgHead(cgs[0], NextCg(cgs, 0))))
  {
    hide Holds, DgsPlaced, FileBlocksOf, Leads, Stands, PayloadMeant, HeaderMeant, GroupsMeant, CgHead;
    assert DataGroupMeant(ID_SIZE, FileBlocksOf(layouts, dgs, w.startTime, w.history), layouts[d], dgs[d].payload, NextDg(layouts, d));
  }

  lemma {:induction false} CgIsAt(w: FileWriter.Writer, dgs: seq<DataGroup>, layouts: seq<DataGroupLayout>, file: File, d: nat, g: nat)
    requires Stored(w, dgs, layouts, file) && d < |dgs| && g < |layouts[d].cgs|
    ensures CgAt(file, d, g) == layouts[d].cgs[g].cgOff
    ensures GroupMeant(ID_SIZE, FileBlocksOf(layouts, dgs, w.startTime, w.history), layouts[d].cgs[g], NextCg(layouts[d].cgs, g))
  {
    hide Holds, FileBlocksOf, Stands, InFile, LinkAt, HeaderMeant, DgAt, Stored, GroupsMeant, CgHead, GroupMeant;
    StoredLengths(w, dgs, layouts, file);
    var blocks, cgs := FileBlocksOf(layouts, dgs, w.startTime, w.history), layouts[d].cgs;
    GroupsAreMeant(w, dgs, layouts, file, d);
    DgIsAt(w, dgs, layouts, file, d);
    LinkLeads(file, blocks, layouts[d].dgOff, DgHead(layouts[d], dgs[d].payload, NextDg(layouts, d)), 1, CgHead(cgs[0], NextCg(cgs, 0)));
    GroupChain(file, blocks, cgs, g, cgs[0].cgOff);
  }

  lemma {:induction false} StoredLengths(w: FileWriter.Writer, dgs: seq<DataGroup>, layouts: seq<DataGroupLayout>, file: File)
    requires Stored(w, dgs, layouts, file)
    ensures |layouts| == |dgs| && Holds(file, FileBlocksOf(layouts, dgs, w.startTime, w.history))
  {
  }

  lemma {:induction false} CnIsAt(w: FileWriter.Writer, dgs: seq<DataGroup>, layouts: seq<DataGroupLayout>, file: File, d: nat, g: nat, k: nat)
    requires Stored(w, dgs, layouts, file) && d < |dgs| && g < |layouts[d].cgs| && k < |layouts[d].cgs[g].channels|
    ensures CnAt(file, d, g, k) == layouts[d].cgs[g].channels[k].cnOff
    ensures ChannelMeant(ID_SIZE, FileBlocksOf(layouts, dgs, w.startTime, w.history), layouts[d].cgs[g].channels[k],
                         NextCn(layouts[d].cgs[g].channels, k))
  {
    hide Holds, FileBlocksOf, Stands, InFile, LinkAt, CgAt, Stored, ChannelMeant, ChannelsMeant, CnBlk;
    StoredLengths(w, dgs, layouts, file);
    var blocks, cg := FileBlocksOf(layouts, dgs, w.startTime, w.history), layouts[d].cgs[g];
    var ls := cg.channels;
    CgIsAt(w, dgs, layouts, file, d, g);
    LinkLeads(file, blocks, cg.cgOff, CgHead(cg, NextCg(layouts[d].cgs, g)), 1, CnBlk(ls[0], NextCn(ls, 0)));
    ChannelChain(file, blocks, ls, k, ls[0].cnOff);
  }

  // ---------------------------------------------------------------- the fields of a written file

  /** The ID block and the header block. */
  lemma {:induction false} HeaderFields(w: FileWriter.Writer, list: seq<(nat, seq<nat>)>, dgs: seq<DataGroup>, layouts: seq<DataGroupLayout>, file: File)
    requires RecordStream.ValidGroups(w.groups) && FileWriter.Written(w, list, dgs, layouts, file) && |file| < U64_LIMIT
    ensures |file| >= 168
    ensures file[..8] == [77, 68, 70, 32, 32, 32, 32, 32] && file[8..16] == [52, 46, 49, 49, 32, 32, 32, 32]
    ensures UIntAt(file, 28, 2) == 411 && UIntAt(file, 60, 4) == 0
    ensures IsBlock(file, 64, [72, 68]) && UIntAt(file, 136, 8) == (if w.startTime < 0 then w.startTime + U64_LIMIT else w.startTime)
    ensures IsBlock(file, LinkAt(file, 64, 1), [70, 72])
    ensures UIntAt(file, LinkAt(file, 64, 1) + 40, 8) == if w.startTime < 0 then 0 else w.startTime
  {
    hide Holds, DgsPlaced, FileBlocksOf, Stands, InFile, LinkAt, DataGroupsMeant, Serialized, RecordStream.ValidGroups, Collected,
         FileWriter.Built, TxBlk, FromLe, UIntAt, BlkBytes, FileWriter.IdBytes, Le, Power256;
    WrittenIsStored(w, list, dgs, layouts, file);
    var blocks := FileBlocksOf(layouts, dgs, w.startTime, w.history);
    var hd, fh := HdBlk(FirstDg(layouts), To(FH_AT, FH), w.startTime), FhBlk(To(FH_TEXT_AT, TX), w.startTime);
    StandsIn(file, blocks, ID_SIZE, hd);
    LinkLeads(file, blocks, ID_SIZE, hd, 1, fh);
    IdIs(file, ID_SIZE, hd);
    IdIs(file, LinkAt(file, 64, 1), fh);
    InRangeOf(file, ID_SIZE, hd);
    assert hd.body[0..8] == Le(AsU64(w.startTime), 8);
    FieldIs(file, ID_SIZE, hd, 0, 8, AsU64(w.startTime));
    assert fh.body[0..8] == Le(if w.startTime < 0 then 0 else w.startTime, 8);
    FieldIs(file, LinkAt(file, 64, 1), fh, 0, 8, if w.startTime < 0 then 0 else w.startTime);
    Powers256();
    IdFields(file, Serialized(blocks));
  }

  lemma {:induction false} IdFields(file: File, rest: seq<byte>)
    requires file == FileWriter.IdBytes() + rest
    ensures |file| >= 64 && file[..8] == [77, 68, 70, 32, 32, 32, 32, 32] && file[8..16] == [52, 46, 49, 49, 32, 32, 32, 32]
    ensures UIntAt(file, 28, 2) == 411 && UIntAt(file, 60, 4) == 0
  {
    hide FromLe, Le, Power256;
    ZeroSpelt();
    assert file[28..30] == Le(411, 2) && file[60..64] == Le(0, 4);
    LeCut(411, 2);
    LeCut(0, 4);
    Powers256();
  }

  /** Data group `d`: how many bytes its record IDs take, and its payload. */
  lemma {:induction false} DataGroupFields(w: FileWriter.Writer, list: seq<(nat, seq<nat>)>, dgs: seq<DataGroup>, layouts: seq<DataGroupLayout>,
                                           file: File, d: nat)
    requires RecordStream.ValidGroups(w.groups) && FileWriter.Written(w, list, dgs, layouts, file) && |file| < U64_LIMIT && d < |dgs|
    ensures var dg := DgAt(file, d);
      && IsBlock(file, dg, [68, 71]) && dg + 64 <= |file| && file[dg + 56] == (if |dgs[d].groups| > 1 then 1 else 0)
      && PayloadSays(file, LinkAt(file, dg, 2), dgs[d].payload)
  {
    hide Holds, FileBlocksOf, Stands, InFile, LinkAt, Serialized, RecordStream.ValidGroups, Collected, DgHead, Stored, DgsPlaced,
         FileWriter.Built, FromLe, UIntAt, BlkBytes, FileWriter.IdBytes, PayloadMeant, PayloadSays, DgAt, FileRegions.DgsAt;
    WrittenIsStored(w, list, dgs, layouts, file);
    StoredLengths(w, dgs, layouts, file);
    var blocks, head := FileBlocksOf(layouts, dgs, w.startTime, w.history), DgHead(layouts[d], dgs[d].payload, NextDg(layouts, d));
    DgIsAt(w, dgs, layouts, file, d);
    PayloadIsMeant(w, dgs, layouts, file, d);
    StandsIn(file, blocks, layouts[d].dgOff, head);
    IdIs(file, layouts[d].dgOff, head);
    InRangeOf(file, layouts[d].dgOff, head);
    ByteIs(file, layouts[d].dgOff, head, 0);
    PayloadIsSaid(file, blocks, layouts[d].dgOff, head, 2, dgs[d].payload);
  }

  lemma {:induction false} PayloadIsMeant(w: FileWriter.Writer, dgs: seq<DataGroup>, layouts: seq<DataGroupLayout>, file: File, d: nat)
    requires Stored(w, dgs, layouts, file) && d < |dgs|
    ensures var head := DgHead(layouts[d], dgs[d].payload, NextDg(layouts, d));
      && head.kind == DG && |head.links| == 4 && |head.body| == 8 && head.body[0] == (if |dgs[d].groups| > 1 then 1 else 0)
      && PayloadMeant(ID_SIZE, FileBlocksOf(layouts, dgs, w.startTime, w.history), head.links[2], dgs[d].payload)
  {
    hide Holds, FileBlocksOf, Stands, PayloadMeant, HeaderMeant, GroupsMeant, CgHead, CgsPlaced, CgsEnd, Leads;
    assert DataGroupMeant(ID_SIZE, FileBlocksOf(layouts, dgs, w.startTime, w.history), layouts[d], dgs[d].payload, NextDg(layouts, d));
    assert DgPlaced(layouts[d], dgs[d], DgFrom(layouts, dgs, d, FileRegions.DgsAt(w.history)));
  }

  /** Channel group `g` of data group `d`: record IDs count from one where groups share the stream. */
  lemma {:induction false} GroupFields(w: FileWriter.Writer, list: seq<(nat, seq<nat>)>, dgs: seq<DataGroup>, layouts: seq<DataGroupLayout>,
                                       file: File, d: nat, g: nat)
    requires RecordStream.ValidGroups(w.groups) && FileWriter.Written(w, list, dgs, layouts, file) && |file| < U64_LIMIT
    requires d < |dgs| && g < |dgs[d].groups|
    ensures var group := dgs[d].groups[g];
      GroupSays(file, CgAt(file, d, g), if |dgs[d].groups| > 1 then g + 1 else 0, |group.times|, DataBytes(group), InvalBytes(group))
  {
    hide Holds, FileBlocksOf, Stands, InFile, LinkAt, HeaderMeant, Serialized, RecordStream.ValidGroups, Collected, GroupsMeant,
         FileWriter.Built, FromLe, UIntAt, BlkBytes, FileWriter.IdBytes, DataBytes, InvalBytes, CgAt, ChannelsPlaced, ChannelsMeant, DgsPlaced,
         GroupSays;
    WrittenIsStored(w, list, dgs, layouts, file);
    var blocks := FileBlocksOf(layouts, dgs, w.startTime, w.history);
    var start := PlacedAndMeant(ID_SIZE, blocks, layouts, dgs, FileRegions.DgsAt(w.history), d, g);
    var cg, next := layouts[d].cgs[g], NextCg(layouts[d].cgs, g);
    CgIsAt(w, dgs, layouts, file, d, g);
    StandsIn(file, blocks, cg.cgOff, CgHead(cg, next));
    CgSays(file, cg.cgOff, cg.group, if cg.channels == [] then Null else To(cg.channels[0].cnOff, CN), next, cg.recordId);
  }

  /** A channel's block says where the channel is in a record, how wide, its flags and its invalidation bit; it leads to the
      shape of an array's elements, and to the signal data of a channel of variable length. */
  ghost predicate ChannelInFile(f: File, cn: nat, g: Group, k: nat)
    requires k < |g.channels|
  {
    var c := g.channels[k];
    && ChannelSays(f, cn, if c.format.isVlsd then 1 else 0, c.format.dataType, ByteOffset(g, k), 8 * c.format.width,
                   (if c.valid.Some? then 2 else 0) + (if c.format.isVlsd then 0x4000 else 0),
                   if c.valid.Some? then InvalBit(g, k).value else 0)
    && (c.shape.Some? ==> ArraySays(f, LinkAt(f, cn, 1), c.format.width, c.shape.value))
    && (c.format.isVlsd ==>
          var sd, data := LinkAt(f, cn, 5), SignalData(c.samples);
          && IsBlock(f, sd, [83, 68]) && UIntAt(f, sd + 8, 8) == 24 + |data|
          && sd + 24 + |data| <= |f| && f[sd + 24..sd + 24 + |data|] == data)
  }

  /** Channel `k` of group `g` of data group `d`, behind the master. */
  lemma {:induction false} ChannelFields(w: FileWriter.Writer, list: seq<(nat, seq<nat>)>, dgs: seq<DataGroup>, layouts: seq<DataGroupLayout>,
                                         file: File, d: nat, g: nat, k: nat)
    requires RecordStream.ValidGroups(w.groups) && FileWriter.Written(w, list, dgs, layouts, file) && |file| < U64_LIMIT
    requires d < |dgs| && g < |dgs[d].groups| && k < |dgs[d].groups[g].channels|
    ensures ChannelInFile(file, CnAt(file, d, g, k + 1), dgs[d].groups[g], k)
  {
    hide FileBlocksOf, LinkAt, Serialized, RecordStream.ValidGroups, Collected, FileWriter.Built, FromLe, UIntAt, FileWriter.IdBytes,
         CnAt, ChannelSays, ArraySays, IsBlock, SignalData, ByteOffset, ChannelMeant, GroupMeant, Stored, DgsPlaced, Holds, FileRegions.DgsAt;
    WrittenIsStored(w, list, dgs, layouts, file);
    StoredLengths(w, dgs, layouts, file);
    var l := ChannelLaidOut(w, dgs, layouts, file, d, g, k);
    ChannelPartsSay(file, FileBlocksOf(layouts, dgs, w.startTime, w.history), l, NextCn(layouts[d].cgs[g].channels, k + 1));
  }

  /** The layout of channel `k`, which says what the channel says. */
  lemma {:induction false} ChannelLaidOut(w: FileWriter.Writer, dgs: seq<DataGroup>, layouts: seq<DataGroupLayout>, file: File, d: nat, g: nat, k: nat)
    returns (l: ChannelLayout)
    requires Stored(w, dgs, layouts, file) && d < |dgs| && g < |dgs[d].groups| && k < |dgs[d].groups[g].channels|
    ensures g < |layouts[d].cgs| && k + 1 < |layouts[d].cgs[g].channels| && l == layouts[d].cgs[g].channels[k + 1]
    ensures Describes(l, dgs[d].groups[g].channels[k], ByteOffset(dgs[d].groups[g], k), InvalBit(dgs[d].groups[g], k))
    ensures CnAt(file, d, g, k + 1) == l.cnOff
    ensures ChannelMeant(ID_SIZE, FileBlocksOf(layouts, dgs, w.startTime, w.history), l, NextCn(layouts[d].cgs[g].channels, k + 1))
  {
    hide Holds, FileBlocksOf, DgsPlaced, HeaderMeant, DataGroupsMeant, CnAt, Describes, ChannelMeant, ByteOffset, ChannelsMeant, Stands, CgHead;
    var blocks := FileBlocksOf(layouts, dgs, w.startTime, w.history);
    var start := PlacedAndMeant(ID_SIZE, blocks, layouts, dgs, FileRegions.DgsAt(w.history), d, g);
    l := layouts[d].cgs[g].channels[k + 1];
    CnIsAt(w, dgs, layouts, file, d, g, k + 1);
  }

  lemma {:induction false} ChannelPartsSay(file: File, blocks: seq<Blk>, l: ChannelLayout, next: Link)
    requires Holds(file, blocks) && ChannelMeant(ID_SIZE, blocks, l, next)
    ensures ChannelSays(file, l.cnOff, l.channelType, l.dataType, l.byteOffset, l.bitCount, l.flags, l.invalBitPos)
    ensures l.ca.Some? ==> ArraySays(file, LinkAt(file, l.cnOff, 1), l.ca.value.stride, l.ca.value.shape)
    ensures l.sd.Some? ==>
      var sd, data := LinkAt(file, l.cnOff, 5), l.sd.value.data;
      && IsBlock(file, sd, [83, 68]) && UIntAt(file, sd + 8, 8) == 24 + |data|
      && sd + 24 + |data| <= |file| && file[sd + 24..sd + 24 + |data|] == data
  {
    hide Holds, Stands, InFile, LinkAt, FromLe, UIntAt, BlkBytes, ChannelSays, ArraySays, IsBlock, TextMeant, ConversionMeant, CaBlk, TxBlk, SdBlk;
    var b := CnBlk(l, next);
    StandsIn(file, blocks, l.cnOff, b);
    FileFits(file, blocks);
    CnSays(file, l.cnOff, l, next);
    if l.ca.Some? {
      LinkLeads(file, blocks, l.cnOff, b, 1, CaBlk(l.ca.value.shape, l.ca.value.stride));
      CaSays(file, LinkAt(file, l.cnOff, 1), l.ca.value.shape, l.ca.value.stride);
    }
    if l.sd.Some? {
      LinkLeads(file, blocks, l.cnOff, b, 5, SdBlk(l.sd.value.data));
      SdSays(file, LinkAt(file, l.cnOff, 5), l.sd.value.data);
    }
  }

  lemma {:induction false} SdSays(f: File, a: nat, data: seq<byte>)
    requires InFile(f, a, SdBlk(data)) && |f| < U64_LIMIT
    ensures IsBlock(f, a, [83, 68]) && UIntAt(f, a + 8, 8) == 24 + |data| && a + 24 + |data| <= |f| && f[a + 24..a + 24 + |data|] == data
  {
    hide FromLe, BlkBytes, InFile, UIntAt;
    var b := SdBlk(data);
    IdIs(f, a, b);
    SmallLength(f, a, b);
    assert b.body[0..] == data;
    BodyIs(f, a, b, 0, data);
  }

  /** The master of group `g`: a time of 64 bits at the front of every record. */
  lemma {:induction false} MasterFields(w: FileWriter.Writer, list: seq<(nat, seq<nat>)>, dgs: seq<DataGroup>, layouts: seq<DataGroupLayout>,
                                        file: File, d: nat, g: nat)
    requires RecordStream.ValidGroups(w.groups) && FileWriter.Written(w, list, dgs, layouts, file) && |file| < U64_LIMIT
    requires d < |dgs| && g < |dgs[d].groups|
    ensures ChannelSays(file, CnAt(file, d, g, 0), 2, 4, 0, 64, 0, 0)
  {
    hide Holds, FileBlocksOf, Stands, InFile, LinkAt, HeaderMeant, Serialized, RecordStream.ValidGroups, Collected, GroupsMeant, DgsPlaced,
         FileWriter.Built, FromLe, UIntAt, BlkBytes, FileWriter.IdBytes, CnAt, ChannelSays, TextMeant, ConversionMeant, TxBlk;
    WrittenIsStored(w, list, dgs, layouts, file);
    var blocks := FileBlocksOf(layouts, dgs, w.startTime, w.history);
    var start := PlacedAndMeant(ID_SIZE, blocks, layouts, dgs, FileRegions.DgsAt(w.history), d, g);
    var ls := layouts[d].cgs[g].channels;
    CnIsAt(w, dgs, layouts, file, d, g, 0);
    StandsIn(file, blocks, ls[0].cnOff, CnBlk(ls[0], NextCn(ls, 0)));
    CnSays(file, ls[0].cnOff, ls[0], NextCn(ls, 0));
  }
}
