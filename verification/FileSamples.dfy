/** From a written file back to the samples: the links are followed, the payload unpacked, a group's records picked out of the
    stream, and each sample found at the place its channel block gives. */
module FileSamples {
  import opened Arithmetic
  import opened Bytes
  import opened Options
  import opened WriterModel
  import opened FileLayout
  import opened FileFields
  import opened Sorting
  import opened Streams
  import opened Demux
  import RecordStream
  import Interleaving
  import FileRegions
  import FileWriter
  import Transpose
  import CanBits

  // ---------------------------------------------------------------- the order of a group's records

  /** By time, and of equal times by index. */
  function TimeThenIndex(times: seq<nat>): (nat, nat) -> bool {
    (a: nat, b: nat) => KeyAt(times, a) < KeyAt(times, b) || (KeyAt(times, a) == KeyAt(times, b) && a <= b)
  }

  lemma {:induction false} MapSame<T>(s: seq<T>, f: T -> T)
    requires forall x :: f(x) == x
    ensures Map(s, f) == s
  {
  }

  lemma {:induction false} OrderIsSorted(times: seq<nat>)
    ensures SortedBy(SortedOrder(times), TimeThenIndex(times)) && multiset(SortedOrder(times)) == multiset(Indices(|times|))
  {
    hide KeyAt;
    var all, same := Indices(|times|), (i: nat) => i;
    SortMap(all, same, TimeOrder(times), TimeThenIndex(times));
    MapSame(Sort(all, TimeOrder(times)), same);
    MapSame(all, same);
    ThenIndexIsTotal(times);
    SortSorts(all, TimeThenIndex(times));
    SortContents(all, TimeOrder(times));
  }

  lemma {:induction false} ThenIndexIsTotal(times: seq<nat>)
    ensures TotalPreorder(TimeThenIndex(times))
  {
    hide KeyAt;
  }

  /** The order of the records is that of their times, and of equal times that in which they were appended; every sample has
      its place in it. */
  lemma {:induction false} OrderIsStable(times: seq<nat>, a: nat, b: nat)
    requires a < b < |times|
    ensures multiset(SortedOrder(times)) == multiset(Indices(|times|))
    ensures var i, j := SortedOrder(times)[a], SortedOrder(times)[b];
      TotalKey(times[i]) < TotalKey(times[j]) || (TotalKey(times[i]) == TotalKey(times[j]) && i < j)
  {
    hide SortedOrder, TotalKey;
    OrderIsSorted(times);
    NoRepeats(SortedOrder(times), |times|);
    assert TimeThenIndex(times)(SortedOrder(times)[a], SortedOrder(times)[b]);
  }

  lemma {:induction false} TwiceIn(s: seq<nat>, a: nat, b: nat)
    requires a < b < |s| && s[a] == s[b]
    ensures multiset(s)[s[a]] >= 2
  {
    assert s == s[..a] + [s[a]] + s[a + 1..b] + [s[b]] + s[b + 1..];
  }

  /** A rearrangement of different numbers has no number twice. */
  lemma {:induction false} NoRepeats(s: seq<nat>, n: nat)
    requires multiset(s) == multiset(Indices(n))
    ensures forall a, b :: 0 <= a < b < |s| ==> s[a] != s[b]
  {
    OnceEach(n);
    forall a, b | 0 <= a < b < |s| ensures s[a] != s[b] {
      if s[a] == s[b] { TwiceIn(s, a, b); }
    }
  }

  lemma {:induction false} OnceEach(n: nat)
    ensures forall x: nat :: multiset(Indices(n))[x] <= 1
  {
    if n > 0 {
      OnceEach(n - 1);
      assert Indices(n) == Indices(n - 1) + [n - 1];
      assert n - 1 !in Indices(n - 1);
      assert n - 1 !in multiset(Indices(n - 1));
    } else {
      assert Indices(0) == [];
    }
  }

  // ---------------------------------------------------------------- the stream of a data group

  /** The bytes of the payload at `a`: a plain block's own, or those a packed block holds, unpacked. */
  function RawAt(f: File, a: nat, transposed: bool, decode: seq<byte> -> seq<byte>): seq<byte> {
    var dz := LinkAt(f, LinkAt(f, a, 0), 1);
    var end, n := a + UIntAt(f, a + 8, 8), UIntAt(f, dz + 40, 8);
    if IsBlock(f, a, [68, 84]) then if a + 24 <= end <= |f| then f[a + 24..end] else []
    else
      var packed := if dz + 48 + n <= |f| then f[dz + 48..dz + 48 + n] else [];
      if transposed then Transpose.UnTransposed(decode(packed), UIntAt(f, dz + 28, 4)) else decode(packed)
  }

  ghost predicate Undoes(codec: Codec, decode: seq<byte> -> seq<byte>) {
    forall s :: decode(codec.encode(s)) == s
  }

  /** Sizes fit the 32 bits they are written in. */
  ghost predicate Narrow(groups: seq<Group>) {
    forall g :: 0 <= g < |groups| ==> RecordSize(groups[g]) < 0x1_0000_0000 && |groups[g].channels| < 0x1_0000_0000
  }

  lemma {:induction false} RawIsStream(f: File, a: nat, groups: seq<Group>, compress: bool, codec: Codec, decode: seq<byte> -> seq<byte>, p: Payload)
    requires RecordStream.ValidGroups(groups) && groups != [] && Narrow(groups) && Undoes(codec, decode)
    requires PayloadOf(groups, compress, codec) == Ok(p) && PayloadSays(f, a, p)
    ensures RawAt(f, a, codec.transposed, decode) == StreamBytes(RecordStream.SourcesOf(groups))
  {
    hide StreamBytes, RecordStream.SourcesOf, Transpose.UnTransposed, Transpose.Transposed, RecordSize, UIntAt, LinkAt;
    var raw := StreamBytes(RecordStream.SourcesOf(groups));
    match p
    case Plain(data) =>
    case Compressed(zipType, zipParameter, originalLen, data) =>
      assert !IsBlock(f, a, [68, 84]) by { assert [35, 35] + [72, 76] != [35, 35] + [68, 84] by { assert ([35, 35] + [72, 76])[2] == 72; } }
      if codec.transposed {
        assert groups == [groups[0]];
        Transpose.UnTransposeUndoesTranspose(raw, RecordSize(groups[0]));
      }
  }

  // ---------------------------------------------------------------- the records of one group

  /** What the blocks of the first `count` channel groups say of their records. */
  function InfosAt(f: File, d: nat, count: nat): (infos: seq<GroupInfo>)
    ensures |infos| == count
  {
    seq(count, g requires 0 <= g < count =>
      GroupInfo(UIntAt(f, CgAt(f, d, g) + 72, 8), UIntAt(f, CgAt(f, d, g) + 96, 4) + UIntAt(f, CgAt(f, d, g) + 100, 4), false))
  }

  /** The records of group `g`: the whole stream where records have no ID, otherwise those that the index finds. */
  function GroupBytesAt(f: File, d: nat, count: nat, g: nat, transposed: bool, decode: seq<byte> -> seq<byte>): seq<byte>
    requires g < count
  {
    var raw := RawAt(f, LinkAt(f, DgAt(f, d), 2), transposed, decode);
    var infos, idSize := InfosAt(f, d, count), if DgAt(f, d) + 56 < |f| then f[DgAt(f, d) + 56] else 0;
    if idSize == 0 then raw
    else Gathered(raw, OffsetsOf(StreamLog(RecogniserFor(RecordMap(infos), idSize), [raw]), g), idSize, infos[g].payloadSize)
  }

  lemma {:induction false} InfosAreSaid(f: File, d: nat, groups: seq<Group>)
    requires RecordStream.ValidGroups(groups) && Narrow(groups) && 1 < |groups| < U64_LIMIT
    requires forall g :: 0 <= g < |groups| ==> GroupSays(f, CgAt(f, d, g), g + 1, |groups[g].times|, DataBytes(groups[g]), InvalBytes(groups[g]))
    ensures InfosAt(f, d, |groups|) == Interleaving.Infos(RecordStream.SourcesOf(groups))
  {
    hide UIntAt, CgAt, DataBytes, InvalBytes, RecordStream.Record, RecordStream.ValidGroups;
    forall g | 0 <= g < |groups| ensures InfosAt(f, d, |groups|)[g] == Interleaving.Infos(RecordStream.SourcesOf(groups))[g] {
      assert GroupSays(f, CgAt(f, d, g), g + 1, |groups[g].times|, DataBytes(groups[g]), InvalBytes(groups[g]));
      assert RecordSize(groups[g]) == DataBytes(groups[g]) + InvalBytes(groups[g]);
    }
  }

  /** What is found of a group by following the links is its records in order of time. */
  lemma {:induction false} GroupReadsBack(w: FileWriter.Writer, list: seq<(nat, seq<nat>)>, dgs: seq<DataGroup>, layouts: seq<DataGroupLayout>,
                                          file: File, d: nat, g: nat, decode: seq<byte> -> seq<byte>)
    requires RecordStream.ValidGroups(w.groups) && FileWriter.Written(w, list, dgs, layouts, file) && |file| < U64_LIMIT
    requires d < |dgs| && g < |dgs[d].groups| && |dgs[d].groups| < U64_LIMIT && Narrow(dgs[d].groups) && Undoes(w.codec, decode)
    ensures RecordStream.ValidGroups(dgs[d].groups)
    ensures |dgs[d].groups| > 1 ==> (Interleaving.IdsSuffice(RecordStream.SourcesOf(dgs[d].groups)) ==>
      GroupBytesAt(file, d, |dgs[d].groups|, g, w.codec.transposed, decode) == RecordBytes(RecordStream.SourceOf(dgs[d].groups[g])))
    ensures |dgs[d].groups| == 1 ==>
      GroupBytesAt(file, d, |dgs[d].groups|, g, w.codec.transposed, decode) == RecordBytes(RecordStream.SourceOf(dgs[d].groups[g]))
  {
    hide RawAt, InfosAt, DgAt, CgAt, UIntAt, LinkAt, PayloadSays, StreamBytes, RecordBytes, Narrow, Undoes, PayloadOf, StreamLog, OffsetsOf,
         Gathered, RecordMap, Collected, DgsPlaced, FileWriter.IdBytes, GroupSays, DataBytes, InvalBytes, RecordStream.Record,
         Interleaving.IdsSuffice, FileWriter.Written, GroupBytesAt, RecordStream.ValidGroups;
    var groups := dgs[d].groups;
    GroupsBuilt(w, list, dgs, layouts, file, d);
    DataGroupFields(w, list, dgs, layouts, file, d);
    RawIsStream(file, LinkAt(file, DgAt(file, d), 2), groups, w.compress, w.codec, decode, dgs[d].payload);
    if |groups| > 1 {
      forall h | 0 <= h < |groups|
        ensures GroupSays(file, CgAt(file, d, h), h + 1, |groups[h].times|, DataBytes(groups[h]), InvalBytes(groups[h]))
      {
        GroupFields(w, list, dgs, layouts, file, d, h);
      }
      SharedReadsBack(file, d, groups, g, w.codec.transposed, decode);
    } else {
      AloneReadsBack(file, d, groups, w.codec.transposed, decode);
    }
  }

  lemma {:induction false} SharedReadsBack(f: File, d: nat, groups: seq<Group>, g: nat, transposed: bool, decode: seq<byte> -> seq<byte>)
    requires RecordStream.ValidGroups(groups) && Narrow(groups) && 1 < |groups| < U64_LIMIT && g < |groups|
    requires DgAt(f, d) + 56 < |f| && f[DgAt(f, d) + 56] == 1
    requires RawAt(f, LinkAt(f, DgAt(f, d), 2), transposed, decode) == StreamBytes(RecordStream.SourcesOf(groups))
    requires forall h :: 0 <= h < |groups| ==> GroupSays(f, CgAt(f, d, h), h + 1, |groups[h].times|, DataBytes(groups[h]), InvalBytes(groups[h]))
    ensures Interleaving.IdsSuffice(RecordStream.SourcesOf(groups)) ==>
      GroupBytesAt(f, d, |groups|, g, transposed, decode) == RecordBytes(RecordStream.SourceOf(groups[g]))
  {
    hide RawAt, InfosAt, DgAt, CgAt, LinkAt, StreamBytes, RecordBytes, Narrow, StreamLog, OffsetsOf, Gathered, RecordMap, GroupSays,
         DataBytes, InvalBytes, RecordStream.Record, Interleaving.IdsSuffice;
    var sources := RecordStream.SourcesOf(groups);
    InfosAreSaid(f, d, groups);
    if Interleaving.IdsSuffice(sources) { Interleaving.DemuxUndoesInterleaving(sources, g); }
  }

  lemma {:induction false} AloneReadsBack(f: File, d: nat, groups: seq<Group>, transposed: bool, decode: seq<byte> -> seq<byte>)
    requires RecordStream.ValidGroups(groups) && |groups| == 1 && (DgAt(f, d) + 56 < |f| ==> f[DgAt(f, d) + 56] == 0)
    requires RawAt(f, LinkAt(f, DgAt(f, d), 2), transposed, decode) == StreamBytes(RecordStream.SourcesOf(groups))
    ensures GroupBytesAt(f, d, 1, 0, transposed, decode) == RecordBytes(RecordStream.SourceOf(groups[0]))
  {
    hide RawAt, InfosAt, DgAt, LinkAt, StreamBytes, RecordBytes, StreamLog, OffsetsOf, Gathered, RecordMap, RecordStream.Record;
    OneSource(RecordStream.SourcesOf(groups));
  }

  lemma {:induction false} OneSource(sources: seq<Source>)
    requires |sources| == 1
    ensures StreamBytes(sources) == RecordBytes(sources[0])
  {
  }

  lemma {:induction false} GroupsBuilt(w: FileWriter.Writer, list: seq<(nat, seq<nat>)>, dgs: seq<DataGroup>, layouts: seq<DataGroupLayout>,
                                       file: File, d: nat)
    requires RecordStream.ValidGroups(w.groups) && FileWriter.Written(w, list, dgs, layouts, file) && d < |dgs|
    ensures RecordStream.ValidGroups(dgs[d].groups) && PayloadOf(dgs[d].groups, w.compress, w.codec) == Ok(dgs[d].payload)
    ensures |dgs| == |list| && (forall e, k :: 0 <= e < |list| && 0 <= k < |list[e].1| ==> list[e].1[k] < |w.groups|)
    ensures dgs[d].groups == FileWriter.Chosen(w.groups, list[d].1)
  {
    hide PayloadOf, Collected, DgsPlaced, FileWriter.IdBytes;
  }

  // ---------------------------------------------------------------- the samples

  lemma {:induction false} RecordIsThere(g: Group, n: nat, at: nat)
    requires ValidGroup(g) && n < |g.times| && at == n * RecordSize(g)
    ensures var bytes := RecordBytes(RecordStream.SourceOf(g));
      && |bytes| == |g.times| * RecordSize(g) && at + RecordSize(g) <= |bytes|
      && bytes[at..at + RecordSize(g)] == RecordStream.Record(g, SortedOrder(g.times)[n])
  {
    hide RecordStream.Record;
    var src := RecordStream.SourceOf(g);
    var records := RecordsAt(src, SortedOrder(g.times));
    UniformTotal(records, RecordSize(g));
    UniformTotal(records[..n], RecordSize(g));
    PartAt(records, n, at, RecordSize(g));
  }

  lemma {:induction false} BitIsDigit(n: nat, k: nat)
    ensures BitSet(n, k) <==> n / Power2(k) % 2 == 1
  {
    if k == 0 {
      assert Power2(0) == 1;
    } else {
      BitIsDigit(n / 2, k - 1);
      CanBits.DivTwice(n, 2, Power2(k - 1));
    }
  }

  /** What is filed as payload `i` of the signal data at `sd` is under the offset these bytes spell, and it is the sample. */
  ghost predicate FiledUnder(f: File, sd: nat, i: nat, offset: seq<byte>, sample: seq<byte>) {
    && 24 <= UIntAt(f, sd + 8, 8) && sd + UIntAt(f, sd + 8, 8) <= |f|
    && var filed := FromStream(f[sd + 24..sd + UIntAt(f, sd + 8, 8)], 0);
       i < |filed| && filed[i] == (FromLe(offset), sample)
  }

  /** Sample `i` of a channel, as a record says it: at the place and in the width the channel's block gives, or under the
      offset found there in the signal data its block links to; and invalid exactly when its bit is set. */
  ghost predicate SampleIsAt(f: File, cg: nat, cn: nat, record: seq<byte>, c: Channel, i: nat)
    requires i < |c.samples| && (c.valid.Some? ==> i < |c.valid.value|)
  {
    var at, width := UIntAt(f, cn + 92, 4), c.format.recordWidth;
    && at + width <= |record|
    && (if c.format.isVlsd then width == 8 && FiledUnder(f, LinkAt(f, cn, 5), i, record[at..at + width], c.samples[i])
        else RecordStream.HoldsSample(record[at..at + width], c.samples[i]))
    && (c.valid.Some? ==> MarkedInvalid(record, UIntAt(f, cg + 96, 4), UIntAt(f, cn + 104, 4), !c.valid.value[i]))
  }

  /** The bit `bit` of the bytes behind `base` is set exactly when `invalid`. */
  ghost predicate MarkedInvalid(record: seq<byte>, base: nat, bit: nat, invalid: bool) {
    base + bit / 8 < |record| && (record[base + bit / 8] / Power2(bit % 8) % 2 == 1 <==> invalid)
  }

  lemma {:induction false} InvalidBitIsThere(g: Group, i: nat, k: nat)
    requires ValidGroup(g) && i < |g.times| && k < |g.channels| && g.channels[k].valid.Some?
    ensures InvalBit(g, k).Some? && InvalBit(g, k).value < |g.channels|
    ensures MarkedInvalid(RecordStream.Record(g, i), DataBytes(g), InvalBit(g, k).value, !g.channels[k].valid.value[i])
  {
    hide RecordStream.Record, BitSet, Power2;
    var bit := InvalBit(g, k).value;
    RecordStream.RecordReadsBack(g, i, k);
    RecordStream.CountBelow(g.channels, k);
    CountAtMost(g.channels);
    var record := RecordStream.Record(g, i);
    assert record[DataBytes(g)..][bit / 8] == record[DataBytes(g) + bit / 8];
    BitIsDigit(record[DataBytes(g) + bit / 8], bit % 8);
  }

  lemma {:induction false} CountAtMost(channels: seq<Channel>)
    ensures ValidityCount(channels) <= |channels|
  {
    if channels != [] { CountAtMost(channels[..|channels| - 1]); }
  }

  lemma {:induction false} PayloadIsFiled(f: File, sd: nat, g: Group, i: nat, k: nat)
    requires ValidGroup(g) && i < |g.times| && k < |g.channels| && g.channels[k].format.isVlsd
    requires var data := SignalData(g.channels[k].samples);
      UIntAt(f, sd + 8, 8) == 24 + |data| && sd + 24 + |data| <= |f| && f[sd + 24..sd + 24 + |data|] == data
    ensures var at := ByteOffset(g, k);
      at + 8 <= |RecordStream.Record(g, i)| && FiledUnder(f, sd, i, RecordStream.Record(g, i)[at..at + 8], g.channels[k].samples[i])
  {
    hide RecordStream.Record, UIntAt, ByteOffset, FromStream, SignalData, FromLe;
    RecordStream.PayloadOfRecord(g, i, k);
  }

  /** A sample in its record, by what the blocks say. */
  lemma {:induction false} SampleFound(f: File, cg: nat, cn: nat, g: Group, recordId: nat, i: nat, k: nat)
    requires ValidGroup(g) && RecordSize(g) < 0x1_0000_0000 && |g.channels| < 0x1_0000_0000 && i < |g.times| && k < |g.channels|
    requires GroupSays(f, cg, recordId, |g.times|, DataBytes(g), InvalBytes(g)) && ChannelInFile(f, cn, g, k)
    ensures SampleIsAt(f, cg, cn, RecordStream.Record(g, i), g.channels[k], i)
  {
    hide RecordStream.Record, UIntAt, LinkAt, ByteOffset, FiledUnder, MarkedInvalid, SignalData, DataBytes, InvalBytes, RecordStream.HoldsSample,
         InvalBit, ArraySays, IsBlock;
    var c := g.channels[k];
    PlaceFits(g, k);
    if c.format.isVlsd { PayloadIsFiled(f, LinkAt(f, cn, 5), g, i, k); } else { RecordStream.SampleInRecord(g, i, k); }
    if c.valid.Some? {
      InvalidBitIsThere(g, i, k);
      assert UIntAt(f, cg + 96, 4) == DataBytes(g);
      assert UIntAt(f, cn + 104, 4) == InvalBit(g, k).value;
    }
  }

  lemma {:induction false} PlaceFits(g: Group, k: nat)
    requires ValidGroup(g) && k < |g.channels|
    ensures ByteOffset(g, k) + g.channels[k].format.recordWidth <= DataBytes(g) <= RecordSize(g)
    ensures g.channels[k].format.isVlsd ==> g.channels[k].format.recordWidth == 8
  {
    hide RecordStream.Record;
    if |g.times| > 0 { RecordStream.ChannelReadsBack(g, 0, k); }
    WidthsBefore(g.channels, k);
  }

  lemma {:induction false} WidthsBefore(channels: seq<Channel>, k: nat)
    requires k < |channels|
    ensures WidthSum(channels[..k]) + channels[k].format.recordWidth <= WidthSum(channels)
  {
    var last := |channels| - 1;
    if k < last {
      WidthsBefore(channels[..last], k);
      assert channels[..last][..k] == channels[..k];
    }
  }

  /** The groups of a data group can be told apart in its stream, and their sizes fit their fields. */
  ghost predicate Separable(groups: seq<Group>) {
    && RecordStream.ValidGroups(groups) && |groups| < U64_LIMIT && Narrow(groups)
    && (|groups| > 1 ==> Interleaving.IdsSuffice(RecordStream.SourcesOf(groups)))
  }

  /** Record `n` among a group's bytes is as long as the group's block says; it begins with the time due at that place of the
      order, and holds that sample of channel `k`. */
  ghost predicate RecordSays(f: File, cg: nat, cn: nat, bytes: seq<byte>, g: Group, k: nat, n: nat)
    requires ValidGroup(g) && k < |g.channels| && n < |g.times|
  {
    var i, size := SortedOrder(g.times)[n], UIntAt(f, cg + 96, 4) + UIntAt(f, cg + 100, 4);
    && |bytes| == |g.times| * size && 8 <= size && 0 <= n * size <= n * size + size <= |bytes|
    && var record := bytes[n * size..n * size + size];
       FromLe(record[..8]) == g.times[i] && SampleIsAt(f, cg, cn, record, g.channels[k], i)
  }

  lemma {:induction false} RecordFound(f: File, cg: nat, cn: nat, g: Group, recordId: nat, k: nat, n: nat)
    requires ValidGroup(g) && RecordSize(g) < 0x1_0000_0000 && |g.channels| < 0x1_0000_0000 && k < |g.channels| && n < |g.times|
    requires GroupSays(f, cg, recordId, |g.times|, DataBytes(g), InvalBytes(g)) && ChannelInFile(f, cn, g, k)
    ensures RecordSays(f, cg, cn, RecordBytes(RecordStream.SourceOf(g)), g, k, n)
  {
    hide UIntAt, SortedOrder, RecordStream.Record, RecordBytes, DataBytes, InvalBytes, SampleIsAt, GroupSays, ChannelInFile, RecordSize;
    var i := SortedOrder(g.times)[n];
    RecordIsThere(g, n, n * RecordSize(g));
    RecordStream.RecordReadsBack(g, i, k);
    SizeIsSaid(f, cg, g, recordId);
    SampleFound(f, cg, cn, g, recordId, i, k);
  }

  /** From the bytes of a written file to a sample, by following links and reading fields. Where groups share a stream this is
      so when the record IDs tell them apart. */
  lemma {:induction false} SampleReadsBack(w: FileWriter.Writer, list: seq<(nat, seq<nat>)>, dgs: seq<DataGroup>, layouts: seq<DataGroupLayout>,
                                           file: File, d: nat, g: nat, k: nat, n: nat, decode: seq<byte> -> seq<byte>)
    requires RecordStream.ValidGroups(w.groups) && FileWriter.Written(w, list, dgs, layouts, file) && |file| < U64_LIMIT
    requires d < |dgs| && g < |dgs[d].groups| && Separable(dgs[d].groups) && Undoes(w.codec, decode)
    requires k < |dgs[d].groups[g].channels| && n < |dgs[d].groups[g].times|
    ensures RecordSays(file, CgAt(file, d, g), CnAt(file, d, g, k + 1),
                       GroupBytesAt(file, d, |dgs[d].groups|, g, w.codec.transposed, decode), dgs[d].groups[g], k, n)
  {
    hide CgAt, CnAt, GroupBytesAt, RecordBytes, DataBytes, InvalBytes, FileWriter.Written, RecordSays, GroupSays, ChannelInFile, Undoes,
         Interleaving.IdsSuffice, RecordSize, RecordStream.Record;
    var group := dgs[d].groups[g];
    GroupReadsBack(w, list, dgs, layouts, file, d, g, decode);
    GroupFields(w, list, dgs, layouts, file, d, g);
    ChannelFields(w, list, dgs, layouts, file, d, g, k);
    assert ValidGroup(group) && RecordSize(group) < 0x1_0000_0000 && |group.channels| < 0x1_0000_0000;
    RecordFound(file, CgAt(file, d, g), CnAt(file, d, g, k + 1), group, if |dgs[d].groups| > 1 then g + 1 else 0, k, n);
  }

  lemma {:induction false} SizeIsSaid(f: File, cg: nat, g: Group, recordId: nat)
    requires GroupSays(f, cg, recordId, |g.times|, DataBytes(g), InvalBytes(g)) && RecordSize(g) < 0x1_0000_0000
    ensures UIntAt(f, cg + 96, 4) + UIntAt(f, cg + 100, 4) == RecordSize(g) >= 8
  {
    hide UIntAt;
  }

  /** Every group the writer holds is in the file, beside exactly the groups that ask for its data group, in their order. */
  lemma {:induction false} GroupIsSomewhere(w: FileWriter.Writer, list: seq<(nat, seq<nat>)>, dgs: seq<DataGroup>, layouts: seq<DataGroupLayout>,
                                            file: File, j: nat) returns (d: nat, g: nat)
    requires RecordStream.ValidGroups(w.groups) && FileWriter.Written(w, list, dgs, layouts, file) && j < |w.groups|
    ensures d < |dgs| && g < |dgs[d].groups| && dgs[d].groups[g] == w.groups[j]
    ensures d < |list| && |list[d].1| == |dgs[d].groups| && list[d].1[g] == j
    ensures forall a, b :: 0 <= a < b < |list[d].1| ==> list[d].1[a] < list[d].1[b]
    ensures forall i :: 0 <= i < |w.groups| ==> (i in list[d].1 <==> w.groups[i].dgId == w.groups[j].dgId)
  {
    hide DgsPlaced, FileWriter.IdBytes, PayloadOf, SharingBefore;
    var groups := w.groups;
    assert FileLayout.HasId(list, groups[j].dgId);
    d :| 0 <= d < |list| && list[d].0 == groups[j].dgId;
    FileWriter.SharingMembers(groups, list[d].0, |groups|);
    assert j in list[d].1;
    g :| 0 <= g < |list[d].1| && list[d].1[g] == j;
  }
}
