/** Demultiplexing undoes interleaving: what `record_bytes_multi` writes for several sources, indexed and
    gathered for one of them, is what `record_bytes` writes for that group alone. */
module Interleaving {
  import opened Arithmetic
  import opened Bytes
  import opened Options
  import opened WriterModel
  import opened Sorting
  import opened Streams
  import RecordStream
  import opened Demux

  /** What the CG blocks of a shared data group say: record IDs count from one. */
  function Infos(sources: seq<Source>): (infos: seq<GroupInfo>)
    ensures |infos| == |sources|
  {
    seq(|sources|, g requires 0 <= g < |sources| => GroupInfo(g + 1, sources[g].size, false))
  }

  function Reader(sources: seq<Source>): Recogniser {
    RecogniserFor(RecordMap(Infos(sources)), 1)
  }

  /** The one-byte record ID tells the sources that have samples apart. */
  predicate IdsSuffice(sources: seq<Source>) {
    forall g :: 255 <= g < |sources| ==> sources[g].times == []
  }

  lemma {:induction false} InfosMap(sources: seq<Source>, n: nat)
    requires n <= |sources|
    ensures forall id: nat :: id in RecordMap(Infos(sources)[..n]) <==> 1 <= id <= n
    ensures forall id: nat :: 1 <= id <= n ==>
      RecordMap(Infos(sources)[..n])[id] == Entry(id - 1, sources[id - 1].size, false)
  {
    if n > 0 {
      InfosMap(sources, n - 1);
      assert Infos(sources)[..n][..n - 1] == Infos(sources)[..n - 1];
    }
  }

  lemma {:induction false} ReaderMap(sources: seq<Source>)
    ensures forall id: nat :: id in RecordMap(Infos(sources)) <==> 1 <= id <= |sources|
    ensures forall id: nat :: 1 <= id <= |sources| ==>
      RecordMap(Infos(sources))[id] == Entry(id - 1, sources[id - 1].size, false)
  {
    InfosMap(sources, |sources|);
    assert Infos(sources)[..|sources|] == Infos(sources);
  }

  lemma {:induction false} ReaderTargets(sources: seq<Source>, g: nat)
    requires g < |sources|
    ensures Targets(Reader(sources), g + 1, g, 1 + sources[g].size)
  {
    ReaderMap(sources);
  }

  lemma {:induction false} OneByteId(data: seq<byte>)
    requires data != []
    ensures ReadRecordId(data, 1) == Some(data[0] as nat)
  {
    assert data[..1] == [data[0]] && FromLe(data[..1][1..]) == 0;
  }

  /** The reader recognises a record the writer tagged, whatever follows it. */
  lemma {:induction false} RecognisesTagged(sources: seq<Source>, ref: SampleRef, tail: seq<byte>)
    requires AllWellSized(sources) && RefersInto(ref, sources) && ref.group < 255
    ensures Reader(sources)(Tagged(sources, ref) + tail) == Some(Found(ref.group + 1, ref.group, 1 + sources[ref.group].size))
  {
    ReaderMap(sources);
    var data := Tagged(sources, ref) + tail;
    OneByteId(data);
    assert data[0] == ref.group + 1;
    assert FirstRecord(RecordMap(Infos(sources)), 1, data)
        == Some(Found(ref.group + 1, ref.group, 1 + sources[ref.group].size));
  }

  function SampleOf(): SampleRef -> nat {
    (r: SampleRef) => r.sample
  }

  /** The samples of group `g` among `refs`, in the order they come. */
  function SamplesOf(refs: seq<SampleRef>, g: nat): seq<nat> {
    Map(Filter(refs, OfGroup(g)), SampleOf())
  }

  lemma {:induction false} SamplesCons(first: SampleRef, rest: seq<SampleRef>, g: nat)
    ensures SamplesOf([first] + rest, g) == (if first.group == g then [first.sample] else []) + SamplesOf(rest, g)
  {
    assert ([first] + rest)[1..] == rest;
    var kept := Filter(rest, OfGroup(g));
    if first.group == g {
      assert ([first] + kept)[1..] == kept;
    }
  }

  lemma {:induction false} RecordsCons(src: Source, first: nat, rest: seq<nat>)
    ensures Flatten(RecordsAt(src, [first] + rest)) == src.record(first) + Flatten(RecordsAt(src, rest))
  {
    assert RecordsAt(src, [first] + rest) == [src.record(first)] + RecordsAt(src, rest);
    FlattenCons(src.record(first), RecordsAt(src, rest));
  }

  lemma {:induction false} TaggedCons(sources: seq<Source>, refs: seq<SampleRef>)
    requires AllWellSized(sources) && AllReferInto(refs, sources) && refs != []
    ensures Flatten(TaggedAll(sources, refs)) == Tagged(sources, refs[0]) + Flatten(TaggedAll(sources, refs[1..]))
  {
    assert TaggedAll(sources, refs) == [Tagged(sources, refs[0])] + TaggedAll(sources, refs[1..]);
    FlattenCons(Tagged(sources, refs[0]), TaggedAll(sources, refs[1..]));
  }

  ghost predicate AllBelow(refs: seq<SampleRef>, n: nat) {
    forall k :: 0 <= k < |refs| ==> refs[k].group < n
  }

  /** The records of group `g` among `refs`. */
  function Picked(sources: seq<Source>, refs: seq<SampleRef>, g: nat): seq<byte>
    requires g < |sources|
  {
    Flatten(RecordsAt(sources[g], SamplesOf(refs, g)))
  }

  lemma {:induction false} PickedCons(sources: seq<Source>, refs: seq<SampleRef>, g: nat)
    requires g < |sources| && refs != []
    ensures Picked(sources, refs, g)
         == (if refs[0].group == g then sources[g].record(refs[0].sample) else []) + Picked(sources, refs[1..], g)
  {
    var first, rest := refs[0], refs[1..];
    assert refs == [first] + rest;
    SamplesCons(first, rest, g);
    if first.group == g {
      RecordsCons(sources[g], first.sample, SamplesOf(rest, g));
    } else {
      assert [] + SamplesOf(rest, g) == SamplesOf(rest, g);
    }
  }

  /** Walking tagged records and keeping one ID's is keeping one group's. */
  lemma {:induction false} WalkKeepsGroup(sources: seq<Source>, refs: seq<SampleRef>, g: nat)
    requires AllWellSized(sources) && AllReferInto(refs, sources) && AllBelow(refs, 255) && g < |sources|
    ensures TargetRecords(Reader(sources), Flatten(TaggedAll(sources, refs)), g + 1, 1) == Picked(sources, refs, g)
  {
    if refs != [] {
      WalkKeepsGroup(sources, refs[1..], g);
      TaggedCons(sources, refs);
      OneTagged(sources, refs[0], Flatten(TaggedAll(sources, refs[1..])), g);
      PickedCons(sources, refs, g);
    }
  }

  lemma {:induction false} OneTagged(sources: seq<Source>, ref: SampleRef, tail: seq<byte>, g: nat)
    requires AllWellSized(sources) && RefersInto(ref, sources) && ref.group < 255 && g < |sources|
    ensures TargetRecords(Reader(sources), Tagged(sources, ref) + tail, g + 1, 1)
         == (if ref.group == g then sources[g].record(ref.sample) else []) + TargetRecords(Reader(sources), tail, g + 1, 1)
  {
    RecognisesTagged(sources, ref, tail);
    var data, size := Tagged(sources, ref) + tail, 1 + sources[ref.group].size;
    assert data[size..] == tail;
    assert data[1..size] == sources[ref.group].record(ref.sample);
  }

  lemma {:induction false} SamplesOfInterleaved(sources: seq<Source>, g: nat)
    requires g < |sources|
    ensures SamplesOf(Interleaved(sources), g) == SortedOrder(sources[g].times)
  {
    InterleavingProjects(sources, g);
  }

  /** The bytes a reader gathers for group `g` from a stream. */
  function ReadBack(sources: seq<Source>, stream: seq<byte>, g: nat): seq<byte>
    requires g < |sources|
  {
    Gathered(stream, OffsetsOf(StreamLog(Reader(sources), [stream]), g), 1, sources[g].size)
  }

  lemma {:induction false} OneBlockGathers(p: Recogniser, stream: seq<byte>, id: nat, g: nat, payload: nat)
    requires Targets(p, id, g, 1 + payload)
    ensures Gathered(stream, OffsetsOf(StreamLog(p, [stream]), g), 1, payload) == TargetRecords(p, stream, id, 1)
  {
    var blocks: seq<seq<byte>> := [stream];
    assert blocks[..0] == [] && Flatten(blocks) + [] == stream;
    StreamGathers(p, blocks, [], id, g, 1, payload);
    assert EagerRecords(p, blocks, id, 1) == [] + TargetRecords(p, stream, id, 1);
  }

  lemma {:induction false} ReadBackIsWalk(sources: seq<Source>, stream: seq<byte>, g: nat)
    requires g < |sources|
    ensures ReadBack(sources, stream, g) == TargetRecords(Reader(sources), stream, g + 1, 1)
  {
    ReaderTargets(sources, g);
    OneBlockGathers(Reader(sources), stream, g + 1, g, sources[g].size);
  }

  /** The main result: no record is lost, moved or mixed. */
  lemma {:induction false} DemuxUndoesInterleaving(sources: seq<Source>, g: nat)
    requires AllWellSized(sources) && |sources| >= 2 && g < |sources| && IdsSuffice(sources)
    ensures ReadBack(sources, StreamBytes(sources), g) == RecordBytes(sources[g])
  {
    var refs := Interleaved(sources);
    assert AllBelow(refs, 255) by {
      forall k | 0 <= k < |refs| ensures refs[k].group < 255 { assert RefersInto(refs[k], sources); }
    }
    WalkKeepsGroup(sources, refs, g);
    SamplesOfInterleaved(sources, g);
    ReadBackIsWalk(sources, StreamBytes(sources), g);
  }

  /** A one-byte ID never spells a number above 255. */
  lemma {:induction false} NoSuchId(sources: seq<Source>, rest: seq<byte>, id: nat)
    requires id > 255
    ensures TargetRecords(Reader(sources), rest, id, 1) == []
    decreases |rest|
  {
    var p := Reader(sources);
    if rest != [] && p(rest).Some? {
      var r := p(rest).value;
      OneByteId(rest);
      if r.length <= |rest| { NoSuchId(sources, rest[r.length..], id); }
    }
  }

  lemma {:induction false} RecordBytesTotal(src: Source)
    requires WellSized(src)
    ensures |RecordBytes(src)| == |src.times| * src.size
  {
    UniformTotal(RecordsAt(src, SortedOrder(src.times)), src.size);
  }

  lemma {:induction false} HasBytes(src: Source)
    requires WellSized(src) && src.times != []
    ensures RecordBytes(src) != []
  {
    RecordBytesTotal(src);
    MulLess(0, |src.times|, src.size);
  }

  /** The 256th group's records carry ID 0, the next one's ID 1 and so on: the reader never sees their IDs. */
  lemma {:induction false} LateGroupIsLost(sources: seq<Source>, stream: seq<byte>, g: nat)
    requires 255 <= g < |sources|
    ensures ReadBack(sources, stream, g) == []
  {
    ReadBackIsWalk(sources, stream, g);
    NoSuchId(sources, stream, g + 1);
  }

  ghost predicate AllReadBack(sources: seq<Source>, stream: seq<byte>) {
    forall g :: 0 <= g < |sources| ==> ReadBack(sources, stream, g) == RecordBytes(sources[g])
  }

  /** Exactly when every group reads back: no group past the 255th has a sample. */
  lemma {:induction false} ReadsBackExactly(sources: seq<Source>)
    requires AllWellSized(sources) && |sources| >= 2
    ensures AllReadBack(sources, StreamBytes(sources)) <==> IdsSuffice(sources)
  {
    if IdsSuffice(sources) {
      forall g | 0 <= g < |sources| ensures ReadBack(sources, StreamBytes(sources), g) == RecordBytes(sources[g]) {
        DemuxUndoesInterleaving(sources, g);
      }
    } else {
      var g :| 255 <= g < |sources| && sources[g].times != [];
      LateGroupIsLost(sources, StreamBytes(sources), g);
      HasBytes(sources[g]);
    }
  }

  /** Channel groups of one data group with one one-byte record each. */
  function OneRecordEach(count: nat): (sources: seq<Source>)
    ensures |sources| == count && AllWellSized(sources)
  {
    seq(count, g requires 0 <= g < count => Source([0], 1, i => [0]))
  }

  /** Of 255 such groups none is lost; of 256 the last is, though it has a record. */
  lemma {:induction false} LastOf256IsLost()
    ensures var sources := OneRecordEach(256);
      && |RecordBytes(sources[255])| == 1
      && ReadBack(sources, StreamBytes(sources), 255) == []
      && AllReadBack(OneRecordEach(255), StreamBytes(OneRecordEach(255)))
  {
    var sources := OneRecordEach(256);
    RecordBytesTotal(sources[255]);
    LateGroupIsLost(sources, StreamBytes(sources), 255);
    ReadsBackExactly(OneRecordEach(255));
  }

  /** Writer and reader put together, for one group of a shared data group. */
  method WriteThenRead(groups: seq<Group>, g: nat, keepStream: bool) returns (records: seq<byte>, count: nat)
    requires RecordStream.ValidGroups(groups) && |groups| >= 2 && g < |groups|
    requires IdsSuffice(RecordStream.SourcesOf(groups))
    ensures records == RecordBytes(RecordStream.SourceOf(groups[g]))
    ensures count == |groups[g].times|
  {
    ghost var sources := RecordStream.SourcesOf(groups);
    var stream := RecordStream.WriteRecordsMulti(groups);
    var infos := seq(|groups|, k requires 0 <= k < |groups| => GroupInfo(k + 1, RecordSize(groups[k]), false));
    assert infos == Infos(sources);
    var index, seed := IndexRecords(infos, 1, [stream], keepStream);
    records, count := GatherRecords(stream, index[g], 1, RecordSize(groups[g]));
    DemuxUndoesInterleaving(sources, g);
    RecordBytesTotal(sources[g]);
    DivUnique(|records|, RecordSize(groups[g]), |groups[g].times|, 0);
  }
}
