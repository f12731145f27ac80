/** Reads through the caches (`records_for`, `raw_stream_for` of src/file.rs) answer as if there were none. */
module CachedReads {
  import Arithmetic
  import opened Bytes
  import opened Options
  import opened DataBlocks
  import opened Demux
  import opened BoundedLru

  /** A channel group as its CG block describes it. */
  datatype GroupFile = GroupFile(dataBytes: nat, invalBytes: nat, sampleCount: nat)

  /** A data group of an open file; `index` holds the record offsets per channel group when its records are interleaved. */
  datatype DataGroupFile = DataGroupFile(blocks: seq<Block>, idSize: nat, groups: seq<GroupFile>, index: Option<seq<seq<nat>>>)

  datatype RecordLayout = RecordLayout(recordSize: nat, recordOffset: nat, invalStart: nat, invalBytes: nat)

  datatype Records = Records(data: seq<byte>, layout: RecordLayout, sampleCount: nat)

  predicate ValidGroupFile(dg: DataGroupFile) {
    dg.index.Some? ==> |dg.index.value| == |dg.groups|
  }

  // ---------------------------------------------------------------- what an uncached read gives

  /** All the blocks' payloads joined, or the error of the first that cannot be read. */
  function StreamOf(blocks: seq<Block>): Result<seq<byte>, ReadError> {
    if blocks == [] then Ok([]) else
      match StreamOf(blocks[..|blocks| - 1])
      case Err(e) => Err(e)
      case Ok(before) =>
        match Payload(blocks[|blocks| - 1])
        case Err(e) => Err(e)
        case Ok(last) => Ok(before + last)
  }

  /** What the open-time walk keeps of a readable data group is its stream. */
  lemma {:induction false} SeedIsStream(blocks: seq<Block>, payloads: seq<seq<byte>>)
    requires |payloads| == |blocks| && forall i :: 0 <= i < |blocks| ==> Payload(blocks[i]) == Ok(payloads[i])
    ensures StreamOf(blocks) == Ok(Flatten(payloads))
  {
    if blocks != [] {
      var n := |blocks| - 1;
      SeedIsStream(blocks[..n], payloads[..n]);
    }
  }

  function RecordsIn(dg: DataGroupFile, g: nat, raw: seq<byte>): Records
    requires ValidGroupFile(dg) && g < |dg.groups|
  {
    var cg := dg.groups[g];
    var payload := cg.dataBytes + cg.invalBytes;
    if dg.index.Some? then
      var data := if payload == 0 then [] else Gathered(raw, dg.index.value[g], dg.idSize, payload);
      Records(data, RecordLayout(payload, 0, cg.dataBytes, cg.invalBytes), if payload == 0 then 0 else |data| / payload)
    else
      var size := dg.idSize + payload;
      Records(raw, RecordLayout(size, dg.idSize, cg.dataBytes, cg.invalBytes),
              if cg.sampleCount > 0 then cg.sampleCount else if size == 0 then 0 else |raw| / size)
  }

  /** Bytes `from` to `to` of a record's payload, by the layout the records are handed out with. */
  function PartOf(r: Records, i: nat, from: nat, to: nat): Option<seq<byte>> {
    var at := i * r.layout.recordSize + r.layout.recordOffset;
    if from <= to && at + to <= |r.data| then Some(r.data[at + from..at + to]) else None
  }

  /** Through the layout, record `i` of a group that is read in one run is the one behind `i` records and their IDs, with its
      invalidation bytes where its data ends. */
  lemma {:induction false} SortedRecordAt(dg: DataGroupFile, g: nat, raw: seq<byte>, i: nat)
    requires dg.index.None? && g < |dg.groups|
    requires i * (dg.idSize + dg.groups[g].dataBytes + dg.groups[g].invalBytes)
             + dg.idSize + dg.groups[g].dataBytes + dg.groups[g].invalBytes <= |raw|
    ensures var cg, r := dg.groups[g], RecordsIn(dg, g, raw);
      var at := i * (dg.idSize + cg.dataBytes + cg.invalBytes) + dg.idSize;
      && PartOf(r, i, 0, r.layout.invalStart) == Some(raw[at..at + cg.dataBytes])
      && PartOf(r, i, r.layout.invalStart, r.layout.invalStart + r.layout.invalBytes)
         == Some(raw[at + cg.dataBytes..at + cg.dataBytes + cg.invalBytes])
  {
    var cg := dg.groups[g];
    assert dg.idSize + (cg.dataBytes + cg.invalBytes) == dg.idSize + cg.dataBytes + cg.invalBytes;
  }

  /** Of a group whose records are interleaved with others, it is the one behind the ID at offset `i` of the index, and there are
      as many as offsets. */
  lemma {:induction false} IndexedRecordAt(dg: DataGroupFile, g: nat, raw: seq<byte>, i: nat)
    requires ValidGroupFile(dg) && dg.index.Some? && g < |dg.groups| && i < |dg.index.value[g]|
    requires dg.groups[g].dataBytes + dg.groups[g].invalBytes > 0
    requires AllInside(raw, dg.index.value[g], dg.idSize + (dg.groups[g].dataBytes + dg.groups[g].invalBytes))
    ensures var cg, r := dg.groups[g], RecordsIn(dg, g, raw);
      var at := dg.index.value[g][i] + dg.idSize;
      && r.sampleCount == |dg.index.value[g]|
      && PartOf(r, i, 0, r.layout.invalStart) == Some(raw[at..at + cg.dataBytes])
      && PartOf(r, i, r.layout.invalStart, r.layout.invalStart + r.layout.invalBytes)
         == Some(raw[at + cg.dataBytes..at + cg.dataBytes + cg.invalBytes])
  {
    hide Gathered, AllInside;
    var cg, r, n := dg.groups[g], RecordsIn(dg, g, raw), |dg.index.value[g]|;
    var size, at := cg.dataBytes + cg.invalBytes, dg.index.value[g][i] + dg.idSize;
    GatheredAt(raw, dg.index.value[g], dg.idSize, size, i);
    GatheredLength(raw, dg.index.value[g], dg.idSize, size);
    InsideAt(raw, dg.index.value[g], dg.idSize + size, i);
    Arithmetic.DivUnique(n * size, size, n, 0);
    var record := raw[at..at + size];
    SliceOfSlice(r.data, i * size, record, 0, cg.dataBytes);
    SliceOfSlice(r.data, i * size, record, cg.dataBytes, cg.invalBytes);
    assert record[0..cg.dataBytes] == raw[at..at + cg.dataBytes];
    assert record[cg.dataBytes..cg.dataBytes + cg.invalBytes] == raw[at + cg.dataBytes..at + cg.dataBytes + cg.invalBytes];
  }

  lemma {:induction false} InsideAt(raw: seq<byte>, offsets: seq<nat>, size: nat, i: nat)
    requires i < |offsets| && AllInside(raw, offsets, size)
    ensures offsets[i] + size <= |raw|
  {
  }

  /** A channel group's records, read from the file. */
  function RecordsOf(dg: DataGroupFile, g: nat): Result<Records, ReadError>
    requires ValidGroupFile(dg) && g < |dg.groups|
  {
    match StreamOf(dg.blocks)
    case Err(e) => Err(e)
    case Ok(raw) => Ok(RecordsIn(dg, g, raw))
  }

  /** `read_raw_data_indexed`. */
  method ReadRaw(blocks: seq<Block>) returns (r: Result<seq<byte>, ReadError>)
    ensures r == StreamOf(blocks)
  {
    hide Payload;
    var all := [];
    for i := 0 to |blocks|
      invariant StreamOf(blocks[..i]) == Ok(all)
    {
      assert blocks[..i + 1][..i] == blocks[..i];
      var payload := ReadBlockPayload(blocks[i]);
      if payload.Err? {
        FirstError(blocks, i + 1);
        return Err(payload.error);
      }
      all := all + payload.value;
    }
    assert blocks[..|blocks|] == blocks;
    r := Ok(all);
  }

  lemma {:induction false} FirstError(blocks: seq<Block>, n: nat)
    requires n <= |blocks| && StreamOf(blocks[..n]).Err?
    ensures StreamOf(blocks) == StreamOf(blocks[..n])
    decreases |blocks|
  {
    if n < |blocks| {
      var before := blocks[..|blocks| - 1];
      assert before[..n] == blocks[..n];
      FirstError(before, n);
    } else {
      assert blocks[..n] == blocks;
    }
  }

  // ---------------------------------------------------------------- the cached reader

  type Key = (nat, nat)

  class Reader {
    const groups: seq<DataGroupFile>
    const streams: Lru<nat, seq<byte>>
    const records: Lru<Key, Records>

    /** Everything either cache has ever been given is what the file gives. */
    ghost predicate Valid()
      reads this, streams, records
    {
      && streams as object != records as object
      && streams.Valid() && records.Valid()
      && (forall i :: 0 <= i < |groups| ==> ValidGroupFile(groups[i]))
      && StreamsTrue() && RecordsTrue()
    }

    ghost predicate StreamsTrue()
      reads streams
    {
      forall k :: k in streams.inserted ==> k < |groups| && StreamOf(groups[k].blocks) == Ok(streams.inserted[k])
    }

    ghost predicate RecordsTrue()
      reads records
      requires forall i :: 0 <= i < |groups| ==> ValidGroupFile(groups[i])
    {
      forall k: Key :: k in records.inserted ==>
        && k.0 < |groups| && k.1 < |groups[k.0].groups|
        && RecordsOf(groups[k.0], k.1) == Ok(records.inserted[k])
    }

    constructor (groups: seq<DataGroupFile>, maxEntries: nat, maxBytes: nat)
      requires forall i :: 0 <= i < |groups| ==> ValidGroupFile(groups[i])
      ensures Valid() && fresh(streams) && fresh(records) && this.groups == groups
    {
      this.groups := groups;
      streams := new Lru<nat, seq<byte>>(maxEntries, maxBytes);
      records := new Lru<Key, Records>(maxEntries, maxBytes);
    }

    /** `with_seeded_streams`: the streams the open-time walk kept go into the cache. */
    method Seed(seeds: seq<Option<seq<byte>>>)
      requires Valid() && |seeds| <= |groups|
      requires forall i :: 0 <= i < |seeds| && seeds[i].Some? ==> StreamOf(groups[i].blocks) == Ok(seeds[i].value)
      modifies streams
      ensures Valid()
    {
      for i := 0 to |seeds|
        invariant Valid()
      {
        if seeds[i].Some? { streams.Insert(i, seeds[i].value, |seeds[i].value|); }
      }
    }

    /** `raw_stream_for`. Whatever has been read, seeded or evicted before, it gives what the file gives. */
    method RawStreamFor(dg: nat) returns (r: Result<seq<byte>, ReadError>)
      requires Valid() && dg < |groups|
      modifies streams
      ensures Valid() && r == StreamOf(groups[dg].blocks)
    {
      var hit := streams.Get(dg);
      if hit.Some? { return Ok(hit.value); }
      r := ReadRaw(groups[dg].blocks);
      if r.Ok? { streams.Insert(dg, r.value, |r.value|); }
    }

    /** `build_records`. */
    method BuildRecords(key: Key) returns (r: Result<Records, ReadError>)
      requires Valid() && key.0 < |groups| && key.1 < |groups[key.0].groups|
      modifies streams
      ensures Valid() && r == RecordsOf(groups[key.0], key.1)
    {
      hide StreamOf, Gathered;
      var dg := groups[key.0];
      var cg := dg.groups[key.1];
      var raw := RawStreamFor(key.0);
      if raw.Err? { return Err(raw.error); }
      var payload := cg.dataBytes + cg.invalBytes;
      if dg.index.Some? {
        var data, count := GatherRecords(raw.value, dg.index.value[key.1], dg.idSize, payload);
        return Ok(Records(data, RecordLayout(payload, 0, cg.dataBytes, cg.invalBytes), count));
      }
      var size := dg.idSize + payload;
      var count := if cg.sampleCount > 0 then cg.sampleCount else if size == 0 then 0 else |raw.value| / size;
      r := Ok(Records(raw.value, RecordLayout(size, dg.idSize, cg.dataBytes, cg.invalBytes), count));
    }

    /** `records_for`. Over any run of reads it answers as if uncached. */
    method RecordsFor(key: Key) returns (r: Result<Records, ReadError>)
      requires Valid() && key.0 < |groups| && key.1 < |groups[key.0].groups|
      modifies streams, records
      ensures Valid() && r == RecordsOf(groups[key.0], key.1)
    {
      hide StreamOf, RecordsOf;
      var hit := records.Get(key);
      if hit.Some? { return Ok(hit.value); }
      r := BuildRecords(key);
      if r.Ok? { records.Insert(key, r.value, |r.value.data|); }
    }
  }
}
