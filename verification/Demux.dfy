/** How an interleaved record stream is taken apart (`index_records`, `gather_records` of src/file.rs),
    and the proof that this undoes what the writer put together. */
module Demux {
  import opened Bytes
  import opened Options
  import opened WriterModel
  import opened Sorting
  import opened RecordStream

  // ---------------------------------------------------------------- recognising one record

  /** What the reader knows of a channel group: its record ID, the size of a record without its ID,
      and whether its records carry their own length. */
  datatype GroupInfo = GroupInfo(recordId: nat, payloadSize: nat, isVlsd: bool)

  /** A value of the record map: which group a record ID belongs to and how long its records are. */
  datatype Entry = Entry(group: nat, payloadSize: nat, isVlsd: bool)

  type Length = n: nat | n > 0 witness 1

  /** A record at the front of some data: its ID, the group it belongs to, and its whole length. */
  datatype Found = Found(id: nat, group: nat, length: Length)

  /** Recognises the record at the front of what is left of a block, if it can be measured. */
  type Recogniser = seq<byte> -> Option<Found>

  /** `read_record_id`, on the bytes from the current position on. */
  function ReadRecordId(rest: seq<byte>, idSize: nat): Option<nat> {
    if idSize > |rest| || idSize !in {1, 2, 4, 8} then None else Some(FromLe(rest[..idSize]))
  }

  /** One turn of the walk. The length a variable-length record states is not held against the end of the data. */
  function FirstRecord(records: map<nat, Entry>, idSize: nat, rest: seq<byte>): Option<Found> {
    match ReadRecordId(rest, idSize)
    case None => None
    case Some(id) =>
      if id !in records then None
      else
        var e := records[id];
        if e.isVlsd then
          if idSize + 4 > |rest| then None
          else Some(Found(id, e.group, idSize + 4 + FromLe(rest[idSize..idSize + 4])))
        else
          var size := idSize + e.payloadSize;
          if size == 0 || size > |rest| then None else Some(Found(id, e.group, size))
  }

  function RecogniserFor(records: map<nat, Entry>, idSize: nat): Recogniser {
    (rest: seq<byte>) => FirstRecord(records, idSize, rest)
  }

  /** The record map: a record ID named twice belongs to the group named last. */
  function RecordMap(groups: seq<GroupInfo>): map<nat, Entry> {
    if groups == [] then map[]
    else
      var n := |groups| - 1;
      RecordMap(groups[..n])[groups[n].recordId := Entry(n, groups[n].payloadSize, groups[n].isVlsd)]
  }

  method BuildRecordMap(groups: seq<GroupInfo>) returns (m: map<nat, Entry>)
    ensures m == RecordMap(groups)
  {
    m := map[];
    for n := 0 to |groups|
      invariant m == RecordMap(groups[..n])
    {
      assert groups[..n + 1][..n] == groups[..n];
      m := m[groups[n].recordId := Entry(n, groups[n].payloadSize, groups[n].isVlsd)];
    }
    assert groups[..|groups|] == groups;
  }

  /** An ID written little-endian in 1, 2, 4 or 8 bytes is read, whatever follows; no other size is an ID, and no ID is read from
      too few bytes. */
  lemma {:induction false} IdIsRead(id: nat, idSize: nat, rest: seq<byte>)
    ensures idSize in {1, 2, 4, 8} && id < Power256(idSize) ==> ReadRecordId(Le(id, idSize) + rest, idSize) == Some(id)
    ensures idSize !in {1, 2, 4, 8} || |rest| < idSize ==> ReadRecordId(rest, idSize) == None
  {
    assert (Le(id, idSize) + rest)[..idSize] == Le(id, idSize);
    if id < Power256(idSize) { LeRoundTrip(id, idSize); }
  }

  /** A record behind its ID is recognised with its group and its whole length: as long as its group's records are, or, in a
      group of variable length, as the four bytes behind the ID say. */
  lemma {:induction false} RecordIsRecognised(records: map<nat, Entry>, idSize: nat, id: nat, body: seq<byte>, rest: seq<byte>)
    requires idSize in {1, 2, 4, 8} && id < Power256(idSize) && id in records
    ensures !records[id].isVlsd && |body| == records[id].payloadSize ==>
      FirstRecord(records, idSize, Le(id, idSize) + body + rest) == Some(Found(id, records[id].group, idSize + |body|))
    ensures records[id].isVlsd && |body| < 0x1_0000_0000 ==>
      FirstRecord(records, idSize, Le(id, idSize) + Le(|body|, 4) + body + rest) == Some(Found(id, records[id].group, idSize + 4 + |body|))
  {
    hide Le, FromLe, Power256, ReadRecordId;
    if records[id].isVlsd {
      LengthIsRead(id, idSize, body, rest);
    } else {
      Assoc(Le(id, idSize), body, rest);
      IdIsRead(id, idSize, body + rest);
    }
  }

  lemma {:induction false} LengthIsRead(id: nat, idSize: nat, body: seq<byte>, rest: seq<byte>)
    requires idSize in {1, 2, 4, 8} && id < Power256(idSize)
    ensures var data := Le(id, idSize) + Le(|body|, 4) + body + rest;
      ReadRecordId(data, idSize) == Some(id) && (|body| < 0x1_0000_0000 ==> FromLe(data[idSize..idSize + 4]) == |body|)
  {
    hide Le, FromLe, Power256, ReadRecordId;
    Assoc(Le(id, idSize), Le(|body|, 4), body);
    Assoc(Le(id, idSize), Le(|body|, 4) + body, rest);
    IdIsRead(id, idSize, Le(|body|, 4) + body + rest);
    assert (Le(id, idSize) + Le(|body|, 4) + body + rest)[idSize..idSize + 4] == Le(|body|, 4);
    FourBytes();
    if |body| < 0x1_0000_0000 { LeRoundTrip(|body|, 4); }
  }

  lemma {:induction false} FourBytes()
    ensures Power256(4) == 0x1_0000_0000
  {
  }

  /** Nothing is recognised where no ID can be read, the ID is no group's, or the record is not there whole; and of a record of
      variable length the length must be there. */
  lemma {:induction false} NothingRecognised(records: map<nat, Entry>, idSize: nat, rest: seq<byte>)
    ensures FirstRecord(records, idSize, rest).None? <==>
      var id := ReadRecordId(rest, idSize);
      || id.None? || id.value !in records
      || |rest| < idSize + if records[id.value].isVlsd then 4 else records[id.value].payloadSize
  {
  }

  ghost predicate OwnersBelow(p: Recogniser, n: nat) {
    forall rest :: p(rest).Some? ==> p(rest).value.group < n
  }

  lemma {:induction false} OwnersInRange(groups: seq<GroupInfo>, id: nat)
    requires id in RecordMap(groups)
    ensures RecordMap(groups)[id].group < |groups|
    ensures groups[RecordMap(groups)[id].group].recordId == id
  {
    var n := |groups| - 1;
    if id != groups[n].recordId { OwnersInRange(groups[..n], id); }
  }

  lemma {:induction false} RecogniserOwners(groups: seq<GroupInfo>, idSize: nat)
    ensures OwnersBelow(RecogniserFor(RecordMap(groups), idSize), |groups|)
  {
    var p := RecogniserFor(RecordMap(groups), idSize);
    forall rest | p(rest).Some? ensures p(rest).value.group < |groups| {
      OwnersInRange(groups, p(rest).value.id);
    }
  }

  // ---------------------------------------------------------------- indexing

  /** The records of one block as the index sees them: whose each is, and where it starts in the stream. */
  function BlockLog(p: Recogniser, base: nat, rest: seq<byte>): seq<(nat, nat)>
    decreases |rest|
  {
    if rest == [] then [] else
    match p(rest)
    case None => []
    case Some(r) => [(r.group, base)] + if r.length > |rest| then [] else BlockLog(p, base + r.length, rest[r.length..])
  }

  function StreamLog(p: Recogniser, blocks: seq<seq<byte>>): seq<(nat, nat)> {
    if blocks == [] then []
    else
      var before := blocks[..|blocks| - 1];
      StreamLog(p, before) + BlockLog(p, |Flatten(before)|, blocks[|blocks| - 1])
  }

  /** `RecordIndex::offsets` of one group after every entry of the log was pushed. */
  function OffsetsOf(log: seq<(nat, nat)>, group: nat): seq<nat> {
    if log == [] then []
    else
      var last := log[|log| - 1];
      OffsetsOf(log[..|log| - 1], group) + if last.0 == group then [last.1] else []
  }

  ghost predicate IndexHolds(index: seq<seq<nat>>, log: seq<(nat, nat)>) {
    forall g :: 0 <= g < |index| ==> index[g] == OffsetsOf(log, g)
  }

  lemma {:induction false} Logged(index: seq<seq<nat>>, log: seq<(nat, nat)>, owner: nat, at: nat)
    requires IndexHolds(index, log) && owner < |index|
    ensures IndexHolds(index[owner := index[owner] + [at]], log + [(owner, at)])
  {
    assert (log + [(owner, at)])[..|log|] == log;
  }

  /** The walk's state after it has passed the rest of the block, from the log so far. */
  ghost function LogInto(p: Recogniser, base: nat, rest: seq<byte>, log: seq<(nat, nat)>): seq<(nat, nat)>
    decreases |rest|
  {
    if rest == [] || p(rest).None? then log
    else
      var r := p(rest).value;
      if r.length > |rest| then log + [(r.group, base)]
      else LogInto(p, base + r.length, rest[r.length..], log + [(r.group, base)])
  }

  lemma {:induction false} LogIntoAppends(p: Recogniser, base: nat, rest: seq<byte>, log: seq<(nat, nat)>)
    ensures LogInto(p, base, rest, log) == log + BlockLog(p, base, rest)
    decreases |rest|
  {
    if rest != [] && p(rest).Some? {
      var r := p(rest).value;
      if r.length <= |rest| {
        LogIntoAppends(p, base + r.length, rest[r.length..], log + [(r.group, base)]);
      }
    }
  }

  /** The walk of `index_records` over one block. */
  method IndexBlock(p: Recogniser, data: seq<byte>, base: nat, before: seq<seq<nat>>, ghost log: seq<(nat, nat)>)
    returns (index: seq<seq<nat>>)
    requires OwnersBelow(p, |before|) && IndexHolds(before, log)
    ensures |index| == |before| && IndexHolds(index, log + BlockLog(p, base, data))
  {
    hide IndexHolds, BlockLog;
    index := before;
    var pos := 0;
    ghost var done := log;
    assert data[0..] == data;
    while pos < |data|
      invariant |index| == |before| && IndexHolds(index, done)
      invariant LogInto(p, base, data, log) == if pos > |data| then done else LogInto(p, base + pos, data[pos..], done)
    {
      match p(data[pos..])
      case None => break;
      case Some(r) =>
        Logged(index, done, r.group, base + pos);
        index := index[r.group := index[r.group] + [base + pos]];
        done := done + [(r.group, base + pos)];
        assert pos + r.length <= |data| ==> data[pos..][r.length..] == data[pos + r.length..];
        pos := pos + r.length;
    }
    LogIntoAppends(p, base, data, log);
  }

  /** The walk over a data group's blocks; the stream it assembles on the way can seed the cache. */
  method IndexRecords(groups: seq<GroupInfo>, idSize: nat, blocks: seq<seq<byte>>, keepStream: bool)
    returns (index: seq<seq<nat>>, seed: Option<seq<byte>>)
    ensures |index| == |groups|
    ensures IndexHolds(index, StreamLog(RecogniserFor(RecordMap(groups), idSize), blocks))
    ensures seed == if keepStream then Some(Flatten(blocks)) else None
  {
    var records := BuildRecordMap(groups);
    var p := RecogniserFor(records, idSize);
    RecogniserOwners(groups, idSize);
    index := seq(|groups|, _ => []);
    var base := 0;
    var stream := [];
    for n := 0 to |blocks|
      invariant base == |Flatten(blocks[..n])|
      invariant keepStream ==> stream == Flatten(blocks[..n])
      invariant |index| == |groups| && IndexHolds(index, StreamLog(p, blocks[..n]))
    {
      FlattenNext(blocks, n);
      assert blocks[..n + 1][..n] == blocks[..n];
      if keepStream { stream := stream + blocks[n]; }
      index := IndexBlock(p, blocks[n], base, index, StreamLog(p, blocks[..n]));
      base := base + |blocks[n]|;
    }
    assert blocks[..|blocks|] == blocks;
    seed := if keepStream then Some(stream) else None;
  }

  // ---------------------------------------------------------------- gathering one group

  function Gathered(raw: seq<byte>, offsets: seq<nat>, idSize: nat, payload: nat): seq<byte> {
    if offsets == [] || offsets[0] + idSize + payload > |raw| then []
    else raw[offsets[0] + idSize..offsets[0] + idSize + payload] + Gathered(raw, offsets[1..], idSize, payload)
  }

  /** `gather_records`. */
  method GatherRecords(raw: seq<byte>, offsets: seq<nat>, idSize: nat, payload: nat) returns (out: seq<byte>, count: nat)
    ensures out == if payload == 0 then [] else Gathered(raw, offsets, idSize, payload)
    ensures count == if payload == 0 then 0 else |out| / payload
  {
    if payload == 0 { return [], 0; }
    out := [];
    for n := 0 to |offsets|
      invariant out + Gathered(raw, offsets[n..], idSize, payload) == Gathered(raw, offsets, idSize, payload)
    {
      var start := offsets[n] + idSize;
      assert offsets[n..][1..] == offsets[n + 1..];
      if start + payload > |raw| { break; }
      out := out + raw[start..start + payload];
    }
    count := |out| / payload;
  }

  /** The payloads of the records that carry `id`, among the records that lie wholly inside the block. */
  function TargetRecords(p: Recogniser, rest: seq<byte>, id: nat, idSize: nat): seq<byte>
    decreases |rest|
  {
    if rest == [] then [] else
    match p(rest)
    case None => []
    case Some(r) =>
      if r.length > |rest| then [] else Mine(rest, r, id, idSize) + TargetRecords(p, rest[r.length..], id, idSize)
  }

  /** `id` names the fixed-size records of group `group`, and nothing else does. */
  ghost predicate Targets(p: Recogniser, id: nat, group: nat, size: nat) {
    forall rest :: p(rest).Some? ==>
      && (p(rest).value.group == group <==> p(rest).value.id == id)
      && (p(rest).value.id == id ==> p(rest).value.length == size <= |rest|)
  }

  lemma {:induction false} GatheredAppend(raw: seq<byte>, a: seq<nat>, b: seq<nat>, idSize: nat, payload: nat)
    requires AllInside(raw, a, idSize + payload)
    ensures Gathered(raw, a + b, idSize, payload) == Gathered(raw, a, idSize, payload) + Gathered(raw, b, idSize, payload)
  {
    if a == [] {
      assert a + b == b;
    } else {
      assert (a + b)[1..] == a[1..] + b;
      GatheredAppend(raw, a[1..], b, idSize, payload);
    }
  }

  lemma {:induction false} OffsetsAppend(a: seq<(nat, nat)>, b: seq<(nat, nat)>, group: nat)
    ensures OffsetsOf(a + b, group) == OffsetsOf(a, group) + OffsetsOf(b, group)
  {
    if b == [] {
      assert a + b == a;
    } else {
      var n := |b| - 1;
      assert (a + b)[..|a + b| - 1] == a + b[..n];
      OffsetsAppend(a, b[..n], group);
    }
  }

  ghost predicate AllInside(raw: seq<byte>, offsets: seq<nat>, size: nat) {
    forall k :: 0 <= k < |offsets| ==> offsets[k] + size <= |raw|
  }

  lemma {:induction false} GatheredLength(raw: seq<byte>, offsets: seq<nat>, idSize: nat, payload: nat)
    requires AllInside(raw, offsets, idSize + payload)
    ensures |Gathered(raw, offsets, idSize, payload)| == |offsets| * payload
  {
    if offsets != [] {
      GatheredLength(raw, offsets[1..], idSize, payload);
      assert |offsets| * payload == (|offsets| - 1) * payload + payload;
    }
  }

  /** Record `i` of what is gathered is the one behind the ID at offset `i`. */
  lemma {:induction false} GatheredAt(raw: seq<byte>, offsets: seq<nat>, idSize: nat, payload: nat, i: nat)
    requires i < |offsets| && AllInside(raw, offsets, idSize + payload)
    ensures i * payload + payload <= |Gathered(raw, offsets, idSize, payload)|
    ensures Gathered(raw, offsets, idSize, payload)[i * payload..i * payload + payload]
         == raw[offsets[i] + idSize..offsets[i] + idSize + payload]
    decreases i
  {
    var first, rest := raw[offsets[0] + idSize..offsets[0] + idSize + payload], Gathered(raw, offsets[1..], idSize, payload);
    if i > 0 {
      GatheredAt(raw, offsets[1..], idSize, payload, i - 1);
      assert i * payload == (i - 1) * payload + payload;
      assert (first + rest)[i * payload..i * payload + payload] == rest[(i - 1) * payload..(i - 1) * payload + payload];
    }
  }

  /** One more entry at the front of the log: one more record at the front of what is gathered, if it is the group's. */
  lemma {:induction false} GatherStep(raw: seq<byte>, owner: nat, at: nat, tail: seq<(nat, nat)>, group: nat,
                                      idSize: nat, payload: nat)
    requires AllInside(raw, OffsetsOf(tail, group), idSize + payload)
    requires owner == group ==> at + idSize + payload <= |raw|
    ensures AllInside(raw, OffsetsOf([(owner, at)] + tail, group), idSize + payload)
    ensures Gathered(raw, OffsetsOf([(owner, at)] + tail, group), idSize, payload)
         == (if owner == group then raw[at + idSize..at + idSize + payload] else [])
            + Gathered(raw, OffsetsOf(tail, group), idSize, payload)
  {
    OffsetsAppend([(owner, at)], tail, group);
    assert [(owner, at)][..0] == [];
    assert OffsetsOf([(owner, at)], group) == if owner == group then [at] else [];
    var offsets := OffsetsOf(tail, group);
    if owner == group {
      assert ([at] + offsets)[1..] == offsets;
    } else {
      assert [] + offsets == offsets;
    }
  }

  /** The index and the block's own records agree on what the block holds of the group. */
  ghost predicate Agree(raw: seq<byte>, log: seq<(nat, nat)>, records: seq<byte>, group: nat, idSize: nat, payload: nat) {
    && AllInside(raw, OffsetsOf(log, group), idSize + payload)
    && Gathered(raw, OffsetsOf(log, group), idSize, payload) == records
  }

  lemma {:induction false} AgreeStep(raw: seq<byte>, owner: nat, at: nat, tail: seq<(nat, nat)>, records: seq<byte>,
                                     mine: seq<byte>, group: nat, idSize: nat, payload: nat)
    requires Agree(raw, tail, records, group, idSize, payload)
    requires owner == group ==> at + idSize + payload <= |raw| && mine == raw[at + idSize..at + idSize + payload]
    requires owner != group ==> mine == []
    ensures Agree(raw, [(owner, at)] + tail, mine + records, group, idSize, payload)
  {
    GatherStep(raw, owner, at, tail, group, idSize, payload);
  }

  /** The part of the record at the front that belongs to the record with ID `id`. */
  function Mine(rest: seq<byte>, r: Found, id: nat, idSize: nat): seq<byte>
    requires r.length <= |rest|
  {
    if r.id == id && idSize <= r.length then rest[idSize..r.length] else []
  }

  lemma {:induction false} MineInStream(p: Recogniser, raw: seq<byte>, before: seq<byte>, rest: seq<byte>, after: seq<byte>,
                                        r: Found, id: nat, group: nat, idSize: nat, payload: nat)
    requires Targets(p, id, group, idSize + payload) && raw == before + rest + after
    requires p(rest) == Some(r) && r.length <= |rest|
    ensures r.group == group ==>
      |before| + idSize + payload <= |raw| && Mine(rest, r, id, idSize) == raw[|before| + idSize..|before| + idSize + payload]
    ensures r.group != group ==> Mine(rest, r, id, idSize) == []
  {
  }

  lemma {:induction false} AgreeNothing(raw: seq<byte>, group: nat, idSize: nat, payload: nat)
    ensures Agree(raw, [], [], group, idSize, payload)
  {
  }

  /** Gathering by the index what one block logged is picking the block's own records. */
  lemma {:induction false} BlockGathers(p: Recogniser, raw: seq<byte>, before: seq<byte>, rest: seq<byte>, after: seq<byte>,
                                        id: nat, group: nat, idSize: nat, payload: nat)
    requires Targets(p, id, group, idSize + payload) && raw == before + rest + after
    ensures Agree(raw, BlockLog(p, |before|, rest), TargetRecords(p, rest, id, idSize), group, idSize, payload)
    decreases |rest|, 1
  {
    hide Agree, OffsetsOf, Gathered, Mine;
    AgreeNothing(raw, group, idSize, payload);
    if rest == [] || p(rest).None? { return; }
    var r, base := p(rest).value, |before|;
    if r.length > |rest| {
      AgreeStep(raw, r.group, base, [], [], [], group, idSize, payload);
      assert [(r.group, base)] + [] == [(r.group, base)];
      return;
    }
    var tail, records := BlockGathersLeft(p, raw, before, rest, after, r, id, group, idSize, payload);
    MineInStream(p, raw, before, rest, after, r, id, group, idSize, payload);
    AgreeStep(raw, r.group, base, tail, records, Mine(rest, r, id, idSize), group, idSize, payload);
  }

  lemma {:induction false} BlockGathersLeft(p: Recogniser, raw: seq<byte>, before: seq<byte>, rest: seq<byte>, after: seq<byte>,
                                            r: Found, id: nat, group: nat, idSize: nat, payload: nat)
    returns (tail: seq<(nat, nat)>, records: seq<byte>)
    requires Targets(p, id, group, idSize + payload) && raw == before + rest + after
    requires rest != [] && p(rest) == Some(r) && r.length <= |rest|
    ensures Agree(raw, tail, records, group, idSize, payload)
    ensures BlockLog(p, |before|, rest) == [(r.group, |before|)] + tail
    ensures TargetRecords(p, rest, id, idSize) == Mine(rest, r, id, idSize) + records
    decreases |rest|, 0
  {
    hide Agree, Targets, OffsetsOf, Gathered;
    var passed, left := before + rest[..r.length], rest[r.length..];
    assert |passed| == |before| + r.length;
    assert raw == passed + left + after by { assert rest == rest[..r.length] + left; }
    tail, records := BlockLog(p, |passed|, left), TargetRecords(p, left, id, idSize);
    BlockGathers(p, raw, passed, left, after, id, group, idSize, payload);
  }

  /** What the eager reader returns for a group: its records, block by block. */
  function EagerRecords(p: Recogniser, blocks: seq<seq<byte>>, id: nat, idSize: nat): seq<byte> {
    if blocks == [] then []
    else EagerRecords(p, blocks[..|blocks| - 1], id, idSize) + TargetRecords(p, blocks[|blocks| - 1], id, idSize)
  }

  lemma {:induction false} AgreeAppend(raw: seq<byte>, a: seq<(nat, nat)>, ra: seq<byte>, b: seq<(nat, nat)>, rb: seq<byte>,
                                       group: nat, idSize: nat, payload: nat)
    requires Agree(raw, a, ra, group, idSize, payload) && Agree(raw, b, rb, group, idSize, payload)
    ensures Agree(raw, a + b, ra + rb, group, idSize, payload)
  {
    OffsetsAppend(a, b, group);
    GatheredAppend(raw, OffsetsOf(a, group), OffsetsOf(b, group), idSize, payload);
  }

  /** Index then gather, over any blocks: exactly the group's records that lie inside a block. */
  lemma {:induction false} StreamGathers(p: Recogniser, blocks: seq<seq<byte>>, after: seq<byte>,
                                         id: nat, group: nat, idSize: nat, payload: nat)
    requires Targets(p, id, group, idSize + payload)
    ensures Agree(Flatten(blocks) + after, StreamLog(p, blocks), EagerRecords(p, blocks, id, idSize), group, idSize, payload)
  {
    if blocks != [] {
      var n := |blocks| - 1;
      var before, last := blocks[..n], blocks[n];
      var raw := Flatten(blocks) + after;
      assert raw == Flatten(before) + (last + after) && raw == Flatten(before) + last + after;
      StreamGathers(p, before, last + after, id, group, idSize, payload);
      BlockGathers(p, raw, Flatten(before), last, after, id, group, idSize, payload);
      AgreeAppend(raw, StreamLog(p, before), EagerRecords(p, before, id, idSize),
                  BlockLog(p, |Flatten(before)|, last), TargetRecords(p, last, id, idSize), group, idSize, payload);
    }
  }
}
