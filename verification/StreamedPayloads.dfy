/** Variable-length channels of an interleaved stream, read whole and by chunks. The payloads are records of a group of
    their own; a chunk looks its samples up among the payloads of its own window, an aligned window among all payloads of
    the stream so far, and a payload that is not found is an empty sample. */
module StreamedPayloads {
  import opened Arithmetic
  import opened Bytes
  import opened Options
  import opened DataBlocks
  import opened Demux
  import opened Payloads
  import opened Streaming
  import opened StreamingRefines
  import StreamingLosses

  /** The offset a record carries. */
  type Field = seq<byte> -> nat

  /** `variable_length_values` for one sample. */
  function SampleOf(found: Option<seq<byte>>): seq<byte> {
    if found.Some? then found.value else []
  }

  function Decoded(records: Payloads.Records, field: Field, table: Table): (samples: Payloads.Records)
    ensures |samples| == |records|
  {
    seq(|records|, i requires 0 <= i < |records| => SampleOf(Find(table, field(records[i]))))
  }

  lemma {:induction false} DecodedAppend(a: Payloads.Records, b: Payloads.Records, field: Field, table: Table)
    ensures Decoded(a + b, field, table) == Decoded(a, field, table) + Decoded(b, field, table)
  {
    hide Find, SampleOf;
  }

  // ---------------------------------------------------------------- samples chunk by chunk

  /** What the chunks give: each window's samples, looked up in that window's payloads. */
  ghost function ChunkSamples(turns: seq<Turn>, base: nat, field: Field): Payloads.Records {
    if turns == [] then []
    else Decoded(turns[0].records, field, Numbered(turns[0].payloads, base))
         + ChunkSamples(turns[1..], base + Stored(turns[0].payloads), field)
  }

  /** What the whole read gives for the same windows. */
  ghost function WholeSamples(turns: seq<Turn>, field: Field): Payloads.Records {
    Decoded(RecordsOf(turns), field, Numbered(PayloadsOf(turns), 0))
  }

  /** Each record of the windows finds its payload in its own window, unless it has none or an empty one: the offset lies
      in the range of the payloads the window brings. `lo` is where that range begins for the first window. */
  ghost predicate InOwnWindow(turns: seq<Turn>, lo: nat, field: Field, table: Table) {
    turns == [] ||
    var hi := lo + Stored(turns[0].payloads);
    && (forall r :: r in turns[0].records ==> lo <= field(r) < hi || SampleOf(Find(table, field(r))) == [])
    && InOwnWindow(turns[1..], hi, field, table)
  }

  lemma {:induction false} OneWindow(a: Payloads.Records, own: Payloads.Records, c: Payloads.Records, records: Payloads.Records, field: Field)
    ensures var table, lo := Numbered(a + own + c, 0), Stored(a);
      Decoded(records, field, Numbered(own, lo)) == Decoded(records, field, table)
      <==> forall r :: r in records ==> lo <= field(r) < lo + Stored(own) || SampleOf(Find(table, field(r))) == []
  {
    hide Find, Numbered, Stored;
    var table, lo := Numbered(a + own + c, 0), Stored(a);
    var x, y := Decoded(records, field, Numbered(own, lo)), Decoded(records, field, table);
    forall i | 0 <= i < |records|
      ensures x[i] == y[i] <==> lo <= field(records[i]) < lo + Stored(own) || SampleOf(Find(table, field(records[i]))) == []
    {
      PartKnows(a, own, c, field(records[i]));
    }
    if x == y {
      forall r | r in records ensures lo <= field(r) < lo + Stored(own) || SampleOf(Find(table, field(r))) == [] {
        var i :| 0 <= i < |records| && records[i] == r;
        assert x[i] == y[i];
      }
    }
  }

  lemma {:induction false} SplitSame(a: Payloads.Records, b: Payloads.Records, x: Payloads.Records, y: Payloads.Records)
    requires |a| == |x|
    ensures a + b == x + y <==> a == x && b == y
  {
    if a + b == x + y {
      assert a == (a + b)[..|a|] && x == (x + y)[..|a|];
      assert b == (a + b)[|a|..] && y == (x + y)[|a|..];
    }
  }

  /** The first window and the rest. */
  lemma {:induction false} FirstWindow(turns: seq<Turn>, lo: nat, field: Field, table: Table)
    requires turns != []
    ensures var own, later, hi := turns[0].payloads, turns[1..], lo + Stored(turns[0].payloads);
      && ChunkSamples(turns, lo, field) == Decoded(turns[0].records, field, Numbered(own, lo)) + ChunkSamples(later, hi, field)
      && RecordsOf(turns) == turns[0].records + RecordsOf(later) && PayloadsOf(turns) == own + PayloadsOf(later)
      && (InOwnWindow(turns, lo, field, table) <==>
            && (forall r :: r in turns[0].records ==> lo <= field(r) < hi || SampleOf(Find(table, field(r))) == [])
            && InOwnWindow(later, hi, field, table))
  {
    hide Find, Numbered, Stored, SampleOf, Decoded;
  }

  lemma {:induction false} NoWindow(lo: nat, field: Field, table: Table)
    ensures ChunkSamples([], lo, field) == [] && Decoded(RecordsOf([]), field, table) == [] && InOwnWindow([], lo, field, table)
    ensures |RecordsOf([])| == 0
  {
  }

  lemma {:induction false} ChunksFrom(a: Payloads.Records, turns: seq<Turn>, field: Field, table: Table)
    requires table == Numbered(a + PayloadsOf(turns), 0)
    ensures ChunkSamples(turns, Stored(a), field) == Decoded(RecordsOf(turns), field, table) <==> InOwnWindow(turns, Stored(a), field, table)
    ensures |ChunkSamples(turns, Stored(a), field)| == |RecordsOf(turns)|
    decreases |turns|
  {
    hide Find, Numbered, Stored, SampleOf, ChunkSamples, RecordsOf, PayloadsOf, InOwnWindow, Decoded;
    if turns == [] {
      NoWindow(Stored(a), field, table);
    } else {
      var own, later := turns[0].payloads, turns[1..];
      FirstWindow(turns, Stored(a), field, table);
      assert a + PayloadsOf(turns) == a + own + PayloadsOf(later);
      ChunksFrom(a + own, later, field, table);
      StoredAppend(a, own);
      OneWindow(a, own, PayloadsOf(later), turns[0].records, field);
      DecodedAppend(turns[0].records, RecordsOf(later), field, table);
      SplitSame(Decoded(turns[0].records, field, Numbered(own, Stored(a))), ChunkSamples(later, Stored(a + own), field),
                Decoded(turns[0].records, field, table), Decoded(RecordsOf(later), field, table));
    }
  }

  /** The chunks give the samples of the whole read exactly when every record has its payload in its own window, or has
      none to show. */
  lemma {:induction false} ChunksAreWholeExactly(turns: seq<Turn>, field: Field)
    ensures ChunkSamples(turns, 0, field) == WholeSamples(turns, field)
       <==> InOwnWindow(turns, 0, field, Numbered(PayloadsOf(turns), 0))
  {
    hide Find, Numbered, ChunkSamples, InOwnWindow, RecordsOf, PayloadsOf, Decoded;
    assert [] + PayloadsOf(turns) == PayloadsOf(turns);
    NoneNumbered(0);
    ChunksFrom([], turns, field, Numbered(PayloadsOf(turns), 0));
  }

  // ---------------------------------------------------------------- samples in aligned windows

  /** Looking up among the payloads of the first `n` windows only: whatever begins later is missing. */
  lemma {:induction false} EarlierWindowsKnow(turns: seq<Turn>, n: nat, offset: nat)
    requires n <= |turns|
    ensures Find(Numbered(PayloadsOf(turns[..n]), 0), offset)
         == if offset < Stored(PayloadsOf(turns[..n])) then Find(Numbered(PayloadsOf(turns), 0), offset) else None
  {
    hide Find, Numbered, Stored, PayloadsOf;
    var a, b := PayloadsOf(turns[..n]), PayloadsOf(turns[n..]);
    assert turns == turns[..n] + turns[n..];
    TurnsAppend(turns[..n], turns[n..]);
    NoneNumbered(0);
    assert [] + a + b == a + b;
    PartKnows([], a, b, offset);
  }

  /** No record refers to a payload of a window behind its own, unless it has none or an empty one to show. */
  ghost predicate NotLater(turns: seq<Turn>, lo: nat, field: Field, table: Table) {
    turns == [] ||
    var hi := lo + Stored(turns[0].payloads);
    && (forall r :: r in turns[0].records ==> field(r) < hi || SampleOf(Find(table, field(r))) == [])
    && NotLater(turns[1..], hi, field, table)
  }

  lemma {:induction false} OwnIsNotLater(turns: seq<Turn>, lo: nat, field: Field, table: Table)
    requires InOwnWindow(turns, lo, field, table)
    ensures NotLater(turns, lo, field, table)
    decreases |turns|
  {
    hide Find, Stored, SampleOf;
    if turns != [] { OwnIsNotLater(turns[1..], lo + Stored(turns[0].payloads), field, table); }
  }

  lemma {:induction false} NotLaterAt(turns: seq<Turn>, lo: nat, field: Field, table: Table, n: nat, r: seq<byte>)
    requires NotLater(turns, lo, field, table) && n <= |turns| && r in RecordsOf(turns[..n])
    ensures field(r) < lo + Stored(PayloadsOf(turns[..n])) || SampleOf(Find(table, field(r))) == []
    decreases n
  {
    hide Find, SampleOf, Stored;
    if n != 0 {
      var first, later := turns[0], turns[1..];
      var hi := lo + Stored(first.payloads);
      assert turns[..n][1..] == later[..n - 1] && turns[..n][0] == first;
      StoredAppend(first.payloads, PayloadsOf(later[..n - 1]));
      if r in first.records {
      } else {
        NotLaterAt(later, hi, field, table, n - 1, r);
      }
    }
  }

  /** Where no payload comes behind the window of its record, an aligned window shows what the whole read shows, whenever
      it is handed out. */
  lemma {:induction false} AlignedIsWhole(turns: seq<Turn>, field: Field, n: nat, records: Payloads.Records)
    requires NotLater(turns, 0, field, Numbered(PayloadsOf(turns), 0)) && n <= |turns|
    requires forall r :: r in records ==> r in RecordsOf(turns[..n])
    ensures Decoded(records, field, Numbered(PayloadsOf(turns[..n]), 0)) == Decoded(records, field, Numbered(PayloadsOf(turns), 0))
  {
    hide Find, Numbered, Stored, PayloadsOf, NotLater, RecordsOf;
    var part, whole := Numbered(PayloadsOf(turns[..n]), 0), Numbered(PayloadsOf(turns), 0);
    forall i | 0 <= i < |records| ensures Decoded(records, field, part)[i] == Decoded(records, field, whole)[i] {
      assert records[i] in records;
      EarlierWindowsKnow(turns, n, field(records[i]));
      NotLaterAt(turns, 0, field, whole, n, records[i]);
    }
  }

  // ---------------------------------------------------------------- the whole read's payloads

  /** `id` names the records of group `group`, which carry their own length behind the ID, and nothing else does. */
  ghost predicate Carries(p: Recogniser, id: nat, group: nat, idSize: nat) {
    forall rest :: p(rest).Some? ==>
      && (p(rest).value.group == group <==> p(rest).value.id == id)
      && (p(rest).value.id == id ==>
            idSize + PREFIX <= |rest| && p(rest).value.length == idSize + PREFIX + FromLe(rest[idSize..idSize + PREFIX]))
  }

  /** No payload record runs past the end of the block. */
  predicate NoneOverruns(p: Recogniser, rest: seq<byte>, id: nat)
    decreases |rest|
  {
    rest == [] || p(rest).None? ||
    if p(rest).value.length > |rest| then p(rest).value.id != id
    else NoneOverruns(p, rest[p(rest).value.length..], id)
  }

  lemma {:induction false} RecordLocated(p: Recogniser, raw: seq<byte>, before: seq<byte>, rest: seq<byte>, after: seq<byte>,
                                         r: Found, id: nat, group: nat, idSize: nat)
    requires Carries(p, id, group, idSize) && raw == before + rest + after
    requires p(rest) == Some(r) && r.length <= |rest| && r.id == id
    ensures r.length >= idSize + PREFIX && PayloadAt(raw, |before|, idSize) == Some(rest[idSize + PREFIX..r.length])
  {
    hide FromLe;
    var at := |before| + idSize;
    assert raw[at..at + PREFIX] == rest[idSize..idSize + PREFIX];
    assert raw[at + PREFIX..|before| + r.length] == rest[idSize + PREFIX..r.length];
  }

  lemma {:induction false} LocatedCons(raw: seq<byte>, at: nat, offsets: seq<nat>, idSize: nat)
    requires PayloadAt(raw, at, idSize).Some?
    ensures LocatedAt(raw, [at] + offsets, idSize) == [PayloadAt(raw, at, idSize).value] + LocatedAt(raw, offsets, idSize)
  {
    hide FromLe;
    assert ([at] + offsets)[1..] == offsets;
  }

  lemma {:induction false} BlockLocated(p: Recogniser, raw: seq<byte>, before: seq<byte>, rest: seq<byte>, after: seq<byte>,
                                        id: nat, group: nat, idSize: nat, tail: seq<nat>)
    requires Carries(p, id, group, idSize) && raw == before + rest + after && NoneOverruns(p, rest, id)
    ensures LocatedAt(raw, OffsetsOf(BlockLog(p, |before|, rest), group) + tail, idSize)
         == TargetList(p, rest, id, idSize + PREFIX) + LocatedAt(raw, tail, idSize)
    decreases |rest|
  {
    hide LocatedAt, OffsetsOf, PayloadAt, Carries;
    NoOffsets(group);
    if rest == [] || p(rest).None? {
      assert [] + tail == tail && [] + LocatedAt(raw, tail, idSize) == LocatedAt(raw, tail, idSize);
      return;
    }
    var r, base := p(rest).value, |before|;
    OwnerIs(p, rest, r, id, group, idSize);
    if r.length > |rest| {
      assert BlockLog(p, base, rest) == [(r.group, base)] + [];
      OffsetsCons((r.group, base), [], group);
      assert [] + [] + tail == tail && [] + LocatedAt(raw, tail, idSize) == LocatedAt(raw, tail, idSize);
      return;
    }
    var passed, left := before + rest[..r.length], rest[r.length..];
    assert raw == passed + left + after by { assert rest == rest[..r.length] + left; }
    BlockLocated(p, raw, passed, left, after, id, group, idSize, tail);
    LocatedOneMore(p, raw, before, rest, after, r, id, group, idSize, tail);
  }

  lemma {:induction false} LocatedOneMore(p: Recogniser, raw: seq<byte>, before: seq<byte>, rest: seq<byte>, after: seq<byte>,
                                          r: Found, id: nat, group: nat, idSize: nat, tail: seq<nat>)
    requires Carries(p, id, group, idSize) && raw == before + rest + after
    requires rest != [] && p(rest) == Some(r) && r.length <= |rest|
    requires LocatedAt(raw, OffsetsOf(BlockLog(p, |before| + r.length, rest[r.length..]), group) + tail, idSize)
          == TargetList(p, rest[r.length..], id, idSize + PREFIX) + LocatedAt(raw, tail, idSize)
    ensures LocatedAt(raw, OffsetsOf(BlockLog(p, |before|, rest), group) + tail, idSize)
         == TargetList(p, rest, id, idSize + PREFIX) + LocatedAt(raw, tail, idSize)
  {
    hide LocatedAt, OffsetsOf, PayloadAt, Carries, BlockLog, TargetList;
    var base, left := |before|, rest[r.length..];
    var later := OffsetsOf(BlockLog(p, base + r.length, left), group);
    StreamingLosses.LogStep(p, base, rest, r, left);
    OffsetsCons((r.group, base), BlockLog(p, base + r.length, left), group);
    WalkStep(p, rest, r, left, id, idSize + PREFIX);
    OwnerIs(p, rest, r, id, group, idSize);
    if r.id == id {
      RecordLocated(p, raw, before, rest, after, r, id, group, idSize);
      LocatedCons(raw, base, later + tail, idSize);
      assert [base] + later + tail == [base] + (later + tail);
      Assoc([rest[idSize + PREFIX..r.length]], TargetList(p, left, id, idSize + PREFIX), LocatedAt(raw, tail, idSize));
    } else {
      assert [] + later + tail == later + tail;
      assert [] + TargetList(p, left, id, idSize + PREFIX) == TargetList(p, left, id, idSize + PREFIX);
    }
  }

  lemma {:induction false} OwnerIs(p: Recogniser, rest: seq<byte>, r: Found, id: nat, group: nat, idSize: nat)
    requires Carries(p, id, group, idSize) && p(rest) == Some(r)
    ensures r.group == group <==> r.id == id
    ensures r.id == id ==> r.length >= idSize + PREFIX
  {
  }

  lemma {:induction false} NoOffsets(group: nat)
    ensures OffsetsOf([], group) == []
  {
  }

  lemma {:induction false} OffsetsCons(first: (nat, nat), log: seq<(nat, nat)>, group: nat)
    ensures OffsetsOf([first] + log, group) == (if first.0 == group then [first.1] else []) + OffsetsOf(log, group)
  {
    OffsetsAppend([first], log, group);
    assert [first][..0] == [];
    assert OffsetsOf([first], group) == [] + if first.0 == group then [first.1] else [];
  }

  lemma {:induction false} EagerSnoc(p: Recogniser, parts: seq<seq<byte>>, id: nat, idSize: nat)
    requires parts != []
    ensures EagerList(p, parts, id, idSize)
         == EagerList(p, parts[..|parts| - 1], id, idSize) + TargetList(p, parts[|parts| - 1], id, idSize)
  {
    hide TargetList;
    if |parts| > 1 {
      var later := parts[1..];
      EagerSnoc(p, later, id, idSize);
      assert parts[..|parts| - 1][1..] == later[..|later| - 1] && parts[..|parts| - 1][0] == parts[0];
    } else {
      assert parts[1..] == [] && parts[..0] == [];
    }
  }

  /** Indexing the payload group's records and locating their payloads is picking them block by block. */
  lemma {:induction false} StreamLocated(p: Recogniser, parts: seq<seq<byte>>, after: seq<byte>, id: nat, group: nat, idSize: nat, tail: seq<nat>)
    requires Carries(p, id, group, idSize) && forall i :: 0 <= i < |parts| ==> NoneOverruns(p, parts[i], id)
    ensures LocatedAt(Flatten(parts) + after, OffsetsOf(StreamLog(p, parts), group) + tail, idSize)
         == EagerList(p, parts, id, idSize + PREFIX) + LocatedAt(Flatten(parts) + after, tail, idSize)
  {
    hide LocatedAt, OffsetsOf, Carries, NoneOverruns, TargetList, BlockLog;
    if parts == [] {
      NoOffsets(group);
      assert [] + tail == tail && [] + LocatedAt(Flatten(parts) + after, tail, idSize) == LocatedAt(Flatten(parts) + after, tail, idSize);
    } else {
      var n := |parts| - 1;
      var before, last := parts[..n], parts[n];
      var raw := Flatten(parts) + after;
      assert raw == Flatten(before) + (last + after) && raw == Flatten(before) + last + after;
      var here := OffsetsOf(BlockLog(p, |Flatten(before)|, last), group);
      StreamLocated(p, before, last + after, id, group, idSize, here + tail);
      BlockLocated(p, raw, Flatten(before), last, after, id, group, idSize, tail);
      OffsetsAppend(StreamLog(p, before), BlockLog(p, |Flatten(before)|, last), group);
      Assoc(OffsetsOf(StreamLog(p, before), group), here, tail);
      EagerSnoc(p, parts, id, idSize + PREFIX);
      Assoc(EagerList(p, before, id, idSize + PREFIX), TargetList(p, last, id, idSize + PREFIX), LocatedAt(raw, tail, idSize));
    }
  }

  lemma {:induction false} WholePayloads(p: Recogniser, parts: seq<seq<byte>>, id: nat, group: nat, idSize: nat)
    requires Carries(p, id, group, idSize) && forall i :: 0 <= i < |parts| ==> NoneOverruns(p, parts[i], id)
    ensures LocatedAt(Flatten(parts), OffsetsOf(StreamLog(p, parts), group), idSize) == EagerList(p, parts, id, idSize + PREFIX)
  {
    hide OffsetsOf, Carries, NoneOverruns, EagerList, StreamLog;
    StreamLocated(p, parts, [], id, group, idSize, []);
    assert Flatten(parts) + [] == Flatten(parts);
    var offsets := OffsetsOf(StreamLog(p, parts), group);
    assert offsets + [] == offsets;
    assert EagerList(p, parts, id, idSize + PREFIX) + [] == EagerList(p, parts, id, idSize + PREFIX);
  }

  // ---------------------------------------------------------------- the windows' payloads

  lemma {:induction false} TurnsSend(m: Mode, stride: nat, carry: seq<byte>, segments: seq<Segment>)
    requires m.Unsorted? && m.vlsd.Some? && AllReadable(segments)
    ensures PayloadsOf(Turns(m, stride, carry, segments))
         == Coming(Unsorted(m.recogniser, m.vlsd.value, m.idSize + PREFIX, None), stride, carry, segments)
    decreases |segments|
  {
    hide TargetList, Consumed, SegmentBytes;
    if segments != [] {
      var buffer := carry + SegmentBytes(segments[0]);
      var left := Carried(m, stride, buffer, segments[0].endsBlock);
      TurnsSend(m, stride, left, segments[1..]);
      NextTurn(m, stride, carry, segments);
      assert Turns(m, stride, carry, segments)[1..] == Turns(m, stride, left, segments[1..]);
      ComingStep(Unsorted(m.recogniser, m.vlsd.value, m.idSize + PREFIX, None), stride, carry, segments, left, segments[1..]);
    }
  }

  /** What the windows bring, when the blocks show all their bytes: the records and the payloads of the blocks. */
  lemma {:induction false} WindowsBringAll(m: Mode, stride: nat, blocks: seq<Block>)
    requires m.Unsorted? && m.vlsd.Some? && Stable(m.recogniser) && AllOpenable(blocks) && AllCovered(blocks)
    ensures RecordsOf(AllTurns(m, stride, blocks)) == EagerList(m.recogniser, PayloadList(blocks), m.id, m.idSize)
    ensures PayloadsOf(AllTurns(m, stride, blocks)) == EagerList(m.recogniser, PayloadList(blocks), m.vlsd.value, m.idSize + PREFIX)
  {
    hide EagerList, Turns, Coming, Openable, SegmentsOf, Stable, AllCovered;
    var sender := Unsorted(m.recogniser, m.vlsd.value, m.idSize + PREFIX, None);
    SegmentsReadable(blocks);
    CoveredShown(blocks);
    TurnsBringRecords(m, stride, [], SegmentsOf(blocks));
    TurnsSend(m, stride, [], SegmentsOf(blocks));
    InterleavedComing(m, stride, blocks);
    InterleavedComing(sender, stride, blocks);
  }

  // ---------------------------------------------------------------- reading the samples

  lemma {:induction false} RecordAt(list: Payloads.Records, stride: nat, i: nat, at: nat)
    requires Uniform(list, stride) && i < |list| && at == i * stride
    ensures at + stride <= |Flatten(list)| && Flatten(list)[at..at + stride] == list[i]
  {
    UniformPrefix(list, i, stride, at);
    UniformPrefix(list[i..], 1, stride, stride);
    assert list[i..][..1] == [list[i]];
    FlattenCons(list[i], []);
    assert list[i] + Flatten([]) == list[i];
    assert Flatten(list)[at..][..stride] == Flatten(list)[at..at + stride];
  }

  /** The loop of `variable_length_values`, with its hint, over the first `count` records of a dense buffer. */
  method DecodeSamples(records: seq<byte>, stride: nat, count: nat, field: Field, payloads: VlsdPayloads, ghost list: Payloads.Records)
    returns (samples: Payloads.Records)
    requires payloads.Valid() && Uniform(list, stride) && records == Flatten(list) && count <= |list|
    ensures samples == Decoded(list[..count], field, payloads.Entries())
  {
    hide Find, Flatten;
    samples := [];
    var hint, at := 0, 0;
    for i := 0 to count
      invariant at == i * stride
      invariant |samples| == i && forall j :: 0 <= j < i ==> samples[j] == SampleOf(Find(payloads.Entries(), field(list[j])))
    {
      RecordAt(list, stride, i, at);
      var found := payloads.GetFrom(field(records[at..at + stride]), hint);
      match found {
        case Some((payload, place)) =>
          samples := samples + [payload];
          hint := place + 1;
        case None => samples := samples + [[]];
      }
      at := at + stride;
    }
  }

  lemma {:induction false} ChunkSamplesAppend(a: seq<Turn>, b: seq<Turn>, lo: nat, field: Field)
    ensures ChunkSamples(a + b, lo, field) == ChunkSamples(a, lo, field) + ChunkSamples(b, lo + Stored(PayloadsOf(a)), field)
    decreases |a|
  {
    hide Find, Numbered, Stored, Decoded;
    if a == [] {
      assert a + b == b;
      NoneNumbered(0);
    } else {
      assert (a + b)[0] == a[0] && (a + b)[1..] == a[1..] + b;
      ChunkSamplesAppend(a[1..], b, lo + Stored(a[0].payloads), field);
      StoredAppend(a[0].payloads, PayloadsOf(a[1..]));
    }
  }

  lemma {:induction false} NoSamples(turns: seq<Turn>, lo: nat, field: Field)
    requires NoneBrings(turns)
    ensures ChunkSamples(turns, lo, field) == []
    decreases |turns|
  {
    hide Find, Numbered, Stored;
    if turns != [] { NoSamples(turns[1..], lo + Stored(turns[0].payloads), field); }
  }

  lemma {:induction false} ChunkCount(turns: seq<Turn>, lo: nat, field: Field)
    ensures |ChunkSamples(turns, lo, field)| == |RecordsOf(turns)|
    decreases |turns|
  {
    hide Find, Numbered, Stored;
    if turns != [] { ChunkCount(turns[1..], lo + Stored(turns[0].payloads), field); }
  }

  /** The samples of the windows passed until a chunk comes: that chunk's, looked up in its own payloads. */
  lemma {:induction false} PassedSamples(passed: seq<Turn>, lo: nat, field: Field)
    requires passed != [] && NoneBrings(passed[..|passed| - 1])
    ensures var before, turn := passed[..|passed| - 1], passed[|passed| - 1];
      ChunkSamples(passed, lo, field) == Decoded(turn.records, field, Numbered(turn.payloads, lo + Stored(PayloadsOf(before))))
  {
    hide Find, Numbered, Stored, Decoded;
    var before, turn := passed[..|passed| - 1], passed[|passed| - 1];
    assert passed == before + [turn];
    ChunkSamplesAppend(before, [turn], lo, field);
    NoSamples(before, lo, field);
    assert [turn][1..] == [];
    var own := Decoded(turn.records, field, Numbered(turn.payloads, lo + Stored(PayloadsOf(before))));
    assert ChunkSamples([turn], lo + Stored(PayloadsOf(before)), field) == own + [];
  }

  /** The iterator has passed `done` of all the windows, and these are the samples so far. */
  ghost predicate SamplesAt(chunks: SignalChunks, all: seq<Turn>, done: seq<Turn>, samples: Payloads.Records, count: nat, field: Field)
    reads chunks
  {
    && chunks.Valid() && chunks.mode.Unsorted? && chunks.mode.vlsd.Some?
    && all == done + chunks.PendingTurns() && chunks.payloadBase == Stored(PayloadsOf(done))
    && samples == FirstOf(ChunkSamples(done, 0, field), count)
    && chunks.remaining == count - |samples|
  }

  lemma {:induction false} FirstOfBoth(a: Payloads.Records, b: Payloads.Records, count: nat)
    ensures |FirstOf(a, count)| == Min(count, |a|)
    ensures |a| <= count ==> FirstOf(a + b, count) == a + b[..Min(count - |a|, |b|)]
    ensures |a| >= count ==> FirstOf(a + b, count) == FirstOf(a, count)
    ensures FirstOf(a + [], count) == FirstOf(a, count)
    ensures |a| <= count ==> FirstOf(a, count) == a
  {
    assert a + [] == a;
  }

  lemma {:induction false} FrontUniform(all: Payloads.Records, front: Payloads.Records, rest: Payloads.Records, stride: nat)
    requires Uniform(all, stride) && all == front + rest
    ensures Uniform(front, stride)
  {
    forall k | 0 <= k < |front| ensures |front[k]| == stride { assert all[k] == front[k]; }
  }

  /** One turn of a consumer's loop. */
  method NextSamples(chunks: SignalChunks, field: Field, samples: Payloads.Records, ghost all: seq<Turn>, ghost done: seq<Turn>, ghost count: nat)
    returns (samples': Payloads.Records, more: bool, ghost done': seq<Turn>)
    requires SamplesAt(chunks, all, done, samples, count, field) && chunks.remaining > 0
    modifies chunks
    ensures SamplesAt(chunks, all, done', samples', count, field)
    ensures more ==> chunks.remaining < old(chunks.remaining)
    ensures !more ==> samples' == samples && chunks.PendingTurns() == []
  {
    hide ValidMode, Coming, Turns, Flatten, Find, Numbered, Stored, Decoded, PayloadsOf, ChunkSamples, FirstOf, NoneBrings;
    ghost var lo, pending := chunks.payloadBase, chunks.Pending();
    ComingUniform(chunks.mode, chunks.stride, chunks.carry, chunks.segments);
    var chunk, taken, passed := chunks.Next();
    done' := done + passed;
    Assoc(done, passed, chunks.PendingTurns());
    TurnsAppend(done, passed);
    StoredAppend(PayloadsOf(done), PayloadsOf(passed));
    ChunkSamplesAppend(done, passed, 0, field);
    ghost var before := ChunkSamples(done, 0, field);
    match chunk
    case None =>
      NoSamples(passed, lo, field);
      FirstOfBoth(before, [], count);
      samples', more := samples, false;
    case Some(c) =>
      PassedSamples(passed, lo, field);
      FrontUniform(pending, taken, chunks.Pending(), chunks.stride);
      var own := DecodeSamples(c.records, chunks.stride, c.count, field, c.payloads.value, taken);
      FirstOfBoth(before, ChunkSamples(passed, lo, field), count);
      FirstOfBoth(before + ChunkSamples(passed, lo, field), [], count);
      DecodedFirst(taken, field, c.payloads.value.Entries(), c.count);
      samples', more := samples + own, true;
  }

  lemma {:induction false} DecodedFirst(records: Payloads.Records, field: Field, table: Table, n: nat)
    requires n <= |records|
    ensures Decoded(records[..n], field, table) == Decoded(records, field, table)[..n]
  {
    hide Find;
  }

  /** A variable-length channel through `SignalChunks`: the samples of its chunks, up to `count`. */
  method ReadByChunks(mode: Mode, stride: nat, blocks: seq<Block>, count: nat, field: Field) returns (samples: Payloads.Records)
    requires mode.Unsorted? && mode.vlsd.Some? && ValidMode(mode, stride) && AllOpenable(blocks)
    ensures samples == FirstOf(ChunkSamples(AllTurns(mode, stride, blocks), 0, field), count)
  {
    hide ValidMode, Coming, Turns, Find, Numbered, Stored, Decoded, PayloadsOf, ChunkSamples, AllOpenable;
    var chunks := new SignalChunks(mode, stride, blocks, count);
    ghost var all, done := chunks.PendingTurns(), [];
    samples := [];
    NothingRead(field);
    assert [] + chunks.PendingTurns() == chunks.PendingTurns();
    while chunks.remaining > 0
      invariant fresh(chunks) && SamplesAt(chunks, all, done, samples, count, field)
      decreases chunks.remaining
    {
      var more;
      samples, more, done := NextSamples(chunks, field, samples, all, done, count);
      if !more { break; }
    }
    ChunkSamplesAppend(done, chunks.PendingTurns(), 0, field);
    if chunks.remaining > 0 {
      assert done + [] == done;
    } else {
      FirstOfBoth(ChunkSamples(done, 0, field), ChunkSamples(chunks.PendingTurns(), Stored(PayloadsOf(done)), field), count);
    }
  }

  lemma {:induction false} NothingRead(field: Field)
    ensures ChunkSamples([], 0, field) == [] && Stored(PayloadsOf([])) == 0
  {
  }

  // ---------------------------------------------------------------- both readers over one file

  /** The mode of group `g` when its channel's payloads are the records of group `v`. */
  function VlsdMode(groups: seq<GroupInfo>, idSize: nat, g: nat, v: nat): Mode
    requires g < |groups| && v < |groups|
  {
    Unsorted(RecogniserFor(RecordMap(groups), idSize), groups[g].recordId, idSize, Some(groups[v].recordId))
  }

  /** Group `g` has records of one size, and group `v` records that carry their own length. */
  predicate Companions(groups: seq<GroupInfo>, g: nat, v: nat) {
    && g < |groups| && !groups[g].isVlsd && groups[g].payloadSize > 0
    && v < |groups| && groups[v].isVlsd
  }

  lemma {:induction false} GroupCarries(groups: seq<GroupInfo>, idSize: nat, v: nat)
    requires DistinctIds(groups) && v < |groups| && groups[v].isVlsd
    ensures Carries(RecogniserFor(RecordMap(groups), idSize), groups[v].recordId, v, idSize)
  {
    hide FromLe;
    var p := RecogniserFor(RecordMap(groups), idSize);
    MapHolds(groups, v);
    forall rest | p(rest).Some?
      ensures (p(rest).value.group == v <==> p(rest).value.id == groups[v].recordId)
      ensures p(rest).value.id == groups[v].recordId ==>
        idSize + PREFIX <= |rest| && p(rest).value.length == idSize + PREFIX + FromLe(rest[idSize..idSize + PREFIX])
    {
      OwnersInRange(groups, p(rest).value.id);
    }
  }

  lemma {:induction false} VlsdModeValid(groups: seq<GroupInfo>, idSize: nat, g: nat, v: nat)
    requires DistinctIds(groups) && Companions(groups, g, v)
    ensures ValidMode(VlsdMode(groups, idSize, g, v), groups[g].payloadSize)
  {
    hide FromLe, Stable;
    GroupTargets(groups, idSize, g);
    GroupCarries(groups, idSize, v);
    ReaderStable(RecordMap(groups), idSize);
  }

  /** No payload record of group `v` runs past the end of its block. */
  ghost predicate PayloadsWhole(groups: seq<GroupInfo>, idSize: nat, v: nat, blocks: seq<Block>)
    requires v < |groups| && AllOpenable(blocks)
  {
    forall i :: 0 <= i < |blocks| ==>
      NoneOverruns(RecogniserFor(RecordMap(groups), idSize), PayloadList(blocks)[i], groups[v].recordId)
  }

  /** What the whole read has to do with the windows. */
  lemma {:induction false} WholeIsWindows(groups: seq<GroupInfo>, idSize: nat, g: nat, v: nat, blocks: seq<Block>)
    requires DistinctIds(groups) && Companions(groups, g, v)
    requires AllOpenable(blocks) && AllCovered(blocks) && PayloadsWhole(groups, idSize, v, blocks)
    ensures var m, parts := VlsdMode(groups, idSize, g, v), PayloadList(blocks);
      var turns, log := AllTurns(m, groups[g].payloadSize, blocks), StreamLog(m.recogniser, parts);
      && LocatedAt(Flatten(parts), OffsetsOf(log, v), idSize) == PayloadsOf(turns)
      && Gathered(Flatten(parts), OffsetsOf(log, g), idSize, groups[g].payloadSize) == Flatten(RecordsOf(turns))
      && |OffsetsOf(log, g)| == |RecordsOf(turns)| && Uniform(RecordsOf(turns), groups[g].payloadSize)
  {
    hide Stable, Targets, Carries, EagerList, RecordsOf, PayloadsOf, Uniform, DistinctIds, RecordMap, Sized, Flatten;
    hide AllTurns, AllCovered, AllOpenable, NoneOverruns, StreamLog, OffsetsOf, LocatedAt, Gathered;
    var m, payload, parts := VlsdMode(groups, idSize, g, v), groups[g].payloadSize, PayloadList(blocks);
    GroupCarries(groups, idSize, v);
    GroupTargets(groups, idSize, g);
    ReaderStable(RecordMap(groups), idSize);
    WindowsBringAll(m, payload, blocks);
    WholePayloads(m.recogniser, parts, m.vlsd.value, v, idSize);
    GatherCounts(m.recogniser, parts, m.id, g, idSize, payload);
    VlsdModeValid(groups, idSize, g, v);
    EagerUniform(m.recogniser, parts, m.id, idSize, payload);
    UniformCount(RecordsOf(AllTurns(m, payload, blocks)), payload);
    SameCount(|RecordsOf(AllTurns(m, payload, blocks))|, |OffsetsOf(StreamLog(m.recogniser, parts), g)|, payload);
  }

  lemma {:induction false} UniformCount(records: Payloads.Records, stride: nat)
    requires Uniform(records, stride) && stride > 0
    ensures |Flatten(records)| == |records| * stride && |Flatten(records)| / stride == |records|
  {
    UniformTotal(records, stride);
    DivUnique(|Flatten(records)|, stride, |records|, 0);
  }

  /** A variable-length channel read both ways: whole, with the payloads found by the index of their own group; and by
      chunks up to the indexed count. The two give the same samples exactly when every record has its payload in its own
      window, or has none to show. */
  method ReadBothWays(groups: seq<GroupInfo>, idSize: nat, g: nat, v: nat, blocks: seq<Block>, field: Field)
    returns (whole: Payloads.Records, chunked: Payloads.Records)
    requires DistinctIds(groups) && Companions(groups, g, v)
    requires AllOpenable(blocks) && AllCovered(blocks) && PayloadsWhole(groups, idSize, v, blocks)
    ensures var turns := AllTurns(VlsdMode(groups, idSize, g, v), groups[g].payloadSize, blocks);
      && whole == WholeSamples(turns, field)
      && (chunked == whole <==> InOwnWindow(turns, 0, field, Numbered(PayloadsOf(turns), 0)))
  {
    hide Stable, Sized, Find, Numbered, Stored, Decoded, RecordsOf, PayloadsOf, ChunkSamples, InOwnWindow, AllTurns, AllCovered, AllOpenable,
         PayloadsWhole, StreamLog, OffsetsOf, LocatedAt, Gathered, Flatten, DistinctIds, RecordMap, Uniform;
    var m, payload := VlsdMode(groups, idSize, g, v), groups[g].payloadSize;
    ghost var turns := AllTurns(m, payload, blocks);
    WholeIsWindows(groups, idSize, g, v, blocks);
    VlsdModeValid(groups, idSize, g, v);
    var parts := StreamingLosses.ReadPayloads(blocks);
    var index, seed := IndexRecords(groups, idSize, parts, true);
    var records, count := GatherRecords(seed.value, index[g], idSize, payload);
    UniformCount(RecordsOf(turns), payload);
    var payloads := FromRecords(seed.value, index[v], idSize);
    whole := DecodeSamples(records, payload, count, field, payloads, RecordsOf(turns));
    assert RecordsOf(turns)[..count] == RecordsOf(turns);
    chunked := ReadByChunks(m, payload, blocks, count, field);
    ChunkCount(turns, 0, field);
    FirstOfBoth(ChunkSamples(turns, 0, field), [], count);
    ChunksAreWholeExactly(turns, field);
  }

  // ---------------------------------------------------------------- aligned windows

  ghost function WholeTable(turns: seq<Turn>): Table {
    Numbered(PayloadsOf(turns), 0)
  }

  /** The aligned iterator has given some of the records, and these are their samples. */
  ghost predicate AlignedAt(chunks: SignalsChunks, all: seq<Turn>, samples: Payloads.Records, count: nat, field: Field)
    reads chunks, if chunks.current.Some? then {chunks.current.value} else {}
  {
    && chunks.Valid() && chunks.mode.Unsorted? && chunks.mode.vlsd.Some? && chunks.chunkSize > 0
    && all == chunks.passed + chunks.PendingTurns()
    && (NotLater(all, 0, field, WholeTable(all)) ==> samples == Decoded(chunks.given, field, WholeTable(all)))
    && chunks.remaining + |chunks.given| == count
    && RecordsOf(all) == chunks.given + chunks.Pending()
  }

  lemma {:induction false} GivenFirst(given: Payloads.Records, rest: Payloads.Records, count: nat)
    requires |given| == count || (|given| <= count && rest == [])
    ensures FirstOf(given + rest, count) == given
  {
    if rest == [] { assert given + rest == given; }
  }

  /** An aligned window's samples, looked up among the payloads of the windows read so far. */
  lemma {:induction false} TakenAligned(all: seq<Turn>, passed: seq<Turn>, later: seq<Turn>, given: Payloads.Records, taken: Payloads.Records,
                                        buffered: Payloads.Records, field: Field)
    requires all == passed + later && RecordsOf(passed) == given + taken + buffered
    ensures NotLater(all, 0, field, WholeTable(all)) ==>
      Decoded(taken, field, Numbered(PayloadsOf(passed), 0)) == Decoded(taken, field, WholeTable(all))
  {
    hide NotLater, Find, Numbered, PayloadsOf, RecordsOf, Decoded;
    assert all[..|passed|] == passed;
    if NotLater(all, 0, field, WholeTable(all)) {
      forall r | r in taken ensures r in RecordsOf(all[..|passed|]) {
        assert r in given + taken + buffered;
      }
      AlignedIsWhole(all, field, |passed|, taken);
    }
  }

  /** One turn of a consumer's loop. */
  method NextAlignedSamples(chunks: SignalsChunks, field: Field, samples: Payloads.Records, ghost all: seq<Turn>, ghost count: nat)
    returns (samples': Payloads.Records, more: bool)
    requires AlignedAt(chunks, all, samples, count, field) && chunks.remaining > 0
    modifies chunks
    ensures AlignedAt(chunks, all, samples', count, field)
    ensures more ==> chunks.remaining < old(chunks.remaining)
    ensures !more ==> samples' == samples && chunks.Pending() == []
  {
    hide ValidMode, Coming, Turns, Find, Numbered, Stored, Decoded, PayloadsOf, NotLater, RecordsOf, Flatten, Uniform, WholeTable;
    ghost var given, pending := chunks.given, chunks.Pending();
    PendingUniform(chunks);
    var window, taken := chunks.Next();
    Assoc(given, taken, chunks.Pending());
    match window
    case None =>
      assert given + [] == given;
      samples', more := samples, false;
    case Some(w) =>
      FrontUniform(pending, taken, chunks.Pending(), chunks.stride);
      UniformCount(taken, chunks.stride);
      PassedSome(chunks.passed, given, taken, chunks.buffered);
      var own := DecodeSamples(w.records, chunks.stride, |w.records| / chunks.stride, field, w.payloads.value, taken);
      assert taken[..|taken|] == taken;
      TakenAligned(all, chunks.passed, chunks.PendingTurns(), given, taken, chunks.buffered, field);
      DecodedAppend(given, taken, field, WholeTable(all));
      samples', more := samples + own, true;
  }

  lemma {:induction false} PassedSome(passed: seq<Turn>, given: Payloads.Records, taken: Payloads.Records, buffered: Payloads.Records)
    requires RecordsOf(passed) == given + taken + buffered && taken != []
    ensures passed != []
  {
    assert |given + taken + buffered| > 0;
  }

  lemma {:induction false} PendingUniform(chunks: SignalsChunks)
    requires chunks.Valid()
    ensures Uniform(chunks.Pending(), chunks.stride) && chunks.stride > 0
  {
    ComingUniform(chunks.mode, chunks.stride, chunks.carry, chunks.segments);
  }

  /** A variable-length channel through `SignalsChunks`: where no payload comes behind the window of its record, these are
      the samples of the whole read, whatever the size of the windows. */
  method ReadAligned(mode: Mode, stride: nat, chunkSize: nat, blocks: seq<Block>, count: nat, field: Field) returns (samples: Payloads.Records)
    requires mode.Unsorted? && mode.vlsd.Some? && ValidMode(mode, stride) && AllOpenable(blocks) && chunkSize > 0
    ensures var turns := AllTurns(mode, stride, blocks);
      NotLater(turns, 0, field, WholeTable(turns)) ==> samples == Decoded(FirstOf(RecordsOf(turns), count), field, WholeTable(turns))
  {
    hide ValidMode, Coming, Turns, Find, Decoded, PayloadsOf, NotLater, RecordsOf, AllOpenable, FirstOf, WholeTable;
    var chunks := new SignalsChunks(mode, stride, chunkSize, blocks, count);
    ghost var all := chunks.PendingTurns();
    samples := [];
    AtFirst(mode, stride, blocks, field, WholeTable(all));
    assert [] + chunks.PendingTurns() == chunks.PendingTurns() && [] + chunks.Pending() == chunks.Pending();
    while chunks.remaining > 0
      invariant fresh(chunks) && AlignedAt(chunks, all, samples, count, field)
      decreases chunks.remaining
    {
      var more;
      samples, more := NextAlignedSamples(chunks, field, samples, all, count);
      if !more { break; }
    }
    GivenFirst(chunks.given, chunks.Pending(), count);
  }

  lemma {:induction false} AtFirst(mode: Mode, stride: nat, blocks: seq<Block>, field: Field, table: Table)
    requires ValidMode(mode, stride) && AllOpenable(blocks)
    ensures RecordsOf(AllTurns(mode, stride, blocks)) == AllRecords(mode, stride, blocks)
    ensures Decoded([], field, table) == []
  {
    hide Turns, Coming, ValidMode;
    SegmentsReadable(blocks);
    TurnsBringRecords(mode, stride, [], SegmentsOf(blocks));
  }

  // ---------------------------------------------------------------- inputs that fail

  /** Group 0 has one-byte records with ID 1, group 1 their payloads with ID 2. */
  function TwoGroups(): seq<GroupInfo> {
    [GroupInfo(1, 1, false), GroupInfo(2, 0, true)]
  }

  const PAYLOAD_BLOCK: seq<byte> := [2, 1, 0, 0, 0, 7]
  const RECORD_BLOCK: seq<byte> := [1, 0]

  function PlainBlock(bytes: seq<byte>): (b: Block)
    ensures Openable(b) && Payload(b) == Ok(bytes)
  {
    Block(Piece(bytes, |bytes|, false), None, 0, 0)
  }

  function FirstByte(): Field {
    (r: seq<byte>) => if r == [] then 0 else r[0]
  }

  function SmallMode(): Mode {
    VlsdMode(TwoGroups(), 1, 0, 1)
  }

  lemma {:induction false} SmallMap()
    ensures RecordMap(TwoGroups()) == map[1 := Entry(0, 1, false), 2 := Entry(1, 0, true)]
  {
    var groups := TwoGroups();
    assert groups[..1] == [GroupInfo(1, 1, false)] && groups[..1][..0] == [];
    assert RecordMap(groups[..1][..0]) == map[];
    assert RecordMap(groups[..1]) == map[1 := Entry(0, 1, false)];
  }

  lemma {:induction false} OneByte(s: seq<byte>)
    requires s != []
    ensures ReadRecordId(s, 1) == Some(s[0] as nat)
  {
    assert s[..1] == [s[0]] && FromLe(s[..1][1..]) == 0;
  }

  lemma {:induction false} OneAsLe()
    ensures FromLe([1, 0, 0, 0]) == 1
  {
    var s: seq<byte> := [1, 0, 0, 0];
    assert s[1..] == [0, 0, 0] && s[1..][1..] == [0, 0] && s[1..][1..][1..] == [0] && s[1..][1..][1..][1..] == [];
    assert FromLe(s[1..][1..][1..]) == 0;
    assert FromLe(s[1..][1..]) == 0;
    assert FromLe(s[1..]) == 0;
  }

  lemma {:induction false} Recognised()
    ensures SmallMode().recogniser(PAYLOAD_BLOCK) == Some(Found(2, 1, 6))
    ensures SmallMode().recogniser(RECORD_BLOCK) == Some(Found(1, 0, 2))
  {
    hide FromLe;
    SmallMap();
    OneByte(PAYLOAD_BLOCK);
    OneByte(RECORD_BLOCK);
    OneAsLe();
    assert PAYLOAD_BLOCK[1..5] == [1, 0, 0, 0];
  }

  lemma {:induction false} WholeBlock(p: Recogniser, s: seq<byte>, r: Found, id: nat, idSize: nat)
    requires s != [] && p(s) == Some(r) && r.length == |s| && idSize <= |s|
    ensures TargetList(p, s, id, idSize) == if r.id == id then [s[idSize..]] else []
  {
    assert s[r.length..] == [] && TargetList(p, [], id, idSize) == [];
    WalkStep(p, s, r, [], id, idSize);
    assert s[idSize..r.length] == s[idSize..];
  }

  function PayloadTurn(): Turn {
    Turn([], [[7]])
  }

  function RecordTurn(): Turn {
    Turn([[0]], [])
  }

  lemma {:induction false} SmallTurns()
    ensures Turn(Taken(SmallMode(), 1, PAYLOAD_BLOCK), Sent(SmallMode(), 1, PAYLOAD_BLOCK)) == PayloadTurn()
    ensures Turn(Taken(SmallMode(), 1, RECORD_BLOCK), Sent(SmallMode(), 1, RECORD_BLOCK)) == RecordTurn()
  {
    Recognised();
    var p := SmallMode().recogniser;
    WholeBlock(p, PAYLOAD_BLOCK, Found(2, 1, 6), 1, 1);
    WholeBlock(p, PAYLOAD_BLOCK, Found(2, 1, 6), 2, 5);
    WholeBlock(p, RECORD_BLOCK, Found(1, 0, 2), 1, 1);
    TooShort(p);
    assert PAYLOAD_BLOCK[5..] == [7] && RECORD_BLOCK[1..] == [0];
  }

  lemma {:induction false} TooShort(p: Recogniser)
    requires p(RECORD_BLOCK) == Some(Found(1, 0, 2))
    ensures TargetList(p, RECORD_BLOCK, 2, 5) == []
  {
    assert RECORD_BLOCK[2..] == [] && TargetList(p, [], 2, 5) == [];
    WalkStep(p, RECORD_BLOCK, Found(1, 0, 2), [], 2, 5);
  }

  lemma {:induction false} OneWindowEach(m: Mode, a: seq<byte>, b: seq<byte>)
    requires m.Unsorted? && 0 < |a| <= CHUNK_BUDGET && 0 < |b| <= CHUNK_BUDGET
    ensures AllOpenable([PlainBlock(a), PlainBlock(b)])
    ensures AllTurns(m, 1, [PlainBlock(a), PlainBlock(b)]) == [Turn(Taken(m, 1, a), Sent(m, 1, a)), Turn(Taken(m, 1, b), Sent(m, 1, b))]
  {
    hide Taken, Sent, Payload, Openable;
    var blocks := [PlainBlock(a), PlainBlock(b)];
    var sa, sb := Segment(blocks[0], 0, |a|, true), Segment(blocks[1], 0, |b|, true);
    NoSegments();
    SegmentsCons(blocks);
    assert blocks[1..] == [blocks[1]] && blocks[1..][1..] == [];
    SegmentsCons(blocks[1..]);
    assert SegmentsOf(blocks) == [sa, sb];
    SegmentsReadable(blocks);
    assert [sa, sb][1..] == [sb] && [sb][1..] == [];
    assert SegmentBytes(sa) == a && SegmentBytes(sb) == b && [] + a == a && [] + b == b;
    NextTurn(m, 1, [], [sa, sb]);
    NextTurn(m, 1, [], [sb]);
  }

  /** Nothing is wrong with such a file. */
  lemma {:induction false} SmallIsSound(a: seq<byte>, b: seq<byte>)
    requires (a == PAYLOAD_BLOCK && b == RECORD_BLOCK) || (a == RECORD_BLOCK && b == PAYLOAD_BLOCK)
    ensures DistinctIds(TwoGroups()) && Companions(TwoGroups(), 0, 1)
    ensures var blocks := [PlainBlock(a), PlainBlock(b)];
      AllOpenable(blocks) && AllCovered(blocks) && PayloadsWhole(TwoGroups(), 1, 1, blocks)
  {
    hide Openable;
    Recognised();
    var blocks, p := [PlainBlock(a), PlainBlock(b)], SmallMode().recogniser;
    assert PAYLOAD_BLOCK[6..] == [] && RECORD_BLOCK[2..] == [];
    assert NoneOverruns(p, PAYLOAD_BLOCK, 2) && NoneOverruns(p, RECORD_BLOCK, 2);
    assert PayloadList(blocks)[0] == a && PayloadList(blocks)[1] == b;
  }

  /** A payload in one block and the record that refers to it in the next: the whole read has it, and the chunks give an
      empty sample for it. */
  lemma {:induction false} PayloadBeforeIsMissed()
    ensures var blocks := [PlainBlock(PAYLOAD_BLOCK), PlainBlock(RECORD_BLOCK)];
      && AllOpenable(blocks) && AllCovered(blocks) && PayloadsWhole(TwoGroups(), 1, 1, blocks)
      && WholeSamples(AllTurns(SmallMode(), 1, blocks), FirstByte()) == [[7]]
      && ChunkSamples(AllTurns(SmallMode(), 1, blocks), 0, FirstByte()) == [[]]
  {
    hide Taken, Sent;
    SmallIsSound(PAYLOAD_BLOCK, RECORD_BLOCK);
    OneWindowEach(SmallMode(), PAYLOAD_BLOCK, RECORD_BLOCK);
    SmallTurns();
    SamplesOfTwo();
  }

  lemma {:induction false} SamplesOfTwo()
    ensures WholeSamples([PayloadTurn(), RecordTurn()], FirstByte()) == [[7]]
    ensures ChunkSamples([PayloadTurn(), RecordTurn()], 0, FirstByte()) == [[]]
    ensures Decoded([[0]], FirstByte(), Numbered(PayloadsOf([RecordTurn()]), 0)) == [[]]
    ensures WholeSamples([RecordTurn(), PayloadTurn()], FirstByte()) == [[7]]
  {
    hide Stored, Numbered, Find, PayloadsOf, RecordsOf;
    var a, b := PayloadTurn(), RecordTurn();
    BothTurns();
    OneFiled();
    assert [a, b][1..] == [b] && [b][1..] == [];
    assert ChunkSamples([b], 5, FirstByte()) == Decoded([[0]], FirstByte(), Numbered([], 5)) + ChunkSamples([], 5, FirstByte());
    assert ChunkSamples([a, b], 0, FirstByte()) == [] + ChunkSamples([b], 5, FirstByte());
  }

  lemma {:induction false} BothTurns()
    ensures var a, b := PayloadTurn(), RecordTurn();
      && PayloadsOf([b]) == [] && RecordsOf([b]) == [[0]]
      && PayloadsOf([a, b]) == PayloadsOf([b, a]) == [[7]] && RecordsOf([a, b]) == RecordsOf([b, a]) == [[0]]
  {
    var a, b := PayloadTurn(), RecordTurn();
    assert [a, b][1..] == [b] && [b][1..] == [] && [b, a][1..] == [a] && [a][1..] == [];
    assert PayloadsOf([b]) == [] + PayloadsOf([]) && RecordsOf([b]) == [[0]] + RecordsOf([]);
    assert PayloadsOf([a]) == [[7]] + PayloadsOf([]) && RecordsOf([a]) == [] + RecordsOf([]);
  }

  lemma {:induction false} OneFiled()
    ensures Stored([[7]]) == 5 && Numbered([[7]], 0) == [(0, [7])] && Find(Numbered([[7]], 0), 0) == Some([7])
    ensures Numbered([], 5) == [] && Numbered([], 0) == [] && Find([], 0) == None
  {
    var one: Payloads.Records := [[7]];
    assert one[..0] == [] && Stored([]) == 0 && Numbered([], 0) == [];
  }

  /** The record first and its payload in the next block: an aligned window of the record alone, handed out before that
      block is read, has an empty sample too. */
  lemma {:induction false} PayloadBehindIsMissed()
    ensures var blocks := [PlainBlock(RECORD_BLOCK), PlainBlock(PAYLOAD_BLOCK)];
      && AllOpenable(blocks)
      && var turns := AllTurns(SmallMode(), 1, blocks);
      && |turns| == 2 && RecordsOf(turns[..1]) == [[0]] && WholeSamples(turns, FirstByte()) == [[7]]
      && Decoded([[0]], FirstByte(), Numbered(PayloadsOf(turns[..1]), 0)) == [[]]
  {
    hide Taken, Sent;
    OneWindowEach(SmallMode(), RECORD_BLOCK, PAYLOAD_BLOCK);
    SmallTurns();
    SamplesOfTwo();
    assert [RecordTurn(), PayloadTurn()][..1] == [RecordTurn()] && [RecordTurn()][1..] == [];
    assert RecordsOf([RecordTurn()]) == [[0]] + RecordsOf([]);
  }
}
