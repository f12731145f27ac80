/** Streaming refines the whole read: the chunks of either iterator put together are the eager reader's records. */
module StreamingRefines {
  import opened Arithmetic
  import opened Bytes
  import opened Options
  import opened DataBlocks
  import opened Demux
  import opened Streaming
  import Payloads

  // ---------------------------------------------------------------- aligned windows of several channels

  /** The first `n` records of a dense buffer are its first `n * stride` bytes. */
  lemma {:induction false} UniformPrefix(records: Records, n: nat, stride: nat, at: nat)
    requires n <= |records| && Uniform(records, stride) && at == n * stride
    ensures at <= |Flatten(records)|
    ensures Flatten(records)[..at] == Flatten(records[..n])
    ensures Flatten(records)[at..] == Flatten(records[n..]) && Uniform(records[n..], stride)
  {
    FlattenAppend(records[..n], records[n..]);
    assert records == records[..n] + records[n..];
    UniformTotal(records[..n], stride);
  }

  lemma {:induction false} SplitBefore(records: Records, n: nat, future: Records)
    requires n <= |records|
    ensures records + future == records[..n] + (records[n..] + future)
  {
    assert records == records[..n] + records[n..];
    Assoc(records[..n], records[n..], future);
  }

  lemma {:induction false} FlattenAppend(a: Records, b: Records)
    ensures Flatten(a + b) == Flatten(a) + Flatten(b)
  {
    if b == [] {
      assert a + b == a;
    } else {
      var n := |b| - 1;
      assert (a + b)[..|a + b| - 1] == a + b[..n];
      FlattenAppend(a, b[..n]);
      Assoc(Flatten(a), Flatten(b[..n]), b[n]);
    }
  }

  /** A window of every channel's samples, and the payloads to look a variable-length channel's up in. */
  datatype Aligned = Aligned(records: seq<byte>, payloads: Option<Payloads.VlsdPayloads>)

  /** Several channels of one group, `chunkSize` samples at a time (`SignalsChunks`). */
  class SignalsChunks {
    const mode: Mode
    const stride: nat
    const chunkSize: nat
    var segments: seq<Segment>
    var carry: seq<byte>
    var recordBuffer: seq<byte>
    var remaining: nat
    var sampleOffset: nat
    var payloadItems: Records
    var current: Option<Payloads.VlsdPayloads>
    ghost var buffered: Records
    ghost var passed: seq<Turn>
    ghost var given: Records

    ghost predicate Valid()
      reads this, if current.Some? then {current.value} else {}
    {
      && ValidMode(mode, stride) && AllReadable(segments)
      && recordBuffer == Flatten(buffered) && Uniform(buffered, stride)
      && RecordsOf(passed) == given + buffered
      && Indexed()
    }

    /** The payloads of all the windows read so far, numbered from zero. */
    ghost predicate Indexed()
      reads this, if current.Some? then {current.value} else {}
    {
      && payloadItems == PayloadsOf(passed)
      && (current.Some? ==> current.value.Valid() && current.value.Entries() == Payloads.Numbered(payloadItems, 0))
      && (current.Some? <==> VlsdOf(mode).Some? && passed != [])
    }

    ghost function Pending(): Records
      requires Valid()
      reads this, if current.Some? then {current.value} else {}
    {
      buffered + Coming(mode, stride, carry, segments)
    }

    ghost function PendingTurns(): seq<Turn>
      requires Valid()
      reads this, if current.Some? then {current.value} else {}
    {
      Turns(mode, stride, carry, segments)
    }

    constructor (mode: Mode, stride: nat, chunkSize: nat, blocks: seq<Block>, count: nat)
      requires ValidMode(mode, stride) && AllOpenable(blocks)
      ensures Valid() && remaining == count && sampleOffset == 0 && passed == [] && given == []
      ensures this.mode == mode && this.stride == stride && this.chunkSize == chunkSize
      ensures Pending() == AllRecords(mode, stride, blocks) && PendingTurns() == AllTurns(mode, stride, blocks)
    {
      this.mode, this.stride, this.chunkSize := mode, stride, chunkSize;
      var cut := CutSegments(blocks);
      SegmentsReadable(blocks);
      segments, carry, recordBuffer, remaining, sampleOffset, buffered := cut, [], [], count, 0, [];
      payloadItems, current, passed, given := [], None, [], [];
      new;
      assert [] + Coming(mode, stride, [], segments) == Coming(mode, stride, [], segments);
    }

    /** Reads one window into the buffer, and files its payloads behind those of the windows before it. */
    method ReadWindow()
      requires Valid() && segments != []
      modifies this`segments, this`carry, this`recordBuffer, this`payloadItems, this`current, this`buffered, this`passed
      ensures Valid() && Pending() == old(Pending()) && |segments| < old(|segments|)
      ensures old(passed) <= passed && passed + PendingTurns() == old(passed + PendingTurns())
    {
      hide ValidMode, Taken, Sent, Carried, Coming, Range, Payload, Window, Flatten, Turns, Payloads.Numbered, Payloads.Stored,
           RecordsOf, PayloadsOf, Uniform, AllReadable;
      var segment := segments[0];
      SegmentsLeft(segments);
      RangeIsWindow(segment.block, segment.start, segment.len);
      var buffer := carry + Range(segment.block, segment.start, segment.len).value;
      var records, whole, sent, rest := TakeRecords(mode, stride, buffer, segment.endsBlock);
      ghost var turn := Turn(Taken(mode, stride, buffer), sent);
      TakenUniform(mode, stride, buffer);
      UniformBoth(buffered, turn.records, stride);
      WindowBrings(mode, stride, carry, segments, turn);
      Assoc(buffered, turn.records, Coming(mode, stride, rest, segments[1..]));
      FlattenAppend(buffered, turn.records);
      OneMoreTurn(passed, turn);
      Assoc(given, buffered, turn.records);
      Assoc(passed, [turn], Turns(mode, stride, rest, segments[1..]));
      carry, segments := rest, segments[1..];
      NothingSent(mode, stride, buffer);
      FilePayloads(sent);
      if whole != 0 {
        recordBuffer := recordBuffer + records;
      } else {
        assert turn.records == [] && recordBuffer + [] == recordBuffer;
        NothingFlat();
      }
      buffered, passed := buffered + turn.records, passed + [turn];
    }

    method FilePayloads(sent: Records)
      requires VlsdOf(mode).None? ==> sent == []
      modifies this`payloadItems, this`current
      ensures payloadItems == old(payloadItems) + sent
      ensures VlsdOf(mode).Some? ==>
        && current.Some? && fresh(current.value) && current.value.Valid()
        && current.value.Entries() == Payloads.Numbered(payloadItems, 0)
      ensures VlsdOf(mode).None? ==> current == old(current)
    {
      hide Payloads.Numbered, Payloads.Stored;
      if VlsdOf(mode).Some? {
        payloadItems := payloadItems + sent;
        var index, next := Payloads.FromLocated(payloadItems, 0);
        current := Some(index);
      }
    }

    /** Reads windows until the buffer holds `target` samples or the stream ends. */
    method Fill(target: nat)
      requires Valid()
      modifies this`segments, this`carry, this`recordBuffer, this`payloadItems, this`current, this`buffered, this`passed
      ensures Valid() && Pending() == old(Pending())
      ensures old(passed) <= passed && passed + PendingTurns() == old(passed + PendingTurns())
      ensures |buffered| >= target || segments == []
    {
      hide ValidMode, Coming, Turns, Indexed, RecordsOf;
      BufferCount();
      while |recordBuffer| < target * stride
        invariant Valid() && Pending() == old(Pending())
        invariant old(passed) <= passed && passed + PendingTurns() == old(passed + PendingTurns())
        invariant |recordBuffer| == |buffered| * stride
        decreases |segments|
      {
        if segments == [] { return; }
        ReadWindow();
        BufferCount();
      }
      if |buffered| < target { MulLess(|buffered|, target, stride); }
    }

    lemma {:induction false} BufferCount()
      requires Valid()
      ensures |recordBuffer| == |buffered| * stride && |recordBuffer| / stride == |buffered| && stride > 0
    {
      UniformTotal(buffered, stride);
      DivUnique(|recordBuffer|, stride, |buffered|, 0);
    }

    /** Takes `count` samples off the front of the buffer. */
    method Drain(count: nat) returns (records: seq<byte>, ghost taken: Records)
      requires Valid() && count <= |buffered|
      modifies this`recordBuffer, this`buffered, this`given
      ensures Valid() && old(Pending()) == taken + Pending() && PendingTurns() == old(PendingTurns())
      ensures |taken| == count && records == Flatten(taken) && given == old(given) + taken
    {
      hide ValidMode, Coming, Turns, RecordsOf, Flatten;
      var takeBytes := count * stride;
      UniformPrefix(buffered, count, stride, takeBytes);
      SplitBefore(buffered, count, Coming(mode, stride, carry, segments));
      SplitBefore(buffered, count, []);
      taken := buffered[..count];
      assert given + buffered == given + taken + buffered[count..] by { assert buffered == taken + buffered[count..]; }
      records := recordBuffer[..takeBytes];
      recordBuffer := recordBuffer[takeBytes..];
      buffered := buffered[count..];
      given := given + taken;
    }

    lemma {:induction false} PendingCount(target: nat)
      requires Valid() && (|buffered| >= target || segments == [])
      ensures Min(|buffered|, target) == Min(target, |Pending()|)
    {
    }

    /** The next window: `chunkSize` samples, or as many as there still are. The payloads are those of all the windows of
        the stream read so far. */
    method Next() returns (window: Option<Aligned>, ghost taken: Records)
      requires Valid()
      modifies this
      ensures Valid() && old(Pending()) == taken + Pending()
      ensures |taken| == Min(Min(chunkSize, old(remaining)), |old(Pending())|)
      ensures remaining == old(remaining) - |taken| && sampleOffset == old(sampleOffset) + |taken|
      ensures given == old(given) + taken
      ensures old(passed) <= passed && passed + PendingTurns() == old(passed + PendingTurns())
      ensures window == if taken == [] then None else Some(Aligned(Flatten(taken), current))
    {
      hide ValidMode, Coming, Turns, PayloadsOf, Payloads.Numbered, RecordsOf, Flatten, Uniform;
      taken, window := [], None;
      assert [] + Pending() == Pending();
      if remaining == 0 || chunkSize == 0 { return; }
      var target := Min(chunkSize, remaining);
      Fill(target);
      BufferCount();
      PendingCount(target);
      var available := |recordBuffer| / stride;
      if available == 0 { return; }
      var count := Min(available, target);
      var records;
      records, taken := Drain(count);
      window := Some(Aligned(records, current));
      remaining := remaining - count;
      sampleOffset := sampleOffset + count;
    }
  }

  lemma {:induction false} WindowBrings(m: Mode, stride: nat, carry: seq<byte>, segments: seq<Segment>, turn: Turn)
    requires segments != [] && AllReadable(segments)
    requires var buffer := carry + SegmentBytes(segments[0]); turn == Turn(Taken(m, stride, buffer), Sent(m, stride, buffer))
    ensures AllReadable(segments[1..])
    ensures var left := Carried(m, stride, carry + SegmentBytes(segments[0]), segments[0].endsBlock);
      && Coming(m, stride, carry, segments) == turn.records + Coming(m, stride, left, segments[1..])
      && Turns(m, stride, carry, segments) == [turn] + Turns(m, stride, left, segments[1..])
  {
    hide Taken, Sent, Carried, SegmentBytes;
    NextWindow(m, stride, carry, segments);
    NextTurn(m, stride, carry, segments);
  }

  lemma {:induction false} SegmentsLeft(segments: seq<Segment>)
    requires segments != [] && AllReadable(segments)
    ensures Openable(segments[0].block) && AllReadable(segments[1..])
  {
  }

  lemma {:induction false} UniformBoth(a: Records, b: Records, stride: nat)
    requires Uniform(a, stride) && forall k :: 0 <= k < |b| ==> |b[k]| == stride
    ensures Uniform(a + b, stride)
  {
  }

  lemma {:induction false} NothingSent(m: Mode, stride: nat, buffer: seq<byte>)
    ensures VlsdOf(m).None? ==> Sent(m, stride, buffer) == []
  {
  }

  // ---------------------------------------------------------------- what the whole read gives

  ghost function PayloadList(blocks: seq<Block>): (parts: seq<seq<byte>>)
    requires AllOpenable(blocks)
    ensures |parts| == |blocks|
  {
    seq(|blocks|, i requires 0 <= i < |blocks| => Payload(blocks[i]).value)
  }

  ghost predicate AllCovered(blocks: seq<Block>) {
    forall i :: 0 <= i < |blocks| ==> SizeCovers(blocks[i])
  }

  /** The target's records, block by block. */
  ghost function EagerList(p: Recogniser, parts: seq<seq<byte>>, id: nat, idSize: nat): Records {
    if parts == [] then [] else TargetList(p, parts[0], id, idSize) + EagerList(p, parts[1..], id, idSize)
  }

  lemma {:induction false} TargetsFlatten(p: Recogniser, rest: seq<byte>, id: nat, idSize: nat)
    ensures Flatten(TargetList(p, rest, id, idSize)) == TargetRecords(p, rest, id, idSize)
    decreases |rest|
  {
    if rest != [] && p(rest).Some? && p(rest).value.length <= |rest| {
      var r := p(rest).value;
      var own, tail := Own(rest, r, id, idSize), TargetList(p, rest[r.length..], id, idSize);
      TargetsFlatten(p, rest[r.length..], id, idSize);
      FlattenAppend(own, tail);
      if own != [] { assert Flatten(own) == Flatten(own[..0]) + own[0]; }
      assert Flatten(own) == Mine(rest, r, id, idSize);
    }
  }

  lemma {:induction false} EagerCons(p: Recogniser, first: seq<byte>, rest: seq<seq<byte>>, id: nat, idSize: nat)
    ensures EagerRecords(p, [first] + rest, id, idSize) == TargetRecords(p, first, id, idSize) + EagerRecords(p, rest, id, idSize)
  {
    var all := [first] + rest;
    if rest == [] {
      assert all[..0] == rest;
    } else {
      var n := |rest| - 1;
      EagerCons(p, first, rest[..n], id, idSize);
      assert all[..|all| - 1] == [first] + rest[..n] && all[|all| - 1] == rest[n];
      Assoc(TargetRecords(p, first, id, idSize), EagerRecords(p, rest[..n], id, idSize), TargetRecords(p, rest[n], id, idSize));
    }
  }

  lemma {:induction false} EagerFlattens(p: Recogniser, parts: seq<seq<byte>>, id: nat, idSize: nat)
    ensures Flatten(EagerList(p, parts, id, idSize)) == EagerRecords(p, parts, id, idSize)
  {
    hide TargetList, TargetRecords;
    if parts != [] {
      EagerFlattens(p, parts[1..], id, idSize);
      TargetsFlatten(p, parts[0], id, idSize);
      FlattenAppend(TargetList(p, parts[0], id, idSize), EagerList(p, parts[1..], id, idSize));
      EagerCons(p, parts[0], parts[1..], id, idSize);
      assert parts == [parts[0]] + parts[1..];
    }
  }

  lemma {:induction false} NoSegments()
    ensures SegmentsOf([]) == []
  {
  }

  /** What the windows of a block show: its payload up to the size the index holds. */
  ghost function Shown(b: Block): seq<byte>
    requires Openable(b)
  {
    Window(Payload(b).value, 0, if b.main.originalSize == 0 then 1 else b.main.originalSize)
  }

  ghost function ShownList(blocks: seq<Block>): (parts: seq<seq<byte>>)
    requires AllOpenable(blocks)
    ensures |parts| == |blocks|
  {
    seq(|blocks|, i requires 0 <= i < |blocks| => Shown(blocks[i]))
  }

  /** A block shows a part of its payload, and all of it exactly when its size covers it. */
  lemma {:induction false} ShownIsPrefix(b: Block)
    requires Openable(b)
    ensures |Shown(b)| <= |Payload(b).value| && Shown(b) == Payload(b).value[..|Shown(b)|]
    ensures |Shown(b)| == |Payload(b).value| <==> SizeCovers(b)
  {
  }

  lemma {:induction false} CoveredShown(blocks: seq<Block>)
    requires AllOpenable(blocks) && AllCovered(blocks)
    ensures ShownList(blocks) == PayloadList(blocks)
  {
    hide Openable, SizeCovers, Shown, Payload;
    forall i | 0 <= i < |blocks| ensures ShownList(blocks)[i] == PayloadList(blocks)[i] {
      ShownIsPrefix(blocks[i]);
    }
  }

  lemma {:induction false} OneBlockStreams(m: Mode, stride: nat, b: Block, rest: seq<Segment>)
    requires m.Unsorted? && Stable(m.recogniser) && Openable(b) && AllReadable(rest)
    ensures AllReadable(BlockSegments(b) + rest)
    ensures Coming(m, stride, [], BlockSegments(b) + rest)
         == TargetList(m.recogniser, Shown(b), m.id, m.idSize) + Coming(m, stride, [], rest)
  {
    BlockSeen(b);
    BlockInWindows(m, stride, [], BlockSegments(b), rest);
    assert [] + Seen(BlockSegments(b)) == Shown(b);
  }

  lemma {:induction false} InterleavedComing(m: Mode, stride: nat, blocks: seq<Block>)
    requires m.Unsorted? && Stable(m.recogniser) && AllOpenable(blocks)
    ensures AllReadable(SegmentsOf(blocks))
    ensures Coming(m, stride, [], SegmentsOf(blocks)) == EagerList(m.recogniser, ShownList(blocks), m.id, m.idSize)
  {
    hide Taken, TargetList, SegmentsOf, Openable, Stable, Shown;
    SegmentsReadable(blocks);
    if blocks != [] {
      var b, others := blocks[0], blocks[1..];
      InterleavedComing(m, stride, others);
      SegmentsCons(blocks);
      OneBlockStreams(m, stride, b, SegmentsOf(others));
      assert ShownList(blocks)[1..] == ShownList(others);
    } else {
      NoSegments();
    }
  }

  /** Interleaved stream, any blocks: chunks give the records of what each block shows, one block after another. */
  lemma {:induction false} InterleavedStreams(m: Mode, stride: nat, blocks: seq<Block>)
    requires m.Unsorted? && ValidMode(m, stride) && AllOpenable(blocks)
    ensures AllRecords(m, stride, blocks) == EagerList(m.recogniser, ShownList(blocks), m.id, m.idSize)
    ensures AllCovered(blocks) ==> AllRecords(m, stride, blocks) == EagerList(m.recogniser, PayloadList(blocks), m.id, m.idSize)
  {
    hide SegmentsOf, Openable, Stable, Shown, AllCovered, Coming, EagerList;
    InterleavedComing(m, stride, blocks);
    if AllCovered(blocks) { CoveredShown(blocks); }
  }

  // ---------------------------------------------------------------- the records no window shows

  /** The target's records in a block that do not lie in what it shows: those from where the walk of that stops. */
  ghost function Lost(m: Mode, b: Block): Records
    requires m.Unsorted? && Openable(b)
  {
    ShownIsPrefix(b);
    TargetList(m.recogniser, Payload(b).value[ConsumedOf(m, b)..], m.id, m.idSize)
  }

  /** How far whole records reach in what a block shows. */
  ghost function ConsumedOf(m: Mode, b: Block): (n: nat)
    requires m.Unsorted? && Openable(b)
    ensures n <= |Payload(b).value|
  {
    ShownIsPrefix(b);
    Consumed(m.recogniser, Shown(b))
  }

  ghost function LostCount(m: Mode, blocks: seq<Block>): nat
    requires m.Unsorted? && AllOpenable(blocks)
  {
    if blocks == [] then 0 else |Lost(m, blocks[0])| + LostCount(m, blocks[1..])
  }

  /** No record of the target ends past the size its block declares. */
  ghost predicate NothingLost(m: Mode, blocks: seq<Block>)
    requires m.Unsorted? && AllOpenable(blocks)
  {
    forall i :: 0 <= i < |blocks| ==> Lost(m, blocks[i]) == []
  }

  lemma {:induction false} ShownThenLost(m: Mode, stride: nat, b: Block)
    requires m.Unsorted? && ValidMode(m, stride) && Openable(b)
    ensures TargetList(m.recogniser, Payload(b).value, m.id, m.idSize)
         == TargetList(m.recogniser, Shown(b), m.id, m.idSize) + Lost(m, b)
  {
    hide Shown, TargetList, Consumed, Payload;
    ShownIsPrefix(b);
    var shown, payload := Shown(b), Payload(b).value;
    assert payload == shown + payload[|shown|..];
    WalkInPieces(m.recogniser, shown, payload[|shown|..], m.id, m.idSize);
    assert shown[Consumed(m.recogniser, shown)..] + payload[|shown|..] == payload[Consumed(m.recogniser, shown)..];
  }

  lemma {:induction false} LostAreMissing(m: Mode, stride: nat, blocks: seq<Block>)
    requires m.Unsorted? && ValidMode(m, stride) && AllOpenable(blocks)
    ensures |EagerList(m.recogniser, PayloadList(blocks), m.id, m.idSize)|
         == |EagerList(m.recogniser, ShownList(blocks), m.id, m.idSize)| + LostCount(m, blocks)
    ensures LostCount(m, blocks) == 0 <==> NothingLost(m, blocks)
    ensures NothingLost(m, blocks) ==>
      EagerList(m.recogniser, PayloadList(blocks), m.id, m.idSize) == EagerList(m.recogniser, ShownList(blocks), m.id, m.idSize)
  {
    hide TargetList, Openable, ValidMode, Shown, Lost;
    if blocks != [] {
      var b, others := blocks[0], blocks[1..];
      ShownThenLost(m, stride, b);
      LostAreMissing(m, stride, others);
      assert PayloadList(blocks)[1..] == PayloadList(others) && ShownList(blocks)[1..] == ShownList(others);
      assert NothingLost(m, blocks) <==> Lost(m, b) == [] && NothingLost(m, others) by {
        if NothingLost(m, blocks) {
          forall i | 0 <= i < |others| ensures Lost(m, others[i]) == [] { assert Lost(m, blocks[i + 1]) == []; }
        }
      }
    }
  }

  /** Interleaved stream, any blocks: chunks give every record of the target exactly when none ends past the size its
      block declares; and they are short by as many as do. */
  lemma {:induction false} InterleavedStreamsExactly(m: Mode, stride: nat, blocks: seq<Block>)
    requires m.Unsorted? && ValidMode(m, stride) && AllOpenable(blocks)
    ensures |EagerList(m.recogniser, PayloadList(blocks), m.id, m.idSize)| == |AllRecords(m, stride, blocks)| + LostCount(m, blocks)
    ensures AllRecords(m, stride, blocks) == EagerList(m.recogniser, PayloadList(blocks), m.id, m.idSize) <==> NothingLost(m, blocks)
  {
    hide EagerList, AllRecords, ValidMode, AllOpenable, NothingLost;
    InterleavedStreams(m, stride, blocks);
    LostAreMissing(m, stride, blocks);
  }

  lemma {:induction false} CoveredLosesNothing(m: Mode, stride: nat, blocks: seq<Block>)
    requires m.Unsorted? && ValidMode(m, stride) && AllOpenable(blocks) && AllCovered(blocks)
    ensures NothingLost(m, blocks)
  {
    hide EagerList, AllRecords, ValidMode, AllOpenable, NothingLost, AllCovered;
    InterleavedStreams(m, stride, blocks);
    InterleavedStreamsExactly(m, stride, blocks);
  }

  // ---------------------------------------------------------------- fixed-stride streams

  lemma {:induction false} SeenAppend(a: seq<Segment>, b: seq<Segment>)
    requires AllReadable(a) && AllReadable(b)
    ensures AllReadable(a + b) && Seen(a + b) == Seen(a) + Seen(b)
  {
    if a == [] {
      assert a + b == b && [] + Seen(b) == Seen(b);
    } else {
      SeenAppend(a[1..], b);
      assert (a + b)[1..] == a[1..] + b;
      Assoc(SegmentBytes(a[0]), Seen(a[1..]), Seen(b));
    }
  }

  lemma {:induction false} NothingShown()
    ensures SegmentsOf([]) == [] && Seen([]) == [] && Flatten(ShownList([])) == []
  {
    NoSegments();
  }

  lemma {:induction false} BlockShows(b: Block)
    requires Openable(b)
    ensures AllReadable(BlockSegments(b)) && Seen(BlockSegments(b)) == Shown(b)
  {
    BlockSeen(b);
  }

  lemma {:induction false} SeesWhatIsShown(blocks: seq<Block>)
    requires AllOpenable(blocks)
    ensures AllReadable(SegmentsOf(blocks)) && Seen(SegmentsOf(blocks)) == Flatten(ShownList(blocks))
  {
    hide Shown, Seen, SegmentBytes, SegmentsOf, Openable, BlockSegments, Flatten;
    SegmentsReadable(blocks);
    if blocks == [] {
      NothingShown();
    } else {
      var b, others := blocks[0], blocks[1..];
      SeesWhatIsShown(others);
      SegmentsCons(blocks);
      BlockShows(b);
      SeenAppend(BlockSegments(b), SegmentsOf(others));
      assert ShownList(blocks) == [Shown(b)] + ShownList(others);
      FlattenCons(Shown(b), ShownList(others));
    }
  }

  /** Fixed-stride stream, any blocks: chunks give the whole records of what the blocks show, joined together. */
  lemma {:induction false} SortedStreams(stride: nat, blocks: seq<Block>)
    requires stride > 0 && AllOpenable(blocks)
    ensures ValidMode(Sorted, stride)
    ensures AllRecords(Sorted, stride, blocks) == TargetList(Fixed(stride), Flatten(ShownList(blocks)), 0, 0)
    ensures AllCovered(blocks) ==>
      AllRecords(Sorted, stride, blocks) == TargetList(Fixed(stride), Flatten(PayloadList(blocks)), 0, 0)
  {
    hide AllCovered, Shown;
    SeesWhatIsShown(blocks);
    SortedInWindows(Sorted, stride, [], SegmentsOf(blocks));
    assert [] + Seen(SegmentsOf(blocks)) == Seen(SegmentsOf(blocks));
    if AllCovered(blocks) { CoveredShown(blocks); }
  }

  lemma {:induction false} ShownIsShorter(blocks: seq<Block>)
    requires AllOpenable(blocks)
    ensures |Flatten(ShownList(blocks))| <= |Flatten(PayloadList(blocks))|
    ensures |Flatten(ShownList(blocks))| == |Flatten(PayloadList(blocks))| <==> AllCovered(blocks)
  {
    hide Shown, SizeCovers, Payload;
    if blocks != [] {
      var b, others := blocks[0], blocks[1..];
      ShownIsShorter(others);
      ShownIsPrefix(b);
      assert ShownList(blocks) == [Shown(b)] + ShownList(others);
      assert PayloadList(blocks) == [Payload(b).value] + PayloadList(others);
      FlattenCons(Shown(b), ShownList(others));
      FlattenCons(Payload(b).value, PayloadList(others));
      assert AllCovered(blocks) <==> SizeCovers(b) && AllCovered(others) by {
        if AllCovered(blocks) {
          forall i | 0 <= i < |others| ensures SizeCovers(others[i]) { assert SizeCovers(blocks[i + 1]); }
        }
      }
    }
  }

  /** The whole records of a stream come unchanged at the front of what is shown of it. */
  ghost predicate RecordsShown(stride: nat, whole: seq<byte>, shown: seq<byte>)
    requires stride > 0
  {
    var end := |whole| / stride * stride;
    end <= |shown| && (WholePart(|whole|, stride); shown[..end] == whole[..end])
  }

  lemma {:induction false} WholePart(n: nat, size: nat)
    requires size > 0
    ensures n / size * size <= n
  {
    assert n == n / size * size + n % size;
  }

  lemma {:induction false} SameFlat(a: Records, b: Records, stride: nat)
    requires stride > 0 && Uniform(a, stride) && Uniform(b, stride) && Flatten(a) == Flatten(b)
    ensures a == b
  {
    UniformTotal(a, stride);
    UniformTotal(b, stride);
    SameCount(|a|, |b|, stride);
    if a != [] {
      var n := |a| - 1;
      assert Flatten(a)[|Flatten(a[..n])|..] == a[n] && Flatten(b)[|Flatten(b[..n])|..] == b[n];
      UniformTotal(a[..n], stride);
      UniformTotal(b[..n], stride);
      assert Flatten(a[..n]) == Flatten(a)[..n * stride] && Flatten(b[..n]) == Flatten(b)[..n * stride];
      SameFlat(a[..n], b[..n], stride);
      assert a == a[..n] + [a[n]] && b == b[..n] + [b[n]];
    }
  }

  /** Fixed-stride records of a stream and of what is shown of it. */
  lemma {:induction false} FixedSameExactly(stride: nat, whole: seq<byte>, shown: seq<byte>)
    requires stride > 0 && |shown| <= |whole|
    ensures TargetList(Fixed(stride), shown, 0, 0) == TargetList(Fixed(stride), whole, 0, 0) <==> RecordsShown(stride, whole, shown)
  {
    hide TargetList, Fixed, Flatten;
    var a, b := TargetList(Fixed(stride), shown, 0, 0), TargetList(Fixed(stride), whole, 0, 0);
    FixedWalk(stride, shown);
    FixedWalk(stride, whole);
    WholePart(|whole|, stride);
    WholePart(|shown|, stride);
    if RecordsShown(stride, whole, shown) {
      NoFewer(|shown|, |whole|, stride);
      FixedUniform(stride, shown);
      FixedUniform(stride, whole);
      SameFlat(a, b, stride);
    }
  }

  lemma {:induction false} FixedUniform(stride: nat, s: seq<byte>)
    requires stride > 0
    ensures Uniform(TargetList(Fixed(stride), s, 0, 0), stride)
  {
    hide TargetList;
    ListUniform(Fixed(stride), s, 0, 0, stride);
  }

  lemma {:induction false} NoFewer(n: nat, m: nat, size: nat)
    requires size > 0 && m / size * size <= n <= m
    ensures n / size == m / size
  {
    var k := m / size;
    assert m == k * size + m % size;
    DivUnique(n, size, k, n - k * size);
  }

  /** Fixed-stride stream, over any blocks: chunks give its records exactly when its whole records come unchanged at the
      front of what the blocks show. For a stream without a partial record at its end that is when every block's size
      covers its payload; otherwise they are fewer. */
  lemma {:induction false} SortedStreamsExactly(stride: nat, blocks: seq<Block>)
    requires stride > 0 && AllOpenable(blocks)
    ensures ValidMode(Sorted, stride)
    ensures AllRecords(Sorted, stride, blocks) == TargetList(Fixed(stride), Flatten(PayloadList(blocks)), 0, 0)
       <==> RecordsShown(stride, Flatten(PayloadList(blocks)), Flatten(ShownList(blocks)))
    ensures |Flatten(PayloadList(blocks))| % stride == 0 ==>
      (RecordsShown(stride, Flatten(PayloadList(blocks)), Flatten(ShownList(blocks))) <==> AllCovered(blocks))
    ensures |AllRecords(Sorted, stride, blocks)| == |Flatten(ShownList(blocks))| / stride
  {
    hide AllCovered, AllOpenable, Fixed, TargetList, AllRecords, RecordsShown;
    SortedStreams(stride, blocks);
    ShownIsShorter(blocks);
    var shown, whole := Flatten(ShownList(blocks)), Flatten(PayloadList(blocks));
    FixedWalk(stride, shown);
    FixedWalk(stride, whole);
    FixedSameExactly(stride, whole, shown);
    if |shown| < |whole| && |whole| % stride == 0 { FewerWhole(|shown|, |whole|, stride); }
  }

  lemma {:induction false} FewerWhole(n: nat, m: nat, size: nat)
    requires size > 0 && n < m && m % size == 0
    ensures n / size < m / size
  {
    var q, k := n / size, m / size;
    assert n == q * size + n % size && m == k * size;
    if q >= k {
      if q > k { MulLess(k, q, size); }
    }
  }

  function InvalidationOf(b: Block): seq<byte> {
    if b.invalidation.Some? then b.invalidation.value.bytes else []
  }

  /** A block whose records' invalidation bytes are stored apart, with as many whole records in both buffers. */
  ghost predicate Apart(b: Block, stride: nat) {
    && b.invalidation.Some? && b.dataBytes > 0 && b.invalBytes > 0 && b.dataBytes + b.invalBytes == stride
    && WholeCycles(b) && |b.main.bytes| == b.main.originalSize
  }

  /** Such blocks stream all their records exactly when none of them has any invalidation bytes. */
  lemma {:induction false} ApartStreamsExactly(stride: nat, blocks: seq<Block>)
    requires stride > 0 && AllOpenable(blocks) && forall i :: 0 <= i < |blocks| ==> Apart(blocks[i], stride)
    ensures ValidMode(Sorted, stride)
    ensures AllRecords(Sorted, stride, blocks) == TargetList(Fixed(stride), Flatten(PayloadList(blocks)), 0, 0)
       <==> forall i :: 0 <= i < |blocks| ==> InvalidationOf(blocks[i]) == []
  {
    hide AllRecords, TargetList, Fixed, SizeCovers, Payload, Apart;
    forall i | 0 <= i < |blocks|
      ensures SizeCovers(blocks[i]) <==> InvalidationOf(blocks[i]) == []
      ensures |PayloadList(blocks)[i]| % stride == 0
    {
      OneApart(blocks[i], stride);
    }
    WholeRecordsJoined(PayloadList(blocks), stride);
    SortedStreamsExactly(stride, blocks);
  }

  lemma {:induction false} OneApart(b: Block, stride: nat)
    requires stride > 0 && Openable(b) && Apart(b, stride)
    ensures SizeCovers(b) <==> InvalidationOf(b) == []
    ensures |Payload(b).value| % stride == 0
  {
    hide SizeCovers, WholeCycles, Payload, Seen, BlockSegments;
    SeparateInvalidationIsCut(b);
    BlockSeenWholeExactly(b);
    CyclesAreRecords(b);
  }

  lemma {:induction false} CyclesAreRecords(b: Block)
    requires b.invalidation.Some? && b.dataBytes > 0 && b.invalBytes > 0
    ensures |Payload(b).value| % (b.dataBytes + b.invalBytes) == 0
  {
    var parts := CycleParts(b.main.bytes, b.invalidation.value.bytes, b.dataBytes, b.invalBytes);
    UniformTotal(parts, b.dataBytes + b.invalBytes);
    DivUnique(|Flatten(parts)|, b.dataBytes + b.invalBytes, |parts|, 0);
  }

  lemma {:induction false} WholeRecordsJoined(parts: seq<seq<byte>>, stride: nat)
    requires stride > 0 && forall i :: 0 <= i < |parts| ==> |parts[i]| % stride == 0
    ensures |Flatten(parts)| % stride == 0
  {
    if parts != [] {
      var n := |parts| - 1;
      WholeRecordsJoined(parts[..n], stride);
      WholeSum(|Flatten(parts[..n])|, |parts[n]|, stride);
    }
  }

  lemma {:induction false} WholeSum(a: nat, b: nat, m: nat)
    requires m > 0 && a % m == 0 && b % m == 0
    ensures (a + b) % m == 0
  {
    var p, q := a / m, b / m;
    assert a == p * m && b == q * m;
    DivUnique(a + b, m, p + q, 0);
  }

  /** One record whose invalidation byte is stored apart: the whole read has it, the chunks never give it. */
  lemma {:induction false} ApartRecordIsNotStreamed()
    ensures var b := Block(Piece([7], 1, false), Some(Piece([1], 1, false)), 1, 1);
            && Openable(b) && ValidMode(Sorted, 2) && AllOpenable([b])
            && TargetList(Fixed(2), Flatten(PayloadList([b])), 0, 0) == [[7, 1]]
            && AllRecords(Sorted, 2, [b]) == []
  {
    var b := Block(Piece([7], 1, false), Some(Piece([1], 1, false)), 1, 1);
    var record: seq<byte> := [7, 1];
    assert CycleAt([7], [1], 1, 1, 0) == record;
    assert CycleParts([7], [1], 1, 1) == [record];
    FlattenCons(record, []);
    assert record + Flatten([]) == record;
    assert Payload(b) == Ok(record);
    OneSegment(b);
    assert PayloadList([b]) == [record];
    TwoByteRecord(record);
  }

  lemma {:induction false} TwoByteRecord(s: seq<byte>)
    requires |s| == 2
    ensures TargetList(Fixed(2), s, 0, 0) == [s]
  {
    assert s[0..2] == s && s[2..] == [];
    WalkStep(Fixed(2), s, Found(0, 0, 2), [], 0, 0);
  }

  lemma {:induction false} OneSegment(b: Block)
    requires b == Block(Piece([7], 1, false), Some(Piece([1], 1, false)), 1, 1) && Openable(b)
    requires Payload(b) == Ok([7, 1])
    ensures AllOpenable([b]) && ValidMode(Sorted, 2)
    ensures AllRecords(Sorted, 2, [b]) == []
  {
    hide AllRecords, TargetList, Fixed, Stable;
    SortedStreamsExactly(2, [b]);
    assert [b][1..] == [] && Shown(b) == [7];
    FlattenCons(Shown(b), []);
    assert ShownList([b]) == [Shown(b)] + [];
  }

  // ---------------------------------------------------------------- the reader's recogniser

  ghost predicate DistinctIds(groups: seq<GroupInfo>) {
    forall i, j :: 0 <= i < j < |groups| ==> groups[i].recordId != groups[j].recordId
  }

  lemma {:induction false} MapHolds(groups: seq<GroupInfo>, g: nat)
    requires DistinctIds(groups) && g < |groups|
    ensures groups[g].recordId in RecordMap(groups)
    ensures RecordMap(groups)[groups[g].recordId] == Entry(g, groups[g].payloadSize, groups[g].isVlsd)
  {
    var n := |groups| - 1;
    if g < n { MapHolds(groups[..n], g); }
  }

  /** With distinct record IDs, a fixed-size group's ID and the group go together. */
  lemma {:induction false} GroupTargets(groups: seq<GroupInfo>, idSize: nat, g: nat)
    requires DistinctIds(groups) && g < |groups| && !groups[g].isVlsd
    ensures Targets(RecogniserFor(RecordMap(groups), idSize), groups[g].recordId, g, idSize + groups[g].payloadSize)
  {
    var p := RecogniserFor(RecordMap(groups), idSize);
    MapHolds(groups, g);
    forall rest | p(rest).Some?
      ensures (p(rest).value.group == g <==> p(rest).value.id == groups[g].recordId)
      ensures p(rest).value.id == groups[g].recordId ==> p(rest).value.length == idSize + groups[g].payloadSize <= |rest|
    {
      OwnersInRange(groups, p(rest).value.id);
    }
  }

  lemma {:induction false} ReaderStable(records: map<nat, Entry>, idSize: nat)
    ensures Stable(RecogniserFor(records, idSize))
  {
    var p := RecogniserFor(records, idSize);
    forall a, b | p(a).Some? && p(a).value.length <= |a| ensures p(a + b) == p(a) {
      assert (a + b)[..idSize] == a[..idSize];
      if idSize + 4 <= |a| { assert (a + b)[idSize..idSize + 4] == a[idSize..idSize + 4]; }
    }
  }

  function UnsortedMode(groups: seq<GroupInfo>, idSize: nat, g: nat): Mode
    requires g < |groups|
  {
    Unsorted(RecogniserFor(RecordMap(groups), idSize), groups[g].recordId, idSize, None)
  }

  lemma {:induction false} SameCount(n: nat, k: nat, size: nat)
    requires size > 0 && n * size == k * size
    ensures n == k
  {
    if n < k { MulLess(n, k, size); }
    if k < n { MulLess(k, n, size); }
  }

  /** The main result for a shared data group: the streamed records are the ones the index gathers, and as many,
      exactly when no record of the group ends past the size its block declares. */
  lemma {:induction false} StreamingRefinesGather(groups: seq<GroupInfo>, idSize: nat, g: nat, blocks: seq<Block>)
    requires DistinctIds(groups) && g < |groups| && !groups[g].isVlsd && groups[g].payloadSize > 0
    requires AllOpenable(blocks)
    ensures ValidMode(UnsortedMode(groups, idSize, g), groups[g].payloadSize)
    ensures var m := UnsortedMode(groups, idSize, g);
            var all := AllRecords(m, groups[g].payloadSize, blocks);
            var offsets := OffsetsOf(StreamLog(m.recogniser, PayloadList(blocks)), g);
            && (Flatten(all) == Gathered(Flatten(PayloadList(blocks)), offsets, idSize, groups[g].payloadSize) <==> NothingLost(m, blocks))
            && |offsets| == |all| + LostCount(m, blocks)
            && (AllCovered(blocks) ==> NothingLost(m, blocks))
  {
    hide NothingLost, AllCovered, AllOpenable, EagerList, AllRecords;
    var m, payload := UnsortedMode(groups, idSize, g), groups[g].payloadSize;
    GroupTargets(groups, idSize, g);
    ReaderStable(RecordMap(groups), idSize);
    assert ValidMode(m, payload);
    InterleavedStreamsExactly(m, payload, blocks);
    if AllCovered(blocks) { CoveredLosesNothing(m, payload, blocks); }
    GatherCounts(m.recogniser, PayloadList(blocks), m.id, g, idSize, payload);
    var all, eager := AllRecords(m, payload, blocks), EagerList(m.recogniser, PayloadList(blocks), m.id, idSize);
    EagerUniform(m.recogniser, PayloadList(blocks), m.id, idSize, payload);
    UniformTotal(all, payload);
    UniformTotal(eager, payload);
    SameCount(|eager|, |OffsetsOf(StreamLog(m.recogniser, PayloadList(blocks)), g)|, payload);
    if Flatten(all) == Flatten(eager) {
      SameCount(|all|, |eager|, payload);
      LostCountZero(m, payload, blocks);
    }
  }

  lemma {:induction false} LostCountZero(m: Mode, stride: nat, blocks: seq<Block>)
    requires m.Unsorted? && ValidMode(m, stride) && AllOpenable(blocks)
    ensures LostCount(m, blocks) == 0 <==> NothingLost(m, blocks)
  {
    LostAreMissing(m, stride, blocks);
  }

  lemma {:induction false} EagerUniform(p: Recogniser, parts: seq<seq<byte>>, id: nat, idSize: nat, stride: nat)
    requires stride > 0 && forall rest :: p(rest).Some? && p(rest).value.id == id ==> p(rest).value.length == idSize + stride
    ensures Uniform(EagerList(p, parts, id, idSize), stride)
  {
    hide TargetList;
    if parts != [] {
      EagerUniform(p, parts[1..], id, idSize, stride);
      ListUniform(p, parts[0], id, idSize, stride);
    }
  }

  lemma {:induction false} GatherCounts(p: Recogniser, parts: seq<seq<byte>>, id: nat, g: nat, idSize: nat, payload: nat)
    requires Targets(p, id, g, idSize + payload)
    ensures Gathered(Flatten(parts), OffsetsOf(StreamLog(p, parts), g), idSize, payload) == Flatten(EagerList(p, parts, id, idSize))
    ensures |Flatten(EagerList(p, parts, id, idSize))| == |OffsetsOf(StreamLog(p, parts), g)| * payload
  {
    StreamGathers(p, parts, [], id, g, idSize, payload);
    assert Flatten(parts) + [] == Flatten(parts);
    EagerFlattens(p, parts, id, idSize);
    GatheredLength(Flatten(parts), OffsetsOf(StreamLog(p, parts), g), idSize, payload);
  }

  // ---------------------------------------------------------------- draining the iterators

  /** The iterator stands behind the first `k` of all the records, `count` of which are wanted. */
  ghost predicate StandsAt(chunks: SignalChunks, all: Records, k: nat, count: nat)
    reads chunks
  {
    && chunks.Valid() && Uniform(all, chunks.stride) && k <= |all|
    && chunks.Pending() == all[k..] && chunks.remaining == count - Min(count, k)
  }

  /** One turn of a consumer's loop: the samples the next chunk counts. */
  method NextPiece(chunks: SignalChunks, ghost all: Records, ghost k: nat, ghost count: nat)
    returns (piece: Option<seq<byte>>, ghost k': nat)
    requires StandsAt(chunks, all, k, count) && chunks.remaining > 0
    modifies chunks
    ensures StandsAt(chunks, all, k', count)
    ensures piece.Some? ==> chunks.remaining < old(chunks.remaining)
    ensures piece.Some? ==> Flatten(all[..k]) + piece.value == Flatten(all[..Min(count, k')])
    ensures piece.None? ==> k' == k == |all|
  {
    hide Coming, Flatten, ValidMode, Turns, PayloadsOf, Payloads.Stored, ChunkOf, NoneBrings;
    var chunk, taken, passed := chunks.Next();
    if chunk.None? { return None, k; }
    var takeBytes := chunk.value.count * chunks.stride;
    TakeMore(all, k, taken, chunks.Pending(), count, chunks.stride, takeBytes);
    k' := k + |taken|;
    piece := Some(chunk.value.records[..takeBytes]);
  }

  function FirstOf(records: Records, count: nat): Records {
    records[..Min(count, |records|)]
  }

  /** All a group's records through `SignalChunks`, up to `count` samples. */
  method ReadByChunks(mode: Mode, stride: nat, blocks: seq<Block>, count: nat) returns (out: seq<byte>)
    requires ValidMode(mode, stride) && AllOpenable(blocks)
    ensures out == Flatten(FirstOf(AllRecords(mode, stride, blocks), count))
  {
    hide Coming, ValidMode;
    var chunks := new SignalChunks(mode, stride, blocks, count);
    ghost var all := chunks.Pending();
    ghost var k: nat := 0;
    out := [];
    while chunks.remaining > 0
      invariant fresh(chunks) && StandsAt(chunks, all, k, count)
      invariant out == Flatten(all[..Min(count, k)])
      decreases chunks.remaining
    {
      var piece;
      piece, k := NextPiece(chunks, all, k, count);
      if piece.None? { break; }
      out := out + piece.value;
    }
  }

  lemma {:induction false} TakeMore(all: Records, k: nat, taken: Records, pending: Records, count: nat, stride: nat, at: nat)
    requires k <= |all| && all[k..] == taken + pending && Uniform(all, stride) && k <= count
    requires at == Min(|taken|, count - k) * stride
    ensures k + |taken| <= |all| && all[k + |taken|..] == pending
    ensures at <= |Flatten(taken)|
    ensures Flatten(all[..k]) + Flatten(taken)[..at] == Flatten(all[..Min(count, k + |taken|)])
  {
    var n := Min(|taken|, count - k);
    assert taken == all[k..k + |taken|] && pending == all[k + |taken|..];
    UniformPrefix(taken, n, stride, at);
    FlattenAppend(all[..k], taken[..n]);
    assert all[..k + n] == all[..k] + taken[..n];
  }

  ghost predicate WindowsAt(chunks: SignalsChunks, all: Records, k: nat, count: nat)
    reads chunks, if chunks.current.Some? then {chunks.current.value} else {}
  {
    && chunks.Valid() && Uniform(all, chunks.stride) && chunks.chunkSize > 0 && k <= |all|
    && chunks.Pending() == all[k..] && chunks.remaining + k == count
  }

  /** One turn: the next window, which is short only when it is the last. */
  method NextAligned(chunks: SignalsChunks, ghost all: Records, ghost k: nat, ghost count: nat)
    returns (window: Option<seq<byte>>, ghost k': nat)
    requires WindowsAt(chunks, all, k, count) && chunks.remaining > 0
    modifies chunks
    ensures WindowsAt(chunks, all, k', count)
    ensures window.Some? ==> chunks.remaining < old(chunks.remaining)
    ensures window.Some? ==> Flatten(all[..k]) + window.value == Flatten(all[..k'])
    ensures window.Some? ==> 0 < |window.value| <= chunks.chunkSize * chunks.stride
    ensures window.Some? && |window.value| != chunks.chunkSize * chunks.stride ==> chunks.remaining == 0 || k' == |all|
    ensures window.None? <==> k == |all|
    ensures window.None? ==> k' == k
  {
    hide Coming, Stable, Sized, AllReadable, Turns, RecordsOf, PayloadsOf, Payloads.Numbered, Flatten, Uniform;
    ghost var taken;
    var next;
    next, taken := chunks.Next();
    window := if next.Some? then Some(next.value.records) else None;
    k' := k + |taken|;
    if window.None? { return; }
    WindowOff(all, k, taken, chunks.Pending(), chunks.chunkSize, chunks.stride);
  }

  ghost predicate FullButLast(windows: Records, size: int) {
    && (forall w :: 0 <= w < |windows| - 1 ==> |windows[w]| == size)
    && (windows != [] ==> 0 < |windows[|windows| - 1]| <= size)
  }

  /** All a group's records through `SignalsChunks`: every window but the last holds exactly `chunkSize` samples. */
  method ReadByWindows(mode: Mode, stride: nat, chunkSize: nat, blocks: seq<Block>, count: nat) returns (windows: Records)
    requires ValidMode(mode, stride) && AllOpenable(blocks) && chunkSize > 0
    ensures Flatten(windows) == Flatten(FirstOf(AllRecords(mode, stride, blocks), count))
    ensures FullButLast(windows, chunkSize * stride)
  {
    hide Coming, ValidMode, AllReadable, Flatten;
    var chunks := new SignalsChunks(mode, stride, chunkSize, blocks, count);
    ghost var all := chunks.Pending();
    ghost var k: nat, size := 0, chunkSize * stride;
    windows := [];
    NothingYet(windows, all);
    while chunks.remaining > 0
      invariant fresh(chunks) && WindowsAt(chunks, all, k, count)
      invariant chunks.chunkSize * chunks.stride == size
      invariant Flatten(windows) == Flatten(all[..k]) && FullButLast(windows, size)
      invariant windows != [] && |windows[|windows| - 1]| != size ==> chunks.remaining == 0 || k == |all|
      decreases chunks.remaining
    {
      var window;
      window, k := NextAligned(chunks, all, k, count);
      if window.None? { break; }
      FlattenAppendOne(windows, [window.value]);
      windows := windows + [window.value];
    }
  }

  lemma {:induction false} NothingYet(windows: Records, all: Records)
    requires windows == []
    ensures Flatten(windows) == Flatten(all[..0])
  {
  }

  lemma {:induction false} WindowOff(all: Records, k: nat, taken: Records, pending: Records, chunkSize: nat, stride: nat)
    requires k <= |all| && all[k..] == taken + pending && Uniform(all, stride)
    requires 0 < |taken| <= chunkSize && stride > 0
    ensures k + |taken| <= |all| && all[k + |taken|..] == pending
    ensures Flatten(all[..k]) + Flatten(taken) == Flatten(all[..k + |taken|])
    ensures 0 < |Flatten(taken)| <= chunkSize * stride
    ensures |taken| == chunkSize ==> |Flatten(taken)| == chunkSize * stride
  {
    assert taken == all[k..k + |taken|] && pending == all[k + |taken|..];
    assert all[..k + |taken|] == all[..k] + taken;
    FlattenAppend(all[..k], taken);
    UniformTotal(taken, stride);
    MulLess(0, |taken|, stride);
    if |taken| < chunkSize { MulLess(|taken|, chunkSize, stride); }
  }
}
