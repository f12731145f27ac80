/** Reading a record stream a bounded window at a time (src/stream.rs), against reading it whole. */
module Streaming {
  import opened Arithmetic
  import opened Bytes
  import opened Options
  import opened DataBlocks
  import opened Demux
  import Payloads

  type Records = Payloads.Records

  // ---------------------------------------------------------------- records at the front of some data

  /** The record at the front, without its ID, when it is the target's. */
  function Own(rest: seq<byte>, r: Found, id: nat, idSize: nat): Records
    requires r.length <= |rest|
  {
    if r.id == id && idSize <= r.length then [rest[idSize..r.length]] else []
  }

  /** The target's records among those that lie wholly inside `rest`. */
  function TargetList(p: Recogniser, rest: seq<byte>, id: nat, idSize: nat): Records
    decreases |rest|
  {
    if rest == [] then [] else
    match p(rest)
    case None => []
    case Some(r) =>
      if r.length > |rest| then [] else Own(rest, r, id, idSize) + TargetList(p, rest[r.length..], id, idSize)
  }

  /** Bytes the walk gets through. */
  function Consumed(p: Recogniser, rest: seq<byte>): (n: nat)
    ensures n <= |rest|
    decreases |rest|
  {
    if rest == [] then 0 else
    match p(rest)
    case None => 0
    case Some(r) => if r.length > |rest| then 0 else r.length + Consumed(p, rest[r.length..])
  }

  /** A record recognised whole is recognised the same however the data goes on. */
  ghost predicate Stable(p: Recogniser) {
    forall a, b :: p(a).Some? && p(a).value.length <= |a| ==> p(a + b) == p(a)
  }

  lemma {:induction false} WalkStep(p: Recogniser, rest: seq<byte>, r: Found, left: seq<byte>, id: nat, idSize: nat)
    requires p(rest) == Some(r) && r.length <= |rest| && left == rest[r.length..]
    ensures TargetList(p, rest, id, idSize) == Own(rest, r, id, idSize) + TargetList(p, left, id, idSize)
    ensures Consumed(p, rest) == r.length + Consumed(p, left)
    ensures rest[Consumed(p, rest)..] == left[Consumed(p, left)..]
  {
  }

  lemma {:induction false} OwnOfPrefix(a: seq<byte>, b: seq<byte>, r: Found, id: nat, idSize: nat)
    requires r.length <= |a|
    ensures Own(a + b, r, id, idSize) == Own(a, r, id, idSize)
  {
    if idSize <= r.length { assert (a + b)[idSize..r.length] == a[idSize..r.length]; }
  }

  /** What a walk does with data that arrives in two pieces. */
  lemma {:induction false} WalkInPieces(p: Recogniser, a: seq<byte>, b: seq<byte>, id: nat, idSize: nat)
    requires Stable(p)
    ensures TargetList(p, a + b, id, idSize)
         == TargetList(p, a, id, idSize) + TargetList(p, a[Consumed(p, a)..] + b, id, idSize)
    decreases |a|
  {
    if a == [] || p(a).None? || p(a).value.length > |a| {
      assert a[0..] == a && [] + TargetList(p, a + b, id, idSize) == TargetList(p, a + b, id, idSize);
    } else {
      var r := p(a).value;
      var left := a[r.length..];
      WalkInPieces(p, left, b, id, idSize);
      PrefixStep(p, a, b, r, left, id, idSize);
      WalkStep(p, a, r, left, id, idSize);
      Assoc(Own(a, r, id, idSize), TargetList(p, left, id, idSize), TargetList(p, left[Consumed(p, left)..] + b, id, idSize));
    }
  }

  lemma {:induction false} PrefixStep(p: Recogniser, a: seq<byte>, b: seq<byte>, r: Found, left: seq<byte>, id: nat, idSize: nat)
    requires Stable(p) && p(a) == Some(r) && r.length <= |a| && left == a[r.length..]
    ensures TargetList(p, a + b, id, idSize) == Own(a, r, id, idSize) + TargetList(p, left + b, id, idSize)
  {
    var whole := a + b;
    assert p(whole) == Some(r) && whole[r.length..] == left + b;
    WalkStep(p, whole, r, left + b, id, idSize);
    OwnOfPrefix(a, b, r, id, idSize);
  }

  // ---------------------------------------------------------------- `Demux::collect`

  /** The walk's results once it has passed the rest of the window, from the results so far. */
  ghost function CollectInto(p: Recogniser, rest: seq<byte>, id: nat, idSize: nat, records: Records, consumed: nat): (Records, nat)
    decreases |rest|
  {
    if rest == [] || p(rest).None? || p(rest).value.length > |rest| then (records, consumed)
    else
      var r := p(rest).value;
      CollectInto(p, rest[r.length..], id, idSize, records + Own(rest, r, id, idSize), consumed + r.length)
  }

  lemma {:induction false} CollectIntoAppends(p: Recogniser, rest: seq<byte>, id: nat, idSize: nat, records: Records, consumed: nat)
    ensures CollectInto(p, rest, id, idSize, records, consumed)
         == (records + TargetList(p, rest, id, idSize), consumed + Consumed(p, rest))
    decreases |rest|
  {
    if rest == [] || p(rest).None? || p(rest).value.length > |rest| {
      assert records + [] == records;
    } else {
      var r := p(rest).value;
      var own := Own(rest, r, id, idSize);
      CollectIntoAppends(p, rest[r.length..], id, idSize, records + own, consumed + r.length);
      assert records + own + TargetList(p, rest[r.length..], id, idSize)
          == records + (own + TargetList(p, rest[r.length..], id, idSize));
    }
  }

  lemma {:induction false} FlattenAppendOne(records: Records, more: Records)
    requires |more| <= 1
    ensures Flatten(records + more) == Flatten(records) + if more == [] then [] else more[0]
  {
    if more == [] {
      assert records + more == records;
    } else {
      assert (records + more)[..|records|] == records;
    }
  }

  lemma {:induction false} NothingFlat()
    ensures Flatten<byte>([]) == []
  {
  }

  /** The payloads of the records that carry `vlsd`, where there is such a group: what follows the ID and the length. */
  function PayloadsIn(p: Recogniser, rest: seq<byte>, vlsd: Option<nat>, idSize: nat): Records {
    if vlsd.None? then [] else TargetList(p, rest, vlsd.value, idSize + Payloads.PREFIX)
  }

  ghost predicate AllIn(ranges: seq<(nat, nat)>, size: nat) {
    forall k :: 0 <= k < |ranges| ==> ranges[k].0 + ranges[k].1 <= size
  }

  function Slices(data: seq<byte>, ranges: seq<(nat, nat)>): (slices: Records)
    requires AllIn(ranges, |data|)
    ensures |slices| == |ranges|
  {
    seq(|ranges|, k requires 0 <= k < |ranges| => data[ranges[k].0..ranges[k].0 + ranges[k].1])
  }

  /** Targets have `payload` bytes behind their ID, and the records with payloads at least a length. */
  ghost predicate Sized(p: Recogniser, id: nat, idSize: nat, payload: nat, vlsd: Option<nat>) {
    && (forall rest :: p(rest).Some? && p(rest).value.id == id ==> p(rest).value.length == idSize + payload)
    && (forall rest :: p(rest).Some? && vlsd == Some(p(rest).value.id) ==> p(rest).value.length >= idSize + Payloads.PREFIX)
  }

  /** The walk stands at `consumed` of the data and has these records. */
  ghost predicate Walked(p: Recogniser, data: seq<byte>, id: nat, idSize: nat, records: Records, consumed: nat) {
    consumed <= |data| && CollectInto(p, data, id, idSize, [], 0) == CollectInto(p, data[consumed..], id, idSize, records, consumed)
  }

  lemma {:induction false} WalkedOne(p: Recogniser, data: seq<byte>, id: nat, idSize: nat, records: Records, consumed: nat, r: Found)
    requires Walked(p, data, id, idSize, records, consumed) && consumed < |data|
    requires p(data[consumed..]) == Some(r) && consumed + r.length <= |data|
    ensures Walked(p, data, id, idSize, records + Own(data[consumed..], r, id, idSize), consumed + r.length)
  {
    assert data[consumed..][r.length..] == data[consumed + r.length..];
  }

  lemma {:induction false} WalkedAll(p: Recogniser, data: seq<byte>, id: nat, idSize: nat, records: Records, consumed: nat)
    requires Walked(p, data, id, idSize, records, consumed)
    requires consumed < |data| ==> p(data[consumed..]).None? || p(data[consumed..]).value.length > |data| - consumed
    ensures records == TargetList(p, data, id, idSize) && consumed == Consumed(p, data)
  {
    hide TargetList, Consumed;
    CollectIntoAppends(p, data, id, idSize, [], 0);
    assert [] + TargetList(p, data, id, idSize) == TargetList(p, data, id, idSize);
  }

  lemma {:induction false} WalkedNone(p: Recogniser, data: seq<byte>, id: nat, idSize: nat)
    ensures Walked(p, data, id, idSize, [], 0)
  {
    assert data[0..] == data;
  }

  /** The walk stands at `consumed` of the data and has found the payloads in these ranges of it. */
  ghost predicate Located(p: Recogniser, data: seq<byte>, vlsd: Option<nat>, idSize: nat, ranges: seq<(nat, nat)>, consumed: nat) {
    && AllIn(ranges, |data|)
    && if vlsd.None? then ranges == [] else Walked(p, data, vlsd.value, idSize + Payloads.PREFIX, Slices(data, ranges), consumed)
  }

  lemma {:induction false} LocatedOne(p: Recogniser, data: seq<byte>, vlsd: Option<nat>, idSize: nat, ranges: seq<(nat, nat)>,
                                      consumed: nat, r: Found)
    requires Located(p, data, vlsd, idSize, ranges, consumed) && consumed < |data|
    requires p(data[consumed..]) == Some(r) && consumed + r.length <= |data|
    requires vlsd == Some(r.id) ==> r.length >= idSize + Payloads.PREFIX
    ensures vlsd == Some(r.id) ==>
      var from := idSize + Payloads.PREFIX;
      Located(p, data, vlsd, idSize, ranges + [(consumed + from, r.length - from)], consumed + r.length)
    ensures vlsd != Some(r.id) ==> Located(p, data, vlsd, idSize, ranges, consumed + r.length)
  {
    hide Walked;
    if vlsd.Some? {
      var from, rest := idSize + Payloads.PREFIX, data[consumed..];
      WalkedOne(p, data, vlsd.value, from, Slices(data, ranges), consumed, r);
      if vlsd == Some(r.id) {
        SlicesOne(data, ranges, consumed + from, r.length - from);
        assert data[consumed + from..consumed + r.length] == rest[from..r.length];
      } else {
        assert Slices(data, ranges) + [] == Slices(data, ranges);
      }
    }
  }

  lemma {:induction false} LocatedAll(p: Recogniser, data: seq<byte>, vlsd: Option<nat>, idSize: nat, ranges: seq<(nat, nat)>, consumed: nat)
    requires Located(p, data, vlsd, idSize, ranges, consumed)
    requires consumed <= |data|
    requires consumed < |data| ==> p(data[consumed..]).None? || p(data[consumed..]).value.length > |data| - consumed
    ensures AllIn(ranges, |data|) && Slices(data, ranges) == PayloadsIn(p, data, vlsd, idSize)
  {
    hide Walked;
    if vlsd.Some? { WalkedAll(p, data, vlsd.value, idSize + Payloads.PREFIX, Slices(data, ranges), consumed); }
  }

  lemma {:induction false} LocatedNone(p: Recogniser, data: seq<byte>, vlsd: Option<nat>, idSize: nat)
    ensures Located(p, data, vlsd, idSize, [], 0)
  {
    if vlsd.Some? {
      WalkedNone(p, data, vlsd.value, idSize + Payloads.PREFIX);
      assert Slices(data, []) == [];
    }
  }

  /** `collect`, given the bytes a target record has behind its ID. The payloads are ranges of the data. */
  method Collect(p: Recogniser, id: nat, idSize: nat, payload: nat, vlsd: Option<nat>, data: seq<byte>)
    returns (records: seq<byte>, payloads: seq<(nat, nat)>, consumed: nat)
    requires Sized(p, id, idSize, payload, vlsd)
    ensures records == Flatten(TargetList(p, data, id, idSize))
    ensures AllIn(payloads, |data|) && Slices(data, payloads) == PayloadsIn(p, data, vlsd, idSize)
    ensures consumed == Consumed(p, data)
  {
    hide TargetList, Consumed, Flatten, Walked, Own, Located, Slices, AllIn, PayloadsIn, Sized;
    records, payloads, consumed := [], [], 0;
    ghost var list: Records := [];
    assert records == Flatten(list) by { NothingFlat(); }
    WalkedNone(p, data, id, idSize);
    LocatedNone(p, data, vlsd, idSize);
    while consumed < |data|
      invariant consumed <= |data| && records == Flatten(list) && Walked(p, data, id, idSize, list, consumed)
      invariant Located(p, data, vlsd, idSize, payloads, consumed)
    {
      var rest := data[consumed..];
      var found := p(rest);
      if found.None? { break; }
      var r := found.value;
      if r.length > |rest| { break; }
      OwnIs(p, rest, r, id, idSize, payload, vlsd);
      WalkedOne(p, data, id, idSize, list, consumed, r);
      LocatedOne(p, data, vlsd, idSize, payloads, consumed, r);
      FlattenAppendOne(list, Own(rest, r, id, idSize));
      if vlsd == Some(r.id) {
        var from := idSize + Payloads.PREFIX;
        payloads := payloads + [(consumed + from, r.length - from)];
      }
      if r.id == id {
        records := records + rest[idSize..idSize + payload];
      }
      list := list + Own(rest, r, id, idSize);
      consumed := consumed + r.length;
    }
    WalkedAll(p, data, id, idSize, list, consumed);
    LocatedAll(p, data, vlsd, idSize, payloads, consumed);
  }

  lemma {:induction false} OwnIs(p: Recogniser, rest: seq<byte>, r: Found, id: nat, idSize: nat, payload: nat, vlsd: Option<nat>)
    requires Sized(p, id, idSize, payload, vlsd) && p(rest) == Some(r) && r.length <= |rest|
    ensures |Own(rest, r, id, idSize)| <= 1
    ensures r.id == id ==> idSize + payload <= |rest| && Own(rest, r, id, idSize) == [rest[idSize..idSize + payload]]
    ensures r.id != id ==> Own(rest, r, id, idSize) == []
    ensures vlsd == Some(r.id) ==> r.length >= idSize + Payloads.PREFIX
  {
  }

  lemma {:induction false} SlicesOne(data: seq<byte>, ranges: seq<(nat, nat)>, start: nat, len: nat)
    requires AllIn(ranges, |data|) && start + len <= |data|
    ensures AllIn(ranges + [(start, len)], |data|)
    ensures Slices(data, ranges + [(start, len)]) == Slices(data, ranges) + [data[start..start + len]]
  {
  }

  // ---------------------------------------------------------------- fixed-stride records

  function Fixed(stride: nat): Recogniser {
    (rest: seq<byte>) => if stride > 0 && |rest| >= stride then Some(Found(0, 0, stride)) else None
  }

  lemma {:induction false} FixedWalk(stride: nat, buffer: seq<byte>)
    requires stride > 0
    ensures |TargetList(Fixed(stride), buffer, 0, 0)| == |buffer| / stride
    ensures Consumed(Fixed(stride), buffer) == |buffer| / stride * stride
    ensures Flatten(TargetList(Fixed(stride), buffer, 0, 0)) == buffer[..Consumed(Fixed(stride), buffer)]
    decreases |buffer|
  {
    if |buffer| < stride {
      DivUnique(|buffer|, stride, 0, |buffer|);
    } else {
      var left := buffer[stride..];
      OneMore(|left|, stride);
      FixedWalk(stride, left);
      var tail := TargetList(Fixed(stride), left, 0, 0);
      assert TargetList(Fixed(stride), buffer, 0, 0) == [buffer[0..stride]] + tail;
      FlattenCons(buffer[0..stride], tail);
      var c := Consumed(Fixed(stride), left);
      assert buffer[..stride + c] == buffer[0..stride] + left[..c];
    }
  }

  lemma {:induction false} OneMore(length: nat, stride: nat)
    requires stride > 0
    ensures (length + stride) / stride == length / stride + 1
    ensures (length / stride + 1) * stride == length / stride * stride + stride
  {
    var n, r := length / stride, length % stride;
    assert length == n * stride + r;
    assert (n + 1) * stride == n * stride + stride;
    DivUnique(length + stride, stride, n + 1, r);
  }

  // ---------------------------------------------------------------- how a window is taken

  /** How a stream is read. In an interleaved one, `vlsd` is the ID of the records that hold the channel's payloads, if
      the channel is of variable length. */
  datatype Mode = Sorted | Unsorted(recogniser: Recogniser, id: nat, idSize: nat, vlsd: Option<nat>)

  function RecogniserOf(m: Mode, stride: nat): Recogniser {
    if m.Sorted? then Fixed(stride) else m.recogniser
  }

  function IdOf(m: Mode): nat {
    if m.Sorted? then 0 else m.id
  }

  function IdSizeOf(m: Mode): nat {
    if m.Sorted? then 0 else m.idSize
  }

  function VlsdOf(m: Mode): Option<nat> {
    if m.Sorted? then None else m.vlsd
  }

  /** The payloads a window brings. */
  function Sent(m: Mode, stride: nat, buffer: seq<byte>): Records {
    PayloadsIn(RecogniserOf(m, stride), buffer, VlsdOf(m), IdSizeOf(m))
  }

  function Taken(m: Mode, stride: nat, buffer: seq<byte>): Records {
    TargetList(RecogniserOf(m, stride), buffer, IdOf(m), IdSizeOf(m))
  }

  /** What is carried to the next window: nothing past the end of a block of an interleaved stream. */
  function Carried(m: Mode, stride: nat, buffer: seq<byte>, endsBlock: bool): seq<byte> {
    if m.Unsorted? && endsBlock then [] else buffer[Consumed(RecogniserOf(m, stride), buffer)..]
  }

  /** A mode that reads records of `stride` bytes. */
  ghost predicate ValidMode(m: Mode, stride: nat) {
    && stride > 0
    && Stable(RecogniserOf(m, stride))
    && Sized(RecogniserOf(m, stride), IdOf(m), IdSizeOf(m), stride, VlsdOf(m))
  }

  lemma {:induction false} TakenUniform(m: Mode, stride: nat, buffer: seq<byte>)
    requires ValidMode(m, stride)
    ensures forall k :: 0 <= k < |Taken(m, stride, buffer)| ==> |Taken(m, stride, buffer)[k]| == stride
    ensures |Flatten(Taken(m, stride, buffer))| / stride == |Taken(m, stride, buffer)|
  {
    ListUniform(RecogniserOf(m, stride), buffer, IdOf(m), IdSizeOf(m), stride);
    UniformTotal(Taken(m, stride, buffer), stride);
    DivUnique(|Flatten(Taken(m, stride, buffer))|, stride, |Taken(m, stride, buffer)|, 0);
  }

  lemma {:induction false} ListUniform(p: Recogniser, rest: seq<byte>, id: nat, idSize: nat, stride: nat)
    requires forall s :: p(s).Some? && p(s).value.id == id ==> p(s).value.length == idSize + stride
    ensures forall k :: 0 <= k < |TargetList(p, rest, id, idSize)| ==> |TargetList(p, rest, id, idSize)[k]| == stride
    decreases |rest|
  {
    if rest != [] && p(rest).Some? && p(rest).value.length <= |rest| {
      ListUniform(p, rest[p(rest).value.length..], id, idSize, stride);
    }
  }

  /** The part of both iterators' `next` that turns a buffer into records. */
  method TakeRecords(m: Mode, stride: nat, buffer: seq<byte>, endsBlock: bool)
    returns (records: seq<byte>, whole: nat, payloads: Records, carry: seq<byte>)
    requires ValidMode(m, stride)
    ensures payloads == Sent(m, stride, buffer)
    ensures records == Flatten(Taken(m, stride, buffer)) && whole == |Taken(m, stride, buffer)|
    ensures carry == Carried(m, stride, buffer, endsBlock)
  {
    match m
    case Sorted =>
      FixedWalk(stride, buffer);
      whole := |buffer| / stride;
      var kept := whole * stride;
      records, carry, payloads := buffer[..kept], buffer[kept..], [];
    case Unsorted(p, id, idSize, vlsd) =>
      var ranges, consumed;
      records, ranges, consumed := Collect(p, id, idSize, stride, vlsd, buffer);
      payloads := Slices(buffer, ranges);
      TakenUniform(m, stride, buffer);
      whole := |records| / stride;
      carry := if endsBlock then [] else buffer[consumed..];
  }

  // ---------------------------------------------------------------- windows

  const CHUNK_BUDGET: nat := 4194304

  /** A window of a block's payload, and whether it ends the block. */
  datatype Segment = Segment(block: Block, start: nat, len: nat, endsBlock: bool)

  ghost predicate Openable(b: Block) {
    ValidBlock(b) && Payload(b).Ok?
  }

  ghost predicate AllOpenable(blocks: seq<Block>) {
    forall i :: 0 <= i < |blocks| ==> Openable(blocks[i])
  }

  ghost predicate AllReadable(segments: seq<Segment>) {
    forall i :: 0 <= i < |segments| ==> Openable(segments[i].block)
  }

  /** The bytes `read_block_range` returns for a window. */
  ghost function SegmentBytes(s: Segment): seq<byte>
    requires Openable(s.block)
  {
    Window(Payload(s.block).value, s.start, s.len)
  }

  /** The windows of a large uncompressed block from `start` on. */
  function Windows(b: Block, start: nat): seq<Segment>
    decreases b.main.originalSize - start
  {
    var size := b.main.originalSize;
    if start >= size then []
    else
      var len := Min(CHUNK_BUDGET, size - start);
      [Segment(b, start, len, start + len >= size)] + Windows(b, start + len)
  }

  function BlockSegments(b: Block): seq<Segment> {
    var size := b.main.originalSize;
    if b.main.compressed || size <= CHUNK_BUDGET then [Segment(b, 0, if size == 0 then 1 else size, true)]
    else Windows(b, 0)
  }

  function SegmentParts(blocks: seq<Block>): (parts: seq<seq<Segment>>)
    ensures |parts| == |blocks|
  {
    seq(|blocks|, i requires 0 <= i < |blocks| => BlockSegments(blocks[i]))
  }

  function SegmentsOf(blocks: seq<Block>): seq<Segment> {
    Flatten(SegmentParts(blocks))
  }

  lemma {:induction false} WindowCut(b: Block, start: nat, k: nat)
    requires k < |Windows(b, start)|
    ensures start + k * 4_194_304 < b.main.originalSize
    ensures var from, size := start + k * 4_194_304, b.main.originalSize;
      Windows(b, start)[k] == if size - from <= 4_194_304 then Segment(b, from, size - from, true) else Segment(b, from, 4_194_304, false)
    ensures k + 1 == |Windows(b, start)| <==> b.main.originalSize <= start + k * 4_194_304 + 4_194_304
    decreases k
  {
    if k > 0 { WindowCut(b, start + Min(CHUNK_BUDGET, b.main.originalSize - start), k - 1); }
  }

  /** A plain block of more than 4 MiB is cut into windows of 4 MiB, and a last one with what is left; any other is one window. */
  lemma {:induction false} PlainBlockIsCut(b: Block, k: nat)
    requires !b.main.compressed && b.main.originalSize > 4_194_304 && k < |BlockSegments(b)|
    ensures var size, from := b.main.originalSize, k * 4_194_304;
      && from < size && (k + 1 == |BlockSegments(b)| <==> size <= from + 4_194_304)
      && BlockSegments(b)[k] == if size - from <= 4_194_304 then Segment(b, from, size - from, true) else Segment(b, from, 4_194_304, false)
  {
    WindowCut(b, 0, k);
  }

  /** The inner loop of `segments`. */
  method CutWindows(b: Block) returns (out: seq<Segment>)
    ensures out == Windows(b, 0)
  {
    out := [];
    var start, size := 0, b.main.originalSize;
    while start < size
      invariant start <= size
      invariant Windows(b, 0) == out + Windows(b, start)
    {
      var len := Min(CHUNK_BUDGET, size - start);
      out := out + [Segment(b, start, len, start + len >= size)];
      start := start + len;
    }
  }

  /** `segments`. */
  method CutSegments(blocks: seq<Block>) returns (out: seq<Segment>)
    ensures out == SegmentsOf(blocks)
  {
    out := [];
    ghost var parts := SegmentParts(blocks);
    for i := 0 to |blocks|
      invariant out == Flatten(parts[..i])
    {
      var b := blocks[i];
      var size := b.main.originalSize;
      FlattenNext(parts, i);
      if b.main.compressed || size <= CHUNK_BUDGET {
        out := out + [Segment(b, 0, if size == 0 then 1 else size, true)];
      } else {
        var windows := CutWindows(b);
        out := out + windows;
      }
    }
    assert parts[..|blocks|] == parts;
  }

  // ---------------------------------------------------------------- what is still to come

  /** The target's records the windows `segments` will give, after the bytes carried so far. */
  ghost function Coming(m: Mode, stride: nat, carry: seq<byte>, segments: seq<Segment>): Records
    requires AllReadable(segments)
    decreases |segments|
  {
    if segments == [] then []
    else
      var buffer := carry + SegmentBytes(segments[0]);
      Taken(m, stride, buffer) + Coming(m, stride, Carried(m, stride, buffer, segments[0].endsBlock), segments[1..])
  }

  ghost predicate Uniform(records: Records, stride: nat) {
    forall k :: 0 <= k < |records| ==> |records[k]| == stride
  }

  lemma {:induction false} ComingUniform(m: Mode, stride: nat, carry: seq<byte>, segments: seq<Segment>)
    requires ValidMode(m, stride) && AllReadable(segments)
    ensures Uniform(Coming(m, stride, carry, segments), stride)
    decreases |segments|
  {
    if segments != [] {
      var buffer := carry + SegmentBytes(segments[0]);
      TakenUniform(m, stride, buffer);
      ComingUniform(m, stride, Carried(m, stride, buffer, segments[0].endsBlock), segments[1..]);
    }
  }

  lemma {:induction false} NextWindow(m: Mode, stride: nat, carry: seq<byte>, segments: seq<Segment>)
    requires segments != [] && AllReadable(segments)
    ensures AllReadable(segments[1..])
    ensures var buffer := carry + SegmentBytes(segments[0]);
            var later := Coming(m, stride, Carried(m, stride, buffer, segments[0].endsBlock), segments[1..]);
            Coming(m, stride, carry, segments) == Taken(m, stride, buffer) + later
  {
  }

  lemma {:induction false} NothingComing(m: Mode, stride: nat, carry: seq<byte>)
    ensures Coming(m, stride, carry, []) == []
  {
  }

  /** All the target's records the blocks' windows give. */
  ghost function AllRecords(m: Mode, stride: nat, blocks: seq<Block>): (all: Records)
    requires ValidMode(m, stride) && AllOpenable(blocks)
    ensures Uniform(all, stride)
  {
    SegmentsReadable(blocks);
    ComingUniform(m, stride, [], SegmentsOf(blocks));
    Coming(m, stride, [], SegmentsOf(blocks))
  }

  /** What one window brings. */
  datatype Turn = Turn(records: Records, payloads: Records)

  /** What the windows `segments` will bring, one by one. */
  ghost function Turns(m: Mode, stride: nat, carry: seq<byte>, segments: seq<Segment>): (turns: seq<Turn>)
    requires AllReadable(segments)
    ensures |turns| == |segments|
    decreases |segments|
  {
    if segments == [] then []
    else
      var buffer := carry + SegmentBytes(segments[0]);
      [Turn(Taken(m, stride, buffer), Sent(m, stride, buffer))]
      + Turns(m, stride, Carried(m, stride, buffer, segments[0].endsBlock), segments[1..])
  }

  ghost function RecordsOf(turns: seq<Turn>): Records {
    if turns == [] then [] else turns[0].records + RecordsOf(turns[1..])
  }

  ghost function PayloadsOf(turns: seq<Turn>): Records {
    if turns == [] then [] else turns[0].payloads + PayloadsOf(turns[1..])
  }

  lemma {:induction false} TurnsAppend(a: seq<Turn>, b: seq<Turn>)
    ensures RecordsOf(a + b) == RecordsOf(a) + RecordsOf(b)
    ensures PayloadsOf(a + b) == PayloadsOf(a) + PayloadsOf(b)
  {
    if a == [] {
      assert a + b == b;
    } else {
      assert (a + b)[0] == a[0] && (a + b)[1..] == a[1..] + b;
      TurnsAppend(a[1..], b);
    }
  }

  lemma {:induction false} TurnsBringRecords(m: Mode, stride: nat, carry: seq<byte>, segments: seq<Segment>)
    requires AllReadable(segments)
    ensures RecordsOf(Turns(m, stride, carry, segments)) == Coming(m, stride, carry, segments)
    decreases |segments|
  {
    hide Taken, Sent, Carried, SegmentBytes;
    if segments != [] {
      var buffer := carry + SegmentBytes(segments[0]);
      var left := Carried(m, stride, buffer, segments[0].endsBlock);
      TurnsBringRecords(m, stride, left, segments[1..]);
      assert Turns(m, stride, carry, segments)[1..] == Turns(m, stride, left, segments[1..]);
    }
  }

  lemma {:induction false} NextTurn(m: Mode, stride: nat, carry: seq<byte>, segments: seq<Segment>)
    requires segments != [] && AllReadable(segments)
    ensures AllReadable(segments[1..])
    ensures var buffer := carry + SegmentBytes(segments[0]);
            Turns(m, stride, carry, segments)
            == [Turn(Taken(m, stride, buffer), Sent(m, stride, buffer))]
               + Turns(m, stride, Carried(m, stride, buffer, segments[0].endsBlock), segments[1..])
  {
  }

  /** One more turn passed: the payloads so far, and the number the next payload gets. */
  lemma {:induction false} OneMoreTurn(passed: seq<Turn>, turn: Turn)
    ensures PayloadsOf(passed + [turn]) == PayloadsOf(passed) + turn.payloads
    ensures RecordsOf(passed + [turn]) == RecordsOf(passed) + turn.records
    ensures Payloads.Stored(PayloadsOf(passed + [turn])) == Payloads.Stored(PayloadsOf(passed)) + Payloads.Stored(turn.payloads)
  {
    TurnsAppend(passed, [turn]);
    assert [turn][1..] == [];
    assert PayloadsOf([turn]) == turn.payloads + [] && RecordsOf([turn]) == turn.records + [];
    Payloads.StoredAppend(PayloadsOf(passed), turn.payloads);
  }

  /** A chunk's records, how many samples they count for, and the payloads to look a variable-length channel's up in. */
  datatype Chunk = Chunk(records: seq<byte>, count: nat, payloads: Option<Payloads.VlsdPayloads>)

  ghost predicate NoneBrings(passed: seq<Turn>) {
    forall i :: 0 <= i < |passed| ==> passed[i].records == []
  }

  /** The chunk of the last of the turns passed, the others having brought no record: that window's records, and its
      payloads numbered from where the windows before it leave off. */
  ghost predicate ChunkOf(m: Mode, chunk: Chunk, passed: seq<Turn>, base: nat)
    reads if chunk.payloads.Some? then {chunk.payloads.value} else {}
  {
    && passed != []
    && var before, turn := passed[..|passed| - 1], passed[|passed| - 1];
    && NoneBrings(before) && chunk.records == Flatten(turn.records)
    && (chunk.payloads.Some? <==> VlsdOf(m).Some?)
    && (chunk.payloads.Some? ==>
          && chunk.payloads.value.Valid()
          && chunk.payloads.value.Entries() == Payloads.Numbered(turn.payloads, base + Payloads.Stored(PayloadsOf(before))))
  }

  /** One channel's records, a window at a time (`SignalChunks`). */
  class SignalChunks {
    const mode: Mode
    const stride: nat
    var segments: seq<Segment>
    var carry: seq<byte>
    var remaining: nat
    var payloadBase: nat

    ghost predicate Valid()
      reads this
    {
      ValidMode(mode, stride) && AllReadable(segments)
    }

    ghost function Pending(): Records
      requires Valid()
      reads this
    {
      Coming(mode, stride, carry, segments)
    }

    ghost function PendingTurns(): seq<Turn>
      requires Valid()
      reads this
    {
      Turns(mode, stride, carry, segments)
    }

    constructor (mode: Mode, stride: nat, blocks: seq<Block>, count: nat)
      requires ValidMode(mode, stride) && AllOpenable(blocks)
      ensures Valid() && remaining == count && payloadBase == 0 && this.mode == mode && this.stride == stride
      ensures Pending() == AllRecords(mode, stride, blocks) && PendingTurns() == AllTurns(mode, stride, blocks)
    {
      this.mode, this.stride := mode, stride;
      var cut := CutSegments(blocks);
      SegmentsReadable(blocks);
      segments, carry, remaining, payloadBase := cut, [], count, 0;
    }

    /** Reads one window. */
    method ReadTurn() returns (records: seq<byte>, whole: nat, payloads: Option<Payloads.VlsdPayloads>, ghost turn: Turn)
      requires Valid() && segments != []
      modifies this`segments, this`carry, this`payloadBase
      ensures Valid() && old(PendingTurns()) == [turn] + PendingTurns() && old(Pending()) == turn.records + Pending()
      ensures |segments| < old(|segments|)
      ensures records == Flatten(turn.records) && whole == |turn.records|
      ensures payloadBase == old(payloadBase) + Payloads.Stored(turn.payloads)
      ensures payloads.Some? <==> VlsdOf(mode).Some?
      ensures payloads.Some? ==> fresh(payloads.value) && payloads.value.Valid()
                                 && payloads.value.Entries() == Payloads.Numbered(turn.payloads, old(payloadBase))
    {
      hide ValidMode, Taken, Carried, Coming, Range, Payload, Window, Flatten, Turns, Payloads.Numbered, Payloads.Stored;
      var segment := segments[0];
      RangeIsWindow(segment.block, segment.start, segment.len);
      var buffer := carry + Range(segment.block, segment.start, segment.len).value;
      var sent, rest;
      records, whole, sent, rest := TakeRecords(mode, stride, buffer, segment.endsBlock);
      NextWindow(mode, stride, carry, segments);
      NextTurn(mode, stride, carry, segments);
      turn := Turn(Taken(mode, stride, buffer), sent);
      carry, segments := rest, segments[1..];
      payloads := None;
      if VlsdOf(mode).Some? {
        var index, next := Payloads.FromLocated(sent, payloadBase);
        payloads, payloadBase := Some(index), next;
      } else {
        Payloads.NoneNumbered(payloadBase);
      }
    }

    /** The next non-empty chunk. Nothing is lost between chunks: what was pending is `taken` and then what is pending now.
        The payloads are those of the chunk's own window, numbered from where the windows before it left off. */
    method Next() returns (chunk: Option<Chunk>, ghost taken: Records, ghost passed: seq<Turn>)
      requires Valid()
      modifies this
      ensures Valid()
      ensures old(PendingTurns()) == passed + PendingTurns()
      ensures payloadBase == old(payloadBase) + Payloads.Stored(PayloadsOf(passed))
      ensures chunk.Some? ==>
        && passed != [] && taken == passed[|passed| - 1].records && taken != []
        && old(Pending()) == taken + Pending()
        && chunk.value.records == Flatten(taken) && chunk.value.count == Min(|taken|, old(remaining))
        && old(remaining) > 0 && remaining == old(remaining) - chunk.value.count
      ensures chunk.Some? ==> ChunkOf(mode, chunk.value, passed, old(payloadBase))
      ensures chunk.Some? && chunk.value.payloads.Some? ==> fresh(chunk.value.payloads.value)
      ensures chunk.None? ==> remaining == old(remaining) && Pending() == old(Pending()) && (remaining == 0 || Pending() == [])
      ensures chunk.None? ==> NoneBrings(passed) && (remaining == 0 || PendingTurns() == [])
      ensures |segments| < old(|segments|) || chunk.None?
    {
      hide ValidMode, Coming, Flatten, Turns, RecordsOf, PayloadsOf, Payloads.Stored, Payloads.Numbered;
      taken, passed := [], [];
      NoTurns();
      assert [] + PendingTurns() == PendingTurns();
      while remaining > 0
        invariant Valid() && remaining == old(remaining) && Pending() == old(Pending()) && |segments| <= old(|segments|)
        invariant old(PendingTurns()) == passed + PendingTurns() && NoneBrings(passed)
        invariant payloadBase == old(payloadBase) + Payloads.Stored(PayloadsOf(passed))
        decreases |segments|
      {
        if segments == [] {
          NothingComing(mode, stride, carry);
          return None, [], passed;
        }
        var records, whole, payloads, turn := ReadTurn();
        OneMoreTurn(passed, turn);
        Assoc(passed, [turn], PendingTurns());
        passed := passed + [turn];
        if whole > 0 {
          var count := Min(whole, remaining);
          remaining := remaining - count;
          assert passed[..|passed| - 1] + [turn] == passed;
          return Some(Chunk(records, count, payloads)), turn.records, passed;
        }
        assert turn.records == [] && [] + Pending() == Pending();
      }
      chunk := None;
    }
  }

  lemma {:induction false} NoTurns()
    ensures Payloads.Stored(PayloadsOf([])) == 0
  {
  }

  ghost function AllTurns(m: Mode, stride: nat, blocks: seq<Block>): seq<Turn>
    requires AllOpenable(blocks)
  {
    SegmentsReadable(blocks);
    Turns(m, stride, [], SegmentsOf(blocks))
  }

  lemma {:induction false} WindowsReadable(b: Block, start: nat)
    requires Openable(b)
    ensures AllReadable(Windows(b, start))
    decreases b.main.originalSize - start
  {
    if start < b.main.originalSize {
      WindowsReadable(b, start + Min(CHUNK_BUDGET, b.main.originalSize - start));
    }
  }

  lemma {:induction false} SegmentsCons(blocks: seq<Block>)
    requires blocks != []
    ensures SegmentsOf(blocks) == BlockSegments(blocks[0]) + SegmentsOf(blocks[1..])
  {
    assert SegmentParts(blocks) == [BlockSegments(blocks[0])] + SegmentParts(blocks[1..]);
    FlattenCons(BlockSegments(blocks[0]), SegmentParts(blocks[1..]));
  }

  lemma {:induction false} SegmentsReadable(blocks: seq<Block>)
    requires AllOpenable(blocks)
    ensures AllReadable(SegmentsOf(blocks))
  {
    if blocks != [] {
      SegmentsReadable(blocks[1..]);
      WindowsReadable(blocks[0], 0);
      SegmentsCons(blocks);
    }
  }

  // ---------------------------------------------------------------- cutting does not matter

  ghost function Seen(segments: seq<Segment>): seq<byte>
    requires AllReadable(segments)
  {
    if segments == [] then [] else SegmentBytes(segments[0]) + Seen(segments[1..])
  }

  /** Windows of one block: only the last ends it. */
  ghost predicate OneBlock(segments: seq<Segment>) {
    segments != [] && forall i :: 0 <= i < |segments| ==> (segments[i].endsBlock <==> i == |segments| - 1)
  }

  /** Interleaved stream: the windows of a block give the records of the carried bytes and the block together,
      and whatever is left at the block's end is dropped. */
  lemma {:induction false} BlockInWindows(m: Mode, stride: nat, carry: seq<byte>, windows: seq<Segment>, rest: seq<Segment>)
    requires m.Unsorted? && Stable(m.recogniser) && OneBlock(windows) && AllReadable(windows) && AllReadable(rest)
    ensures AllReadable(windows + rest)
    ensures Coming(m, stride, carry, windows + rest)
         == Taken(m, stride, carry + Seen(windows)) + Coming(m, stride, [], rest)
    decreases |windows|
  {
    hide Stable, SegmentBytes, TargetList, Consumed, Coming;
    var first, others := windows[0], windows[1..];
    var buffer := carry + SegmentBytes(first);
    assert (windows + rest)[1..] == others + rest && (windows + rest)[0] == first;
    Assoc(carry, SegmentBytes(first), Seen(others));
    if others == [] {
      assert others + rest == rest;
      assert Seen(windows) == SegmentBytes(first) + [];
      assert carry + Seen(windows) == buffer;
      ComingStep(m, stride, carry, windows + rest, [], rest);
    } else {
      assert OneBlock(others);
      var left := buffer[Consumed(m.recogniser, buffer)..];
      BlockInWindows(m, stride, left, others, rest);
      WalkInPieces(m.recogniser, buffer, Seen(others), m.id, m.idSize);
      Assoc(Taken(m, stride, buffer), Taken(m, stride, left + Seen(others)), Coming(m, stride, [], rest));
      ComingStep(m, stride, carry, windows + rest, left, others + rest);
    }
  }

  lemma {:induction false} ComingStep(m: Mode, stride: nat, carry: seq<byte>, segments: seq<Segment>,
                                      left: seq<byte>, others: seq<Segment>)
    requires AllReadable(segments) && segments != [] && others == segments[1..]
    requires left == Carried(m, stride, carry + SegmentBytes(segments[0]), segments[0].endsBlock)
    ensures Coming(m, stride, carry, segments)
         == Taken(m, stride, carry + SegmentBytes(segments[0])) + Coming(m, stride, left, others)
  {
  }

  /** Fixed-stride stream: a record cut by a window or by a block's end is completed by what follows. */
  lemma {:induction false} SortedInWindows(m: Mode, stride: nat, carry: seq<byte>, segments: seq<Segment>)
    requires m.Sorted? && ValidMode(m, stride) && AllReadable(segments)
    requires Taken(m, stride, carry) == [] && Consumed(Fixed(stride), carry) == 0
    ensures Coming(m, stride, carry, segments) == Taken(m, stride, carry + Seen(segments))
    decreases |segments|
  {
    if segments == [] {
      assert carry + Seen(segments) == carry;
    } else {
      var buffer, others := carry + SegmentBytes(segments[0]), segments[1..];
      var left := buffer[Consumed(Fixed(stride), buffer)..];
      NothingLeft(stride, buffer);
      SortedInWindows(m, stride, left, others);
      WalkInPieces(Fixed(stride), buffer, Seen(others), 0, 0);
      Assoc(carry, SegmentBytes(segments[0]), Seen(others));
      ComingStep(m, stride, carry, segments, left, others);
    }
  }

  lemma {:induction false} NothingLeft(stride: nat, buffer: seq<byte>)
    requires stride > 0
    ensures TargetList(Fixed(stride), buffer[Consumed(Fixed(stride), buffer)..], 0, 0) == []
    ensures Consumed(Fixed(stride), buffer[Consumed(Fixed(stride), buffer)..]) == 0
    decreases |buffer|
  {
    if |buffer| >= stride {
      WalkStep(Fixed(stride), buffer, Found(0, 0, stride), buffer[stride..], 0, 0);
      NothingLeft(stride, buffer[stride..]);
    } else {
      assert buffer[0..] == buffer;
    }
  }

  // ---------------------------------------------------------------- windows show the whole payload, or not

  lemma {:induction false} WindowsSee(b: Block, start: nat)
    requires Openable(b) && start <= b.main.originalSize
    ensures AllReadable(Windows(b, start))
    ensures Seen(Windows(b, start)) == Window(Payload(b).value, start, b.main.originalSize - start)
    ensures start < b.main.originalSize ==> OneBlock(Windows(b, start))
    decreases b.main.originalSize - start
  {
    hide Payload, Window, Seen, OneBlock;
    NothingSeen(b);
    WindowsReadable(b, start);
    var size, payload := b.main.originalSize, Payload(b).value;
    if start < size {
      var len := Min(CHUNK_BUDGET, size - start);
      WindowsSee(b, start + len);
      WindowSplit(payload, start, len, size - start - len);
      WindowsCons(b, start, len);
    }
  }

  lemma {:induction false} NothingSeen(b: Block)
    requires Openable(b)
    ensures Seen([]) == [] && Window(Payload(b).value, b.main.originalSize, 0) == []
  {
    hide Payload;
  }

  lemma {:induction false} WindowsCons(b: Block, start: nat, len: nat)
    requires Openable(b) && start < b.main.originalSize && len == Min(CHUNK_BUDGET, b.main.originalSize - start)
    requires AllReadable(Windows(b, start + len))
    requires start + len < b.main.originalSize ==> OneBlock(Windows(b, start + len))
    ensures AllReadable(Windows(b, start)) && OneBlock(Windows(b, start))
    ensures Seen(Windows(b, start)) == Window(Payload(b).value, start, len) + Seen(Windows(b, start + len))
  {
    hide Openable, Payload, Window;
    var first := Segment(b, start, len, start + len >= b.main.originalSize);
    var later := Windows(b, start + len);
    assert Windows(b, start) == [first] + later && ([first] + later)[1..] == later;
  }

  lemma {:induction false} WindowSplit(s: seq<byte>, start: nat, n: nat, k: nat)
    ensures Window(s, start, n + k) == Window(s, start, n) + Window(s, start + n, k)
  {
    if start + n <= |s| {
      var end := Min(start + n + k, |s|);
      assert s[start..end] == s[start..start + n] + s[start + n..end];
    }
  }

  /** What the windows of a block show of it: its payload, up to the size the index holds. */
  lemma {:induction false} BlockSeen(b: Block)
    requires Openable(b)
    ensures AllReadable(BlockSegments(b)) && OneBlock(BlockSegments(b))
    ensures Seen(BlockSegments(b)) == Window(Payload(b).value, 0, if b.main.originalSize == 0 then 1 else b.main.originalSize)
  {
    var segments := BlockSegments(b);
    if b.main.compressed || b.main.originalSize <= CHUNK_BUDGET {
      assert segments[1..] == [] && Seen(segments[1..]) == [];
      assert Seen(segments) == SegmentBytes(segments[0]) + [];
    } else {
      WindowsSee(b, 0);
    }
  }

  /** The size the index holds covers the payload. It does for every plain block; it does not for a block whose
      invalidation bytes are stored apart, since those lengthen the payload. */
  predicate SizeCovers(b: Block) {
    Payload(b).Ok? && |Payload(b).value| <= if b.main.originalSize == 0 then 1 else b.main.originalSize
  }

  /** A block streams whole exactly when its size covers its payload. */
  lemma {:induction false} BlockSeenWholeExactly(b: Block)
    requires Openable(b)
    ensures AllReadable(BlockSegments(b))
    ensures Seen(BlockSegments(b)) == Payload(b).value <==> SizeCovers(b)
  {
    BlockSeen(b);
  }

  /** A block whose records' invalidation bytes are all stored apart streams whole exactly when there are none. */
  lemma {:induction false} SeparateInvalidationIsCut(b: Block)
    requires Openable(b) && b.invalidation.Some? && b.dataBytes > 0 && b.invalBytes > 0
    requires WholeCycles(b) && |b.main.bytes| == b.main.originalSize
    ensures AllReadable(BlockSegments(b))
    ensures Seen(BlockSegments(b)) == Payload(b).value <==> b.invalidation.value.bytes == []
  {
    hide Seen, BlockSegments, WholeCycles, Payload;
    InterleavingKeepsAllExactly(b);
    BlockSeenWholeExactly(b);
    if b.main.bytes == [] { NoneOfNothing(b); }
  }

  lemma {:induction false} NoneOfNothing(b: Block)
    requires b.invalidation.Some? && b.dataBytes > 0 && b.invalBytes > 0 && WholeCycles(b) && b.main.bytes == []
    ensures b.invalidation.value.bytes == []
  {
    var inval := |b.invalidation.value.bytes|;
    DivUnique(0, b.dataBytes, 0, 0);
    assert inval == inval / b.invalBytes * b.invalBytes + inval % b.invalBytes;
  }
}
