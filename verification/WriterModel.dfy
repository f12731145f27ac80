/** The measurement a writer holds (`WriteChannel`, `WriteGroup` of src/write.rs). */
module WriterModel {
  import opened Bytes
  import opened Options

  type Text = seq<byte>

  /** The block a conversion needs, as `CcPlan::of` plans it; numbers are f64 bit patterns. */
  datatype CcPlan = CcPlan(ccType: byte, values: seq<nat>, refs: seq<Option<Text>>)

  /** How one channel's samples sit in a record. */
  datatype SampleFormat = SampleFormat(dataType: byte, width: nat, recordWidth: nat, isVlsd: bool)

  /** One channel; `samples[i]` is sample `i` in its own little-endian bytes, before padding. */
  datatype Channel = Channel(name: Text, unit: Text, comment: Text, samples: seq<seq<byte>>, valid: Option<seq<bool>>,
                             plan: Option<CcPlan>, format: SampleFormat, shape: Option<seq<nat>>)

  /** One channel group; `times[i]` is the f64 bit pattern of the i-th timestamp. */
  datatype Group = Group(times: seq<nat>, channels: seq<Channel>, dgId: nat)

  /** What `add_channel_internal` and `SampleFormat::of` make sure of for a channel of `n` samples. */
  predicate ValidChannel(c: Channel, n: nat) {
    && |c.samples| == n
    && (c.valid.Some? ==> |c.valid.value| == n)
    && (c.format.isVlsd ==> c.format.recordWidth == 8 && forall s :: s in c.samples ==> |s| < 0x1_0000_0000)
    && (c.format.isVlsd ==> |SignalData(c.samples)| < U64_LIMIT)
  }

  predicate ValidGroup(g: Group) {
    && (forall i :: 0 <= i < |g.times| ==> g.times[i] < U64_LIMIT)
    && (forall k :: 0 <= k < |g.channels| ==> ValidChannel(g.channels[k], |g.times|))
  }

  // ---------------------------------------------------------------- variable-length samples

  function Prefixed(sample: seq<byte>): seq<byte> {
    Le(|sample|, 4) + sample
  }

  /** The `##SD` payload: every sample behind its length. */
  function SignalData(samples: seq<seq<byte>>): seq<byte> {
    if samples == [] then [] else SignalData(samples[..|samples| - 1]) + Prefixed(samples[|samples| - 1])
  }

  /** Where each sample's length prefix sits in the signal data. */
  function SignalOffsets(samples: seq<seq<byte>>): (offsets: seq<nat>)
    ensures |offsets| == |samples|
  {
    seq(|samples|, i requires 0 <= i < |samples| => |SignalData(samples[..i])|)
  }

  /** `build_sd_data`. */
  method BuildSignalData(samples: seq<seq<byte>>) returns (data: seq<byte>, offsets: seq<nat>)
    ensures data == SignalData(samples) && offsets == SignalOffsets(samples)
  {
    data, offsets := [], [];
    for i := 0 to |samples|
      invariant data == SignalData(samples[..i])
      invariant |offsets| == i && forall j :: 0 <= j < i ==> offsets[j] == |SignalData(samples[..j])|
    {
      assert samples[..i + 1][..i] == samples[..i];
      offsets := offsets + [|data|];
      data := data + Prefixed(samples[i]);
    }
    assert samples[..|samples|] == samples;
  }

  /** The payloads `VlsdPayloads::from_stream` finds, each with the stream offset it is filed under. */
  function FromStream(stream: seq<byte>, base: nat): seq<(nat, seq<byte>)> {
    if |stream| < 4 then [] else
      var len := FromLe(stream[..4]);
      if |stream| < 4 + len then []
      else [(base, stream[4..4 + len])] + FromStream(stream[4 + len..], base + 4 + len)
  }

  ghost function Filed(samples: seq<seq<byte>>, base: nat): seq<(nat, seq<byte>)> {
    seq(|samples|, i requires 0 <= i < |samples| => (base + |SignalData(samples[..i])|, samples[i]))
  }

  lemma {:induction false} SignalDataCons(first: seq<byte>, rest: seq<seq<byte>>)
    ensures SignalData([first] + rest) == Prefixed(first) + SignalData(rest)
  {
    hide Prefixed;
    var all := [first] + rest;
    if rest == [] {
      assert all[..0] == [] && SignalData([]) == [];
      assert SignalData(all) == SignalData(all[..0]) + Prefixed(first);
    } else {
      var n := |rest| - 1;
      SignalDataCons(first, rest[..n]);
      assert all[..|all| - 1] == [first] + rest[..n];
      Assoc(Prefixed(first), SignalData(rest[..n]), Prefixed(rest[n]));
    }
  }

  lemma {:induction false} FiledCons(first: seq<byte>, rest: seq<seq<byte>>, base: nat)
    ensures Filed([first] + rest, base) == [(base, first)] + Filed(rest, base + 4 + |first|)
  {
    var all := [first] + rest;
    forall i | 0 < i < |all| ensures Filed(all, base)[i] == Filed(rest, base + 4 + |first|)[i - 1] {
      assert all[..i] == [first] + rest[..i - 1];
      SignalDataCons(first, rest[..i - 1]);
    }
  }

  lemma {:induction false} PrefixedReadsBack(sample: seq<byte>, rest: seq<byte>, base: nat)
    requires |sample| < 0x1_0000_0000
    ensures FromStream(Prefixed(sample) + rest, base) == [(base, sample)] + FromStream(rest, base + 4 + |sample|)
  {
    var data := Prefixed(sample) + rest;
    assert Power256(4) == 0x1_0000_0000;
    LeRoundTrip(|sample|, 4);
    assert data[..4] == Le(|sample|, 4);
    assert data[4..4 + |sample|] == sample;
    assert data[4 + |sample|..] == rest;
  }

  /** The reader finds every sample the writer stored, under the offset the record carries. */
  lemma {:induction false} SignalDataReadsBack(samples: seq<seq<byte>>, base: nat)
    requires forall s :: s in samples ==> |s| < 0x1_0000_0000
    ensures FromStream(SignalData(samples), base) == Filed(samples, base)
  {
    if samples != [] {
      var first, rest := samples[0], samples[1..];
      assert samples == [first] + rest;
      SignalDataCons(first, rest);
      PrefixedReadsBack(first, SignalData(rest), base);
      SignalDataReadsBack(rest, base + 4 + |first|);
      FiledCons(first, rest, base);
    }
  }

  // ---------------------------------------------------------------- record layout

  /** Rust's `div_ceil(8)` over the channels that carry validity. */
  function ValidityCount(channels: seq<Channel>): nat {
    if channels == [] then 0
    else ValidityCount(channels[..|channels| - 1]) + if channels[|channels| - 1].valid.Some? then 1 else 0
  }

  function InvalBytes(g: Group): nat {
    (ValidityCount(g.channels) + 7) / 8
  }

  function WidthSum(channels: seq<Channel>): nat {
    if channels == [] then 0
    else WidthSum(channels[..|channels| - 1]) + channels[|channels| - 1].format.recordWidth
  }

  /** Bytes of samples per record: the float64 master, then each channel at its own width. */
  function DataBytes(g: Group): nat {
    8 + WidthSum(g.channels)
  }

  function RecordSize(g: Group): nat {
    DataBytes(g) + InvalBytes(g)
  }

  /** `byte_offsets`: each channel's place in a record, as a running total. */
  method ByteOffsets(g: Group) returns (offsets: seq<nat>)
    ensures |offsets| == |g.channels|
    ensures forall k :: 0 <= k < |offsets| ==> offsets[k] == ByteOffset(g, k)
  {
    var next := 8;
    offsets := [];
    for k := 0 to |g.channels|
      invariant next == 8 + WidthSum(g.channels[..k])
      invariant |offsets| == k && forall j :: 0 <= j < k ==> offsets[j] == ByteOffset(g, j)
    {
      assert g.channels[..k + 1][..k] == g.channels[..k];
      offsets := offsets + [next];
      next := next + g.channels[k].format.recordWidth;
    }
  }

  function ByteOffset(g: Group, k: nat): nat
    requires k < |g.channels|
  {
    8 + WidthSum(g.channels[..k])
  }

  /** `inval_bit_indices`: a bit for each channel that carries validity, in channel order. */
  method InvalBitIndices(g: Group) returns (bits: seq<Option<nat>>)
    ensures |bits| == |g.channels|
    ensures forall k :: 0 <= k < |bits| ==> bits[k] == InvalBit(g, k)
  {
    var nextBit := 0;
    bits := [];
    for k := 0 to |g.channels|
      invariant nextBit == ValidityCount(g.channels[..k])
      invariant |bits| == k && forall j :: 0 <= j < k ==> bits[j] == InvalBit(g, j)
    {
      assert g.channels[..k + 1][..k] == g.channels[..k];
      if g.channels[k].valid.Some? {
        bits := bits + [Some(nextBit)];
        nextBit := nextBit + 1;
      } else {
        bits := bits + [None];
      }
    }
  }

  function InvalBit(g: Group, k: nat): Option<nat>
    requires k < |g.channels|
  {
    if g.channels[k].valid.Some? then Some(ValidityCount(g.channels[..k])) else None
  }
}
