/** How records are put into a stream (`record_bytes`, `record_bytes_multi` of src/write.rs). */
module RecordStream {
  import opened Bytes
  import opened Options
  import opened WriterModel
  import opened Sorting
  import opened Streams

  // ---------------------------------------------------------------- one record

  /** `SampleFormat::encode`: padded with zeros or cut to exactly `width` bytes. */
  function Fit(raw: seq<byte>, width: nat): (s: seq<byte>)
    ensures |s| == width
  {
    if |raw| >= width then raw[..width] else raw + Zeros(width - |raw|)
  }

  /** What a record stores for channel `c`: the sample itself, or where it sits in the signal data. */
  function Stored(c: Channel, i: nat): (s: seq<byte>)
    requires HasSample(c, i)
    ensures |s| == c.format.recordWidth
  {
    if c.format.isVlsd then Le64(|SignalData(c.samples[..i])|) else Fit(c.samples[i], c.format.recordWidth)
  }

  ghost predicate Samples(channels: seq<Channel>, i: nat) {
    forall k :: 0 <= k < |channels| ==> HasSample(channels[k], i)
  }

  predicate HasSample(c: Channel, i: nat) {
    i < |c.samples| && (c.format.isVlsd ==> c.format.recordWidth == 8) && (c.valid.Some? ==> i < |c.valid.value|)
  }

  function StoredParts(channels: seq<Channel>, i: nat): (parts: seq<seq<byte>>)
    requires Samples(channels, i)
    ensures |parts| == |channels|
  {
    seq(|channels|, k requires 0 <= k < |channels| => Stored(channels[k], i))
  }

  /** Every channel's bytes, one after another. */
  function StoredAll(channels: seq<Channel>, i: nat): (s: seq<byte>)
    requires Samples(channels, i)
    ensures |s| == WidthSum(channels)
  {
    StoredWidth(channels, i, |channels|);
    assert channels[..|channels|] == channels && StoredParts(channels, i)[..|channels|] == StoredParts(channels, i);
    Flatten(StoredParts(channels, i))
  }

  lemma {:induction false} StoredWidth(channels: seq<Channel>, i: nat, k: nat)
    requires Samples(channels, i) && k <= |channels|
    ensures |Flatten(StoredParts(channels, i)[..k])| == WidthSum(channels[..k])
  {
    if k > 0 {
      StoredWidth(channels, i, k - 1);
      FlattenNext(StoredParts(channels, i), k - 1);
      assert channels[..k][..k - 1] == channels[..k - 1];
    }
  }

  // ---------------------------------------------------------------- the invalidation area

  /** The area after the first `n` channels have set their bits: bit `b` is bit `b % 8` of byte `b / 8`. */
  function InvalArea(channels: seq<Channel>, i: nat, n: nat): (area: seq<byte>)
    requires Samples(channels, i) && n <= |channels|
    ensures |area| == (ValidityCount(channels) + 7) / 8
  {
    if n == 0 then Zeros((ValidityCount(channels) + 7) / 8)
    else
      var area := InvalArea(channels, i, n - 1);
      var c := channels[n - 1];
      if c.valid.Some? && !c.valid.value[i] then
        var bit := ValidityCount(channels[..n - 1]);
        CountBelow(channels, n - 1);
        area[bit / 8 := ByteWithBit(area[bit / 8], bit % 8)]
      else area
  }

  /** A channel with validity has a bit inside the area. */
  lemma {:induction false} CountBelow(channels: seq<Channel>, k: nat)
    requires k < |channels| && channels[k].valid.Some?
    ensures ValidityCount(channels[..k]) < ValidityCount(channels)
  {
    var last := |channels| - 1;
    if k < last {
      CountBelow(channels[..last], k);
      assert channels[..last][..k] == channels[..k];
    }
  }

  lemma {:induction false} CountGrows(channels: seq<Channel>, j: nat, k: nat)
    requires j < k <= |channels| && channels[j].valid.Some?
    ensures ValidityCount(channels[..j]) < ValidityCount(channels[..k])
  {
    CountBelow(channels[..k], j);
    assert channels[..k][..j] == channels[..j];
  }

  predicate AreaBit(area: seq<byte>, bit: nat) {
    bit / 8 < |area| && BitSet(area[bit / 8], bit % 8)
  }

  lemma {:induction false} ZerosBit(n: nat, k: nat)
    ensures !BitSet(0, k)
  {
    if k != 0 { ZerosBit(n, k - 1); }
  }

  lemma {:induction false} AreaUpdate(area: seq<byte>, other: nat, bit: nat)
    requires other / 8 < |area| && bit / 8 < |area|
    ensures AreaBit(area[other / 8 := ByteWithBit(area[other / 8], other % 8)], bit) <==> bit == other || AreaBit(area, bit)
  {
  }

  /** Bit `b` of the area is set exactly when the channel it belongs to is invalid at sample `i`. */
  lemma {:induction false} InvalAreaBits(channels: seq<Channel>, i: nat, n: nat, k: nat)
    requires Samples(channels, i) && n <= |channels| && k < |channels| && channels[k].valid.Some?
    ensures AreaBit(InvalArea(channels, i, n), ValidityCount(channels[..k])) <==> k < n && !channels[k].valid.value[i]
  {
    var bit := ValidityCount(channels[..k]);
    CountBelow(channels, k);
    if n == 0 {
      ZerosBit(0, bit % 8);
    } else {
      InvalAreaBits(channels, i, n - 1, k);
      if channels[n - 1].valid.Some? {
        var other := ValidityCount(channels[..n - 1]);
        CountBelow(channels, n - 1);
        if k < n - 1 { CountGrows(channels, k, n - 1); } else if n - 1 < k { CountGrows(channels, n - 1, k); }
        assert bit == other <==> k == n - 1;
        AreaUpdate(InvalArea(channels, i, n - 1), other, bit);
      }
    }
  }

  // ---------------------------------------------------------------- one record

  /** The time, each channel in its own width, then the invalidation area. */
  function Record(g: Group, i: nat): (r: seq<byte>)
    requires ValidGroup(g) && i < |g.times|
    ensures |r| == RecordSize(g)
  {
    Le64(g.times[i]) + StoredAll(g.channels, i) + InvalArea(g.channels, i, |g.channels|)
  }

  lemma {:induction false} StoredAt(channels: seq<Channel>, i: nat, k: nat, at: nat, width: nat)
    requires Samples(channels, i) && k < |channels|
    requires at == WidthSum(channels[..k]) && width == channels[k].format.recordWidth
    ensures at + width <= WidthSum(channels) && StoredAll(channels, i)[at..at + width] == Stored(channels[k], i)
  {
    assert |StoredAll(channels, i)| == WidthSum(channels);
    StoredWidth(channels, i, k);
    PartAt(StoredParts(channels, i), k, at, width);
  }

  /** Reading a channel where its CN block says it is gives back what was stored for it. */
  lemma {:induction false} ChannelReadsBack(g: Group, i: nat, k: nat)
    requires ValidGroup(g) && i < |g.times| && k < |g.channels|
    ensures var at, width := ByteOffset(g, k), g.channels[k].format.recordWidth;
            at + width <= DataBytes(g) && Record(g, i)[at..at + width] == Stored(g.channels[k], i)
  {
    var at, width := WidthSum(g.channels[..k]), g.channels[k].format.recordWidth;
    StoredAt(g.channels, i, k, at, width);
    Behind(Le64(g.times[i]), StoredAll(g.channels, i), InvalArea(g.channels, i, |g.channels|), at, at + width);
  }

  /** A place in a record holds a sample: the sample's own bytes, as many as there is room for, and zeros behind them. */
  predicate HoldsSample(place: seq<byte>, sample: seq<byte>) {
    && (forall j :: 0 <= j < |place| && j < |sample| ==> place[j] == sample[j])
    && (forall j :: |sample| <= j < |place| ==> place[j] == 0)
  }

  /** Where a channel that is not of variable length has its place, the record holds its sample. */
  lemma {:induction false} SampleInRecord(g: Group, i: nat, k: nat)
    requires ValidGroup(g) && i < |g.times| && k < |g.channels| && !g.channels[k].format.isVlsd
    ensures var at, width := ByteOffset(g, k), g.channels[k].format.recordWidth;
      at + width <= |Record(g, i)| && HoldsSample(Record(g, i)[at..at + width], g.channels[k].samples[i])
  {
    hide Record;
    ChannelReadsBack(g, i, k);
  }

  /** A sample of a variable-length channel: what a reader files from the channel's signal data holds it under the offset
      that the record has in the channel's place. */
  lemma {:induction false} PayloadOfRecord(g: Group, i: nat, k: nat)
    requires ValidGroup(g) && i < |g.times| && k < |g.channels| && g.channels[k].format.isVlsd
    ensures var at, c := ByteOffset(g, k), g.channels[k];
      && at + 8 <= |Record(g, i)|
      && i < |FromStream(SignalData(c.samples), 0)|
      && FromStream(SignalData(c.samples), 0)[i] == (FromLe(Record(g, i)[at..at + 8]), c.samples[i])
  {
    hide Record, SignalData, FromStream, FromLe;
    var c := g.channels[k];
    ChannelReadsBack(g, i, k);
    SignalDataReadsBack(c.samples, 0);
    SignalDataPrefix(c.samples, i);
    Le64RoundTrip(|SignalData(c.samples[..i])|);
  }

  lemma {:induction false} SignalDataPrefix(samples: seq<seq<byte>>, i: nat)
    requires i <= |samples|
    ensures |SignalData(samples[..i])| <= |SignalData(samples)|
    decreases |samples|
  {
    if i < |samples| {
      SignalDataPrefix(samples[..|samples| - 1], i);
      assert samples[..|samples| - 1][..i] == samples[..i];
    } else {
      assert samples[..i] == samples;
    }
  }

  lemma {:induction false} Behind(a: seq<byte>, b: seq<byte>, c: seq<byte>, from: nat, to: nat)
    requires from <= to <= |b|
    ensures (a + b + c)[|a| + from..|a| + to] == b[from..to]
    ensures (a + b + c)[|a| + |b|..] == c && (a + b + c)[..|a|] == a
  {
  }

  /** The time, and each channel's invalidation bit telling whether its sample counts. */
  lemma {:induction false} RecordReadsBack(g: Group, i: nat, k: nat)
    requires ValidGroup(g) && i < |g.times| && k < |g.channels|
    ensures FromLe(Record(g, i)[..8]) == g.times[i]
    ensures InvalBit(g, k).Some? ==>
      (AreaBit(Record(g, i)[DataBytes(g)..], InvalBit(g, k).value) <==> !g.channels[k].valid.value[i])
  {
    Le64RoundTrip(g.times[i]);
    Behind(Le64(g.times[i]), StoredAll(g.channels, i), InvalArea(g.channels, i, |g.channels|), 0, 0);
    if g.channels[k].valid.Some? { InvalAreaBits(g.channels, i, |g.channels|, k); }
  }

  // ---------------------------------------------------------------- a group as a source of records

  function SourceOf(g: Group): (src: Source)
    requires ValidGroup(g)
    ensures WellSized(src)
  {
    Source(g.times, RecordSize(g), (i: nat) => if i < |g.times| then Record(g, i) else [])
  }

  ghost predicate ValidGroups(groups: seq<Group>) {
    forall k :: 0 <= k < |groups| ==> ValidGroup(groups[k])
  }

  function SourcesOf(groups: seq<Group>): (sources: seq<Source>)
    requires ValidGroups(groups)
    ensures |sources| == |groups| && AllWellSized(sources)
  {
    seq(|groups|, k requires 0 <= k < |groups| => SourceOf(groups[k]))
  }

  // ---------------------------------------------------------------- the writer's loops

  /** What the writer works out about a group before its records: where variable-length samples sit
      in the signal data, and which invalidation bit each channel has. */
  datatype RecordPlan = RecordPlan(vlsdOffsets: seq<Option<seq<nat>>>, invalBits: seq<Option<nat>>)

  ghost predicate Plans(plan: RecordPlan, g: Group) {
    && |plan.vlsdOffsets| == |plan.invalBits| == |g.channels|
    && (forall k :: 0 <= k < |g.channels| ==> plan.vlsdOffsets[k] == ChannelOffsets(g.channels[k]))
    && (forall k :: 0 <= k < |g.channels| ==> plan.invalBits[k] == InvalBit(g, k))
  }

  ghost function ChannelOffsets(c: Channel): Option<seq<nat>> {
    if c.format.isVlsd then Some(SignalOffsets(c.samples)) else None
  }

  method PlanRecords(g: Group) returns (plan: RecordPlan)
    ensures Plans(plan, g)
  {
    var vlsdOffsets := [];
    for k := 0 to |g.channels|
      invariant |vlsdOffsets| == k
      invariant forall j :: 0 <= j < k ==> vlsdOffsets[j] == ChannelOffsets(g.channels[j])
    {
      if g.channels[k].format.isVlsd {
        var data, offsets := BuildSignalData(g.channels[k].samples);
        vlsdOffsets := vlsdOffsets + [Some(offsets)];
      } else {
        vlsdOffsets := vlsdOffsets + [None];
      }
    }
    var invalBits := InvalBitIndices(g);
    plan := RecordPlan(vlsdOffsets, invalBits);
  }

  method EncodeSamples(channels: seq<Channel>, i: nat, vlsdOffsets: seq<Option<seq<nat>>>) returns (r: seq<byte>)
    requires Samples(channels, i) && |vlsdOffsets| == |channels|
    requires forall k :: 0 <= k < |channels| ==> vlsdOffsets[k] == ChannelOffsets(channels[k])
    ensures r == StoredAll(channels, i)
  {
    r := [];
    ghost var parts := StoredParts(channels, i);
    for k := 0 to |channels|
      invariant r == Flatten(parts[..k])
    {
      var c := channels[k];
      FlattenNext(parts, k);
      match vlsdOffsets[k]
      case Some(offsets) => r := r + Le64(offsets[i]);
      case None => r := r + Fit(c.samples[i], c.format.recordWidth);
    }
    assert parts[..|channels|] == parts;
  }

  method EncodeInvalidation(g: Group, i: nat, invalBits: seq<Option<nat>>) returns (inval: seq<byte>)
    requires Samples(g.channels, i) && |invalBits| == |g.channels|
    requires forall k :: 0 <= k < |invalBits| ==> invalBits[k] == InvalBit(g, k)
    ensures inval == InvalArea(g.channels, i, |g.channels|)
  {
    inval := Zeros(InvalBytes(g));
    for k := 0 to |g.channels|
      invariant inval == InvalArea(g.channels, i, k)
    {
      var c := g.channels[k];
      match invalBits[k]
      case Some(bit) =>
        CountBelow(g.channels, k);
        if !c.valid.value[i] {
          inval := inval[bit / 8 := ByteWithBit(inval[bit / 8], bit % 8)];
        }
      case None =>
    }
  }

  /** One record, as the bodies of both loops append it. */
  method EncodeRecord(g: Group, i: nat, plan: RecordPlan) returns (r: seq<byte>)
    requires ValidGroup(g) && i < |g.times| && Plans(plan, g)
    ensures r == Record(g, i)
  {
    var samples := EncodeSamples(g.channels, i, plan.vlsdOffsets);
    var inval := EncodeInvalidation(g, i, plan.invalBits);
    r := Le64(g.times[i]) + samples + inval;
  }

  /** `is_sorted_by`: each timestamp against the next. */
  method IsSorted(times: seq<nat>) returns (sorted: bool)
    ensures sorted <==> SortedBy(Indices(|times|), TimeOrder(times))
  {
    for i := 0 to |times|
      invariant forall a: nat, b: nat :: a < b <= i && b < |times| ==> KeyAt(times, a) <= KeyAt(times, b)
    {
      if i + 1 < |times| {
        assert KeyAt(times, i) == TotalKey(times[i]) && KeyAt(times, i + 1) == TotalKey(times[i + 1]);
        if TotalKey(times[i]) > TotalKey(times[i + 1]) {
          assert !TimeOrder(times)(Indices(|times|)[i], Indices(|times|)[i + 1]);
          return false;
        }
      }
    }
    return true;
  }

  /** The gathering loop of `record_bytes`. */
  method WriteInOrder(g: Group, order: seq<nat>, plan: RecordPlan) returns (buf: seq<byte>)
    requires ValidGroup(g) && (forall k :: 0 <= k < |order| ==> order[k] < |g.times|) && Plans(plan, g)
    ensures buf == Flatten(RecordsAt(SourceOf(g), order))
  {
    buf := [];
    ghost var records := RecordsAt(SourceOf(g), order);
    for n := 0 to |order|
      invariant buf == Flatten(records[..n])
    {
      FlattenNext(records, n);
      var r := EncodeRecord(g, order[n], plan);
      buf := buf + r;
    }
    assert records[..|order|] == records;
  }

  method WriteRecords(g: Group) returns (buf: seq<byte>)
    requires ValidGroup(g)
    ensures buf == RecordBytes(SourceOf(g))
  {
    var order := Indices(|g.times|);
    var sorted := IsSorted(g.times);
    if sorted {
      SortOfSorted(order, TimeOrder(g.times));
    } else {
      order := SortedOrder(g.times);
    }
    var plan := PlanRecords(g);
    buf := WriteInOrder(g, order, plan);
  }

  method CollectRefs(groups: seq<Group>) returns (samples: seq<SampleRef>, plans: seq<RecordPlan>)
    requires ValidGroups(groups)
    ensures samples == AllRefs(SourcesOf(groups))
    ensures |plans| == |groups| && forall k :: 0 <= k < |groups| ==> Plans(plans[k], groups[k])
  {
    samples, plans := [], [];
    ghost var sources := SourcesOf(groups);
    for n := 0 to |groups|
      invariant samples == AllRefs(sources[..n])
      invariant |plans| == n && forall k :: 0 <= k < n ==> Plans(plans[k], groups[k])
    {
      assert sources[..n + 1][..n] == sources[..n];
      samples := samples + GroupRefs(groups[n].times, n);
      var plan := PlanRecords(groups[n]);
      plans := plans + [plan];
    }
    assert sources[..|groups|] == sources;
  }

  method WriteOneTagged(groups: seq<Group>, sample: SampleRef, plans: seq<RecordPlan>) returns (r: seq<byte>)
    requires ValidGroups(groups) && RefersInto(sample, SourcesOf(groups))
    requires |plans| == |groups| && forall k :: 0 <= k < |groups| ==> Plans(plans[k], groups[k])
    ensures r == Tagged(SourcesOf(groups), sample)
  {
    var group := groups[sample.group];
    var recordId := (sample.group + 1) % 256;
    var record := EncodeRecord(group, sample.sample, plans[sample.group]);
    r := [recordId] + record;
  }

  method WriteTagged(groups: seq<Group>, samples: seq<SampleRef>, plans: seq<RecordPlan>) returns (buf: seq<byte>)
    requires ValidGroups(groups) && AllReferInto(samples, SourcesOf(groups))
    requires |plans| == |groups| && forall k :: 0 <= k < |groups| ==> Plans(plans[k], groups[k])
    ensures buf == Flatten(TaggedAll(SourcesOf(groups), samples))
  {
    buf := [];
    ghost var records := TaggedAll(SourcesOf(groups), samples);
    for n := 0 to |samples|
      invariant buf == Flatten(records[..n])
    {
      FlattenNext(records, n);
      var r := WriteOneTagged(groups, samples[n], plans);
      buf := buf + r;
    }
    assert records[..|samples|] == records;
  }

  method WriteRecordsMulti(groups: seq<Group>) returns (buf: seq<byte>)
    requires ValidGroups(groups)
    ensures buf == StreamBytes(SourcesOf(groups))
  {
    if groups == [] { return []; }
    if |groups| == 1 {
      buf := WriteRecords(groups[0]);
      return;
    }
    var samples, plans := CollectRefs(groups);
    samples := Sort(samples, RefOrder());
    assert samples == Interleaved(SourcesOf(groups));
    buf := WriteTagged(groups, samples, plans);
  }
}
