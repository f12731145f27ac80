/** The order records go into a stream in, and what that order looks like from one group (src/write.rs). */
module Streams {
  import opened Bytes
  import opened Sorting

  // ---------------------------------------------------------------- order of records

  /** The order `f64::total_cmp` puts bit patterns in. */
  function TotalKey(bits: nat): int {
    if bits < 0x8000_0000_0000_0000 then bits else 0x7FFF_FFFF_FFFF_FFFF - bits
  }

  function KeyAt(times: seq<nat>, i: nat): int {
    if i < |times| then TotalKey(times[i]) else 0
  }

  function TimeOrder(times: seq<nat>): (nat, nat) -> bool {
    (a: nat, b: nat) => KeyAt(times, a) <= KeyAt(times, b)
  }

  function Indices(n: nat): (s: seq<nat>)
    ensures |s| == n && forall i :: 0 <= i < n ==> s[i] == i
  {
    seq(n, i => i)
  }

  /** `sorted_order`: sample indices by time, equal times in the order they were appended. */
  function SortedOrder(times: seq<nat>): (order: seq<nat>)
    ensures forall k :: 0 <= k < |order| ==> order[k] < |times|
    ensures |order| == |times|
  {
    SortElements(Indices(|times|), TimeOrder(times));
    Sort(Indices(|times|), TimeOrder(times))
  }

  /** One group as the stream sees it: its times, and the fixed-size record of each sample. */
  datatype Source = Source(times: seq<nat>, size: nat, record: nat -> seq<byte>)

  ghost predicate WellSized(src: Source) {
    src.size > 0 && forall i: nat :: i < |src.times| ==> |src.record(i)| == src.size
  }

  ghost predicate AllWellSized(sources: seq<Source>) {
    forall k :: 0 <= k < |sources| ==> WellSized(sources[k])
  }

  function RecordsAt(src: Source, order: seq<nat>): (records: seq<seq<byte>>)
    ensures |records| == |order|
  {
    seq(|order|, n requires 0 <= n < |order| => src.record(order[n]))
  }

  /** What `record_bytes` promises: the group's records, sorted by time. */
  function RecordBytes(src: Source): seq<byte> {
    Flatten(RecordsAt(src, SortedOrder(src.times)))
  }

  datatype SampleRef = SampleRef(time: nat, group: nat, sample: nat)

  /** By time, then by group, then by sample. */
  predicate RefLe(a: SampleRef, b: SampleRef) {
    var x, y := TotalKey(a.time), TotalKey(b.time);
    x < y || (x == y && (a.group < b.group || (a.group == b.group && a.sample <= b.sample)))
  }

  function RefOrder(): (SampleRef, SampleRef) -> bool {
    (a, b) => RefLe(a, b)
  }

  function GroupRefs(times: seq<nat>, group: nat): (refs: seq<SampleRef>)
    ensures |refs| == |times|
  {
    seq(|times|, i requires 0 <= i < |times| => SampleRef(times[i], group, i))
  }

  function AllRefs(sources: seq<Source>): seq<SampleRef> {
    if sources == [] then [] else AllRefs(sources[..|sources| - 1]) + GroupRefs(sources[|sources| - 1].times, |sources| - 1)
  }

  ghost predicate RefersInto(ref: SampleRef, sources: seq<Source>) {
    && ref.group < |sources| && ref.sample < |sources[ref.group].times|
    && ref.time == sources[ref.group].times[ref.sample]
  }

  ghost predicate AllReferInto(refs: seq<SampleRef>, sources: seq<Source>) {
    forall k :: 0 <= k < |refs| ==> RefersInto(refs[k], sources)
  }

  /** A record behind its one-byte record ID. */
  function Tagged(sources: seq<Source>, ref: SampleRef): seq<byte>
    requires RefersInto(ref, sources)
  {
    [(ref.group + 1) % 256] + sources[ref.group].record(ref.sample)
  }

  function TaggedAll(sources: seq<Source>, refs: seq<SampleRef>): (records: seq<seq<byte>>)
    requires AllReferInto(refs, sources)
    ensures |records| == |refs|
  {
    seq(|refs|, n requires 0 <= n < |refs| => Tagged(sources, refs[n]))
  }

  lemma {:induction false} AllRefsReferInto(sources: seq<Source>, n: nat)
    requires n <= |sources|
    ensures AllReferInto(AllRefs(sources[..n]), sources)
  {
    if n > 0 {
      AllRefsReferInto(sources, n - 1);
      assert sources[..n][..n - 1] == sources[..n - 1];
    }
  }

  function Interleaved(sources: seq<Source>): (refs: seq<SampleRef>)
    ensures AllReferInto(refs, sources)
  {
    AllRefsReferInto(sources, |sources|);
    assert sources[..|sources|] == sources;
    SortElements(AllRefs(sources), RefOrder());
    Sort(AllRefs(sources), RefOrder())
  }

  /** What `record_bytes_multi` writes for a data group. */
  function StreamBytes(sources: seq<Source>): seq<byte> {
    if sources == [] then [] else if |sources| == 1 then RecordBytes(sources[0])
    else Flatten(TaggedAll(sources, Interleaved(sources)))
  }

  // ---------------------------------------------------------------- interleaving projects to each group

  function OfGroup(group: nat): SampleRef -> bool {
    (r: SampleRef) => r.group == group
  }

  lemma {:induction false} RefOrderIsTotal()
    ensures TotalPreorder(RefOrder())
  {
  }

  lemma {:induction false} FilterAppend<T>(a: seq<T>, b: seq<T>, keep: T -> bool)
    ensures Filter(a + b, keep) == Filter(a, keep) + Filter(b, keep)
  {
    if a == [] {
      assert a + b == b;
    } else {
      FilterAppend(a[1..], b, keep);
      assert (a + b)[1..] == a[1..] + b;
    }
  }

  lemma {:induction false} FilterUniform<T>(s: seq<T>, keep: T -> bool, all: bool)
    requires forall x :: x in s ==> keep(x) == all
    ensures Filter(s, keep) == if all then s else []
  {
    if s != [] { FilterUniform(s[1..], keep, all); }
  }

  /** Group `group`'s share of all the samples is its own samples, in order. */
  lemma {:induction false} RefsOfGroup(sources: seq<Source>, n: nat, group: nat)
    requires n <= |sources|
    ensures Filter(AllRefs(sources[..n]), OfGroup(group)) == if group < n then GroupRefs(sources[group].times, group) else []
  {
    hide AllRefs, Filter;
    NoRefs(sources, group);
    if n > 0 {
      var before, last := AllRefs(sources[..n - 1]), GroupRefs(sources[n - 1].times, n - 1);
      RefsOfGroup(sources, n - 1, group);
      NextRefs(sources, n);
      FilterAppend(before, last, OfGroup(group));
      FilterUniform(last, OfGroup(group), n - 1 == group);
      assert before + [] == before && [] + last == last;
    }
  }

  lemma {:induction false} NoRefs(sources: seq<Source>, group: nat)
    ensures Filter(AllRefs(sources[..0]), OfGroup(group)) == []
  {
  }

  lemma {:induction false} NextRefs(sources: seq<Source>, n: nat)
    requires 0 < n <= |sources|
    ensures AllRefs(sources[..n]) == AllRefs(sources[..n - 1]) + GroupRefs(sources[n - 1].times, n - 1)
  {
    assert sources[..n][..n - 1] == sources[..n - 1];
  }

  /** Records of all groups follow each other in order of time, those of one time in order of group and then as appended, and
      every sample has its record. */
  lemma {:induction false} InterleavedInOrder(sources: seq<Source>, k: nat, m: nat)
    requires k < m < |Interleaved(sources)|
    ensures var a, b := Interleaved(sources)[k], Interleaved(sources)[m];
      && TotalKey(a.time) <= TotalKey(b.time)
      && (TotalKey(a.time) == TotalKey(b.time) ==> a.group <= b.group && (a.group == b.group ==> a.sample <= b.sample))
    ensures multiset(Interleaved(sources)) == multiset(AllRefs(sources))
  {
    hide TotalKey;
    RefOrderIsTotal();
    SortSorts(AllRefs(sources), RefOrder());
    SortContents(AllRefs(sources), RefOrder());
    var a, b := Interleaved(sources)[k], Interleaved(sources)[m];
    assert RefOrder()(a, b);
  }

  function RefAt(times: seq<nat>, group: nat): nat -> SampleRef {
    (i: nat) => SampleRef(if i < |times| then times[i] else 0, group, i)
  }

  /** The (time, group, sample) sort, seen from one group, is that group's own stable time sort. */
  lemma {:induction false} InterleavingProjects(sources: seq<Source>, group: nat)
    requires group < |sources|
    ensures Filter(Interleaved(sources), OfGroup(group))
         == Map(SortedOrder(sources[group].times), RefAt(sources[group].times, group))
  {
    var times := sources[group].times;
    RefOrderIsTotal();
    SortFilter(AllRefs(sources), OfGroup(group), RefOrder());
    assert sources[..|sources|] == sources;
    RefsOfGroup(sources, |sources|, group);
    assert GroupRefs(times, group) == Map(Indices(|times|), RefAt(times, group));
    SortMap(Indices(|times|), RefAt(times, group), TimeOrder(times), RefOrder());
  }
}
