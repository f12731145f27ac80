/** Time axes (src/time_ops.rs): the check of a master axis, slicing, holding, and the union of two axes. */
module TimeAxis {
  import opened Options

  /** A timestamp of a master channel as it is read: a number, or NaN or an infinity. */
  datatype Stamp = Finite(t: real) | NonFinite

  ghost predicate NonDecreasing(s: seq<real>) {
    forall i, j :: 0 <= i < j < |s| ==> s[i] <= s[j]
  }

  ghost predicate Increasing(s: seq<real>) {
    forall i, j :: 0 <= i < j < |s| ==> s[i] < s[j]
  }

  // ---------------------------------------------------------------- `validate_master_axis`

  datatype AxisError = LengthMismatch | InvalidStamp(at: nat) | NonFiniteStamp(at: nat) | DecreasingStamp(at: nat)

  /** What is wrong with one timestamp, if anything. */
  function StampFault(stamp: Stamp, valid: bool, previous: Option<real>, at: nat): Option<AxisError> {
    if !valid then Some(InvalidStamp(at))
    else if stamp.NonFinite? then Some(NonFiniteStamp(at))
    else if previous.Some? && stamp.t < previous.value then Some(DecreasingStamp(at))
    else None
  }

  /** The first fault on an axis, `previous` being the timestamp before it. */
  function FirstFault(stamps: seq<Stamp>, valid: seq<bool>, previous: Option<real>, at: nat): Option<AxisError>
    requires |valid| == |stamps|
  {
    if stamps == [] then None
    else
      var fault := StampFault(stamps[0], valid[0], previous, at);
      if fault.Some? then fault else FirstFault(stamps[1..], valid[1..], Some(stamps[0].t), at + 1)
  }

  function AllTrue(n: nat): (s: seq<bool>)
    ensures |s| == n
  {
    seq(n, _ => true)
  }

  /** `validate_master_axis`. */
  method ValidateAxis(stamps: seq<Stamp>, validity: Option<seq<bool>>, offset: nat, previous: Option<real>)
    returns (fault: Option<AxisError>)
    ensures validity.Some? && |validity.value| != |stamps| ==> fault == Some(LengthMismatch)
    ensures validity.Some? && |validity.value| == |stamps| ==> fault == FirstFault(stamps, validity.value, previous, offset)
    ensures validity.None? ==> fault == FirstFault(stamps, AllTrue(|stamps|), previous, offset)
  {
    if validity.Some? && |validity.value| != |stamps| { return Some(LengthMismatch); }
    var last := previous;
    ghost var valid := if validity.Some? then validity.value else AllTrue(|stamps|);
    for index := 0 to |stamps|
      invariant FirstFault(stamps, valid, previous, offset) == FirstFault(stamps[index..], valid[index..], last, offset + index)
    {
      assert stamps[index..][1..] == stamps[index + 1..] && valid[index..][1..] == valid[index + 1..];
      fault := StampFault(stamps[index], validity.None? || validity.value[index], last, offset + index);
      if fault.Some? { return; }
      last := Some(stamps[index].t);
    }
    fault := None;
  }

  /** The timestamp that comes before what follows these. */
  function LastStamp(stamps: seq<Stamp>, previous: Option<real>): Option<real> {
    if stamps == [] then previous else LastStamp(stamps[1..], if stamps[0].Finite? then Some(stamps[0].t) else previous)
  }

  /** Checking an axis chunk by chunk, each with the last timestamp of the one before, finds the fault the whole axis has. */
  lemma {:induction false} ChunksCheckTheWhole(a: seq<Stamp>, va: seq<bool>, b: seq<Stamp>, vb: seq<bool>, previous: Option<real>, at: nat)
    requires |va| == |a| && |vb| == |b|
    ensures FirstFault(a + b, va + vb, previous, at)
         == if FirstFault(a, va, previous, at).Some? then FirstFault(a, va, previous, at)
            else FirstFault(b, vb, LastStamp(a, previous), at + |a|)
    decreases |a|
  {
    if a == [] {
      assert a + b == b && va + vb == vb;
    } else {
      assert (a + b)[1..] == a[1..] + b && (va + vb)[1..] == va[1..] + vb;
      if StampFault(a[0], va[0], previous, at).None? {
        ChunksCheckTheWhole(a[1..], va[1..], b, vb, Some(a[0].t), at + 1);
      }
    }
  }

  /** Every timestamp is valid and finite, and none is below one before it. */
  ghost predicate SoundAxis(stamps: seq<Stamp>, valid: seq<bool>, previous: Option<real>)
    requires |valid| == |stamps|
  {
    && (forall i :: 0 <= i < |stamps| ==> valid[i] && stamps[i].Finite?)
    && (forall i, j :: 0 <= i < j < |stamps| ==> stamps[i].t <= stamps[j].t)
    && (forall i :: 0 <= i < |stamps| && previous.Some? ==> previous.value <= stamps[i].t)
  }

  lemma {:induction false} SoundStep(stamps: seq<Stamp>, valid: seq<bool>, previous: Option<real>, at: nat)
    requires |valid| == |stamps| && stamps != []
    ensures SoundAxis(stamps, valid, previous) <==>
      StampFault(stamps[0], valid[0], previous, at).None? && SoundAxis(stamps[1..], valid[1..], Some(stamps[0].t))
  {
    var rest, flags := stamps[1..], valid[1..];
    if StampFault(stamps[0], valid[0], previous, at).None? && SoundAxis(rest, flags, Some(stamps[0].t)) {
      forall i | 0 <= i < |stamps| ensures valid[i] && stamps[i].Finite? && stamps[0].t <= stamps[i].t {
        if i > 0 { assert rest[i - 1] == stamps[i] && flags[i - 1] == valid[i]; }
      }
      forall i, j | 0 <= i < j < |stamps| ensures stamps[i].t <= stamps[j].t {
        if i > 0 { assert rest[i - 1] == stamps[i] && rest[j - 1] == stamps[j]; }
      }
    }
  }

  /** An axis passes exactly when it is sound. */
  lemma {:induction false} PassesExactly(stamps: seq<Stamp>, valid: seq<bool>, previous: Option<real>, at: nat)
    requires |valid| == |stamps|
    ensures FirstFault(stamps, valid, previous, at).None? <==> SoundAxis(stamps, valid, previous)
  {
    if stamps != [] {
      SoundStep(stamps, valid, previous, at);
      if StampFault(stamps[0], valid[0], previous, at).None? { PassesExactly(stamps[1..], valid[1..], Some(stamps[0].t), at + 1); }
    }
  }

  // ---------------------------------------------------------------- `partition_point`, `cut`, `step_hold_index`

  /** How many timestamps are below `t` (or, with `orAt`, not above it), by bisection. */
  method PartitionPoint(times: seq<real>, t: real, orAt: bool) returns (n: nat)
    requires NonDecreasing(times)
    ensures n <= |times|
    ensures forall k :: 0 <= k < |times| ==> (k < n <==> times[k] < t || (orAt && times[k] == t))
  {
    var lo, hi := 0, |times|;
    while lo < hi
      invariant lo <= hi <= |times|
      invariant forall k :: 0 <= k < lo ==> times[k] < t || (orAt && times[k] == t)
      invariant forall k :: hi <= k < |times| ==> !(times[k] < t || (orAt && times[k] == t))
    {
      var mid := (lo + hi) / 2;
      if times[mid] < t || (orAt && times[mid] == t) { lo := mid + 1; } else { hi := mid; }
    }
    n := lo;
  }

  lemma {:induction false} EndsInOrder(times: seq<real>, start: real, end: real, from: nat, to: nat)
    requires from <= |times| && to <= |times| && start <= end
    requires forall k :: 0 <= k < |times| ==> (k < from <==> times[k] < start)
    requires forall k :: 0 <= k < |times| ==> (k < to <==> times[k] < end || times[k] == end)
    ensures from <= to
  {
    if from > 0 { assert times[from - 1] < start; }
  }

  /** `SignalSeries::cut`: the samples kept are the ones whose timestamps are in the closed interval. */
  method Cut(times: seq<real>, start: real, end: real) returns (from: nat, to: nat)
    requires NonDecreasing(times)
    ensures from <= to <= |times|
    ensures forall k :: 0 <= k < |times| ==> (from <= k < to <==> start <= times[k] <= end)
  {
    if start > end || times == [] { return 0, 0; }
    from := PartitionPoint(times, start, false);
    to := PartitionPoint(times, end, true);
    EndsInOrder(times, start, end, from, to);
  }

  /** `step_hold_index`: the last sample that is not after `t`; the first when there is none. */
  method StepHoldIndex(times: seq<real>, t: real) returns (k: nat)
    requires NonDecreasing(times)
    ensures times == [] ==> k == 0
    ensures times != [] ==> k < |times| && (k > 0 ==> times[k] <= t) && forall j :: k < j < |times| ==> times[j] > t
  {
    if times == [] { return 0; }
    var index := PartitionPoint(times, t, true);
    k := if index == 0 then 0 else index - 1;
  }

  // ---------------------------------------------------------------- `union_timestamps_in_range`

  /** The timestamps taken over so far, from `a[..i]` and `b[..j]`. */
  ghost predicate Merged(out: seq<real>, a: seq<real>, i: nat, b: seq<real>, j: nat, start: real, end: real)
    requires i <= |a| && j <= |b|
  {
    && out != [] && out[0] == start && Increasing(out)
    && (forall t :: t in out <==> t == start || (start < t < end && (t in a[..i] || t in b[..j])))
    && (forall k :: i <= k < |a| ==> a[k] >= out[|out| - 1])
    && (forall k :: j <= k < |b| ==> b[k] >= out[|out| - 1])
  }

  lemma {:induction false} PrefixGrows(s: seq<real>, i: nat)
    requires i < |s|
    ensures forall t :: t in s[..i + 1] <==> t in s[..i] || t == s[i]
  {
    assert s[..i + 1] == s[..i] + [s[i]];
  }

  /** Takes one timestamp over, unless it is out of range or there already. */
  method Take(out: seq<real>, t: real, start: real, end: real) returns (out': seq<real>)
    requires out != [] && out[0] == start && Increasing(out) && t >= out[|out| - 1]
    requires forall x :: x in out ==> x == start || start < x < end
    ensures out' != [] && out'[0] == start && Increasing(out') && t >= out'[|out'| - 1] >= out[|out| - 1]
    ensures forall x :: x in out' <==> x in out || (x == t && start < t < end)
  {
    out' := out;
    if t > start && t < end && out[|out| - 1] != t {
      out' := out + [t];
    } else if start < t < end {
      assert out[|out| - 1] in out;
    }
  }

  lemma {:induction false} MoveOn(out: seq<real>, out': seq<real>, a: seq<real>, i: nat, i': nat, b: seq<real>, j: nat, j': nat,
                                  t: real, start: real, end: real)
    requires i <= i' <= |a| && j <= j' <= |b| && i' <= i + 1 && j' <= j + 1 && (i < i' || j < j')
    requires NonDecreasing(a) && NonDecreasing(b) && Merged(out, a, i, b, j, start, end)
    requires i < i' ==> a[i] == t
    requires j < j' ==> b[j] == t
    requires i < |a| && i == i' ==> a[i] >= t
    requires j < |b| && j == j' ==> b[j] >= t
    requires out' != [] && out'[0] == start && Increasing(out') && t >= out'[|out'| - 1] >= out[|out| - 1]
    requires forall x :: x in out' <==> x in out || (x == t && start < t < end)
    ensures Merged(out', a, i', b, j', start, end)
  {
    if i < i' { PrefixGrows(a, i); }
    if j < j' { PrefixGrows(b, j); }
    forall k | i' <= k < |a| ensures a[k] >= out'[|out'| - 1] {
      assert a[k] >= a[i];
    }
    forall k | j' <= k < |b| ensures b[k] >= out'[|out'| - 1] {
      assert b[k] >= b[j];
    }
  }

  /** The merge loop. */
  method MergeBoth(out: seq<real>, a: seq<real>, i: nat, b: seq<real>, j: nat, start: real, end: real)
    returns (out': seq<real>, i': nat, j': nat)
    requires NonDecreasing(a) && NonDecreasing(b) && i <= |a| && j <= |b| && Merged(out, a, i, b, j, start, end)
    ensures i <= i' <= |a| && j <= j' <= |b| && Merged(out', a, i', b, j', start, end)
    ensures i' < |a| && j' < |b| ==> a[i'] > end && b[j'] > end
  {
    hide Merged, Increasing;
    out', i', j' := out, i, j;
    while i' < |a| && j' < |b|
      invariant i <= i' <= |a| && j <= j' <= |b| && Merged(out', a, i', b, j', start, end)
      decreases |a| - i' + |b| - j'
    {
      var ta, tb := a[i'], b[j'];
      if ta > end && tb > end { return; }
      var t := if ta < tb then ta else tb;
      MergedParts(out', a, i', b, j', start, end);
      var more := Take(out', t, start, end);
      var nextI := if ta <= tb then i' + 1 else i';
      var nextJ := if tb <= ta then j' + 1 else j';
      MoveOn(out', more, a, i', nextI, b, j', nextJ, t, start, end);
      out', i', j' := more, nextI, nextJ;
    }
  }

  lemma {:induction false} MergedParts(out: seq<real>, a: seq<real>, i: nat, b: seq<real>, j: nat, start: real, end: real)
    requires i <= |a| && j <= |b| && Merged(out, a, i, b, j, start, end)
    ensures out != [] && out[0] == start && Increasing(out)
    ensures forall x :: x in out ==> x == start || start < x < end
    ensures i < |a| ==> a[i] >= out[|out| - 1]
    ensures j < |b| ==> b[j] >= out[|out| - 1]
  {
  }

  /** A tail loop: what is left of one axis, the other being used up or past the end. */
  method MergeTail(out: seq<real>, a: seq<real>, i: nat, b: seq<real>, j: nat, start: real, end: real)
    returns (out': seq<real>, i': nat)
    requires NonDecreasing(a) && NonDecreasing(b) && i <= |a| && j <= |b| && Merged(out, a, i, b, j, start, end)
    requires j < |b| ==> i == |a| || (a[i] >= end && b[j] >= end)
    ensures i <= i' <= |a| && Merged(out', a, i', b, j, start, end)
    ensures i' < |a| ==> a[i'] >= end
  {
    hide Merged, Increasing;
    out', i' := out, i;
    while i' < |a|
      invariant i <= i' <= |a| && Merged(out', a, i', b, j, start, end)
      invariant j < |b| ==> i' == |a| || (a[i'] >= end && b[j] >= end)
    {
      var t := a[i'];
      if t >= end { return; }
      MergedParts(out', a, i', b, j, start, end);
      var more := Take(out', t, start, end);
      MoveOn(out', more, a, i', i' + 1, b, j, j, t, start, end);
      out', i' := more, i' + 1;
    }
  }

  /** Merging does not mind which axis is named first. */
  lemma {:induction false} MergedSwaps(out: seq<real>, a: seq<real>, i: nat, b: seq<real>, j: nat, start: real, end: real)
    requires i <= |a| && j <= |b|
    ensures Merged(out, a, i, b, j, start, end) <==> Merged(out, b, j, a, i, start, end)
  {
  }

  lemma {:induction false} NothingYet(a: seq<real>, i: nat, b: seq<real>, j: nat, start: real, end: real)
    requires i <= |a| && j <= |b|
    requires forall k :: 0 <= k < |a| ==> (k < i <==> a[k] < start)
    requires forall k :: 0 <= k < |b| ==> (k < j <==> b[k] < start)
    ensures Merged([start], a, i, b, j, start, end)
  {
    forall t | start < t < end ensures t !in a[..i] && t !in b[..j] {
    }
  }

  lemma {:induction false} AllTaken(out: seq<real>, a: seq<real>, i: nat, b: seq<real>, j: nat, start: real, end: real)
    requires NonDecreasing(a) && NonDecreasing(b) && i <= |a| && j <= |b| && Merged(out, a, i, b, j, start, end) && start <= end
    requires (i < |a| ==> a[i] >= end) && (j < |b| ==> b[j] >= end)
    ensures out != [] && Increasing(out) && out[|out| - 1] <= end
    ensures forall t :: t in out <==> t == start || (start < t < end && (t in a || t in b))
  {
    assert out[|out| - 1] in out;
    forall t | start < t < end ensures (t in a <==> t in a[..i]) && (t in b <==> t in b[..j]) {
      assert a == a[..i] + a[i..] && b == b[..j] + b[j..];
      forall k | 0 <= k < |a[i..]| ensures a[i..][k] != t { assert a[i..][k] >= a[i]; }
      forall k | 0 <= k < |b[j..]| ensures b[j..][k] != t { assert b[j..][k] >= b[j]; }
    }
  }

  /** `union_timestamps_in_range`: exactly the two ends and every timestamp of either axis strictly between them, each
      once and in order. */
  method UnionInRange(a: seq<real>, b: seq<real>, start: real, end: real) returns (out: seq<real>)
    requires NonDecreasing(a) && NonDecreasing(b) && start <= end
    ensures Increasing(out)
    ensures forall t :: t in out <==> t == start || t == end || (start < t < end && (t in a || t in b))
  {
    hide Merged, NonDecreasing;
    var i := PartitionPoint(a, start, false);
    var j := PartitionPoint(b, start, false);
    NothingYet(a, i, b, j, start, end);
    out := [start];
    out, i, j := MergeBoth(out, a, i, b, j, start, end);
    out, i := MergeTail(out, a, i, b, j, start, end);
    MergedSwaps(out, a, i, b, j, start, end);
    out, j := MergeTail(out, b, j, a, i, start, end);
    MergedSwaps(out, a, i, b, j, start, end);
    AllTaken(out, a, i, b, j, start, end);
    if out[|out| - 1] != end { out := out + [end]; }
  }
}
