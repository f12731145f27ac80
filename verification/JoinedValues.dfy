/** Values, validity and time axes joined file after file: `append_values`, `append_validity` and the shift of
    `concatenate` (src/multi_ops.rs). */
module JoinedValues {
  import opened Arithmetic
  import opened Bytes
  import opened Options
  import opened TimeAxis

  // ---------------------------------------------------------------- sample values

  /** One number, character string, date or array element; only its identity matters here. */
  type Item = int

  /** Decoded samples: one item each, a fixed number of items each, or a slice each between two starts. */
  datatype SignalValues =
    | Single(kind: nat, items: seq<Item>)
    | Fixed(kind: nat, data: seq<Item>, width: nat)
    | Variable(kind: nat, data: seq<Item>, starts: seq<nat>)

  datatype JoinError = KindMismatch | WidthMismatch | NoFiles | DifferentStructure

  /** `SignalValues::len`. */
  function Count(v: SignalValues): nat {
    match v
    case Single(_, items) => |items|
    case Fixed(_, data, width) => if width == 0 then 0 else |data| / width
    case Variable(_, _, starts) => if starts == [] then 0 else |starts| - 1
  }

  /** What a decoder makes: whole samples; starts that begin at zero, do not decrease and end with the data. */
  ghost predicate WellFormed(v: SignalValues) {
    match v
    case Single(_, _) => true
    case Fixed(_, data, width) => width > 0 && |data| == |data| / width * width
    case Variable(_, data, starts) =>
      && starts != [] && starts[0] == 0 && starts[|starts| - 1] == |data|
      && forall i, j :: 0 <= i <= j < |starts| ==> starts[i] <= starts[j]
  }

  lemma {:induction false} SampleFits(total: nat, width: nat, i: nat)
    requires width > 0 && i < total / width
    ensures i * width + width <= total
  {
    assert total == total / width * width + total % width;
    MulLess(i, total / width, width);
  }

  /** The items of one sample. */
  ghost function SampleAt(v: SignalValues, i: nat): seq<Item>
    requires WellFormed(v) && i < Count(v)
  {
    match v
    case Single(_, items) => [items[i]]
    case Fixed(_, data, width) => SampleFits(|data|, width, i); data[i * width..i * width + width]
    case Variable(_, data, starts) =>
      assert starts[i] <= starts[i + 1] && starts[i + 1] <= starts[|starts| - 1];
      data[starts[i]..starts[i + 1]]
  }

  /** Two channels' samples are represented alike. */
  predicate SameShape(a: SignalValues, b: SignalValues) {
    match (a, b)
    case (Single(k, _), Single(l, _)) => k == l
    case (Fixed(k, _, w), Fixed(l, _, x)) => k == l && w == x
    case (Variable(k, _, _), Variable(l, _, _)) => k == l
    case _ => false
  }

  function Rebased(starts: seq<nat>, base: nat): (r: seq<nat>)
    ensures |r| == |starts|
  {
    seq(|starts|, i requires 0 <= i < |starts| => starts[i] + base)
  }

  /** `append_values`. */
  function Append(acc: SignalValues, next: SignalValues): Result<SignalValues, JoinError> {
    match (acc, next)
    case (Single(k, a), Single(l, b)) => if k == l then Ok(Single(k, a + b)) else Err(KindMismatch)
    case (Fixed(k, a, w), Fixed(l, b, x)) =>
      if k != l then Err(KindMismatch) else if w != x then Err(WidthMismatch) else Ok(Fixed(k, a + b, w))
    case (Variable(k, a, s), Variable(l, b, t)) =>
      if k != l then Err(KindMismatch)
      else Ok(Variable(k, a + b, s + Rebased(if t == [] then [] else t[1..], |a|)))
    case _ => Err(KindMismatch)
  }

  lemma {:induction false} AppendSingle(a: SignalValues, b: SignalValues, i: nat)
    requires a.Single? && SameShape(a, b) && i < Count(a) + Count(b)
    ensures Append(a, b).Ok? && Count(Append(a, b).value) == Count(a) + Count(b)
    ensures SampleAt(Append(a, b).value, i) == if i < Count(a) then SampleAt(a, i) else SampleAt(b, i - Count(a))
  {
  }

  lemma {:induction false} FixedCounts(a: SignalValues, b: SignalValues)
    requires a.Fixed? && SameShape(a, b) && WellFormed(a) && WellFormed(b)
    ensures Append(a, b).Ok? && WellFormed(Append(a, b).value) && Count(Append(a, b).value) == Count(a) + Count(b)
    ensures |a.data| == Count(a) * a.width
  {
    var w, m, n := a.width, Count(a), Count(b);
    assert (m + n) * w == m * w + n * w;
    DivUnique(|a.data| + |b.data|, w, m + n, 0);
  }

  lemma {:induction false} AppendFixed(a: SignalValues, b: SignalValues, i: nat)
    requires a.Fixed? && SameShape(a, b) && WellFormed(a) && WellFormed(b) && i < Count(a) + Count(b)
    ensures Append(a, b).Ok? && WellFormed(Append(a, b).value) && Count(Append(a, b).value) == Count(a) + Count(b)
    ensures SampleAt(Append(a, b).value, i) == if i < Count(a) then SampleAt(a, i) else SampleAt(b, i - Count(a))
  {
    FixedCounts(a, b);
    hide WellFormed, Count;
    var c := Append(a, b).value;
    assert Count(c) == if a.width == 0 then 0 else |a.data + b.data| / a.width by { CountFixed(c); }
    WidthPositive(a);
    SampleFits(|a.data + b.data|, a.width, i);
    FixedSample(a.data, b.data, a.width, Count(a), i);
  }

  lemma {:induction false} CountFixed(v: SignalValues)
    requires v.Fixed?
    ensures Count(v) == if v.width == 0 then 0 else |v.data| / v.width
  {
  }

  lemma {:induction false} WidthPositive(v: SignalValues)
    requires v.Fixed? && WellFormed(v)
    ensures v.width > 0
  {
  }

  lemma {:induction false} FixedSample(a: seq<Item>, b: seq<Item>, w: nat, m: nat, i: nat)
    requires w > 0 && |a| == m * w && i * w + w <= |a + b|
    ensures i < m ==> i * w + w <= |a| && (a + b)[i * w..i * w + w] == a[i * w..i * w + w]
    ensures i >= m ==> 0 <= (i - m) * w && (i - m) * w + w <= |b| && (a + b)[i * w..i * w + w] == b[(i - m) * w..(i - m) * w + w]
  {
    if i < m {
      MulLess(i, m, w);
    } else {
      assert i * w == m * w + (i - m) * w;
    }
  }

  lemma {:induction false} JoinedStarts(s: seq<nat>, t: seq<nat>, length: nat, end: nat)
    requires s != [] && t != [] && t[0] == 0 && s[|s| - 1] == length && t[|t| - 1] == end
    requires forall i, j :: 0 <= i <= j < |s| ==> s[i] <= s[j]
    requires forall i, j :: 0 <= i <= j < |t| ==> t[i] <= t[j]
    ensures var c := s + Rebased(t[1..], length);
      && |c| == |s| + |t| - 1
      && (forall i :: 0 <= i < |c| ==> c[i] == if i < |s| then s[i] else t[i + 1 - |s|] + length)
      && (forall i, j :: 0 <= i <= j < |c| ==> c[i] <= c[j])
      && c[|c| - 1] == length + end
  {
    var c := s + Rebased(t[1..], length);
    forall i | 0 <= i < |s| ensures s[i] <= length { assert s[i] <= s[|s| - 1]; }
  }

  lemma {:induction false} VariableCounts(a: SignalValues, b: SignalValues)
    requires a.Variable? && SameShape(a, b) && WellFormed(a) && WellFormed(b)
    ensures Append(a, b).Ok? && WellFormed(Append(a, b).value) && Count(Append(a, b).value) == Count(a) + Count(b)
  {
    JoinedStarts(a.starts, b.starts, |a.data|, |b.data|);
  }

  lemma {:induction false} AppendVariable(a: SignalValues, b: SignalValues, i: nat)
    requires a.Variable? && SameShape(a, b) && WellFormed(a) && WellFormed(b) && i < Count(a) + Count(b)
    ensures Append(a, b).Ok? && WellFormed(Append(a, b).value) && Count(Append(a, b).value) == Count(a) + Count(b)
    ensures SampleAt(Append(a, b).value, i) == if i < Count(a) then SampleAt(a, i) else SampleAt(b, i - Count(a))
  {
    VariableCounts(a, b);
    JoinedStarts(a.starts, b.starts, |a.data|, |b.data|);
    var c, m := Append(a, b).value, Count(a);
    var joined := a.data + b.data;
    if i < m {
      var x, y := a.starts[i], a.starts[i + 1];
      assert x <= y <= a.starts[m];
      assert joined[x..y] == a.data[x..y];
    } else {
      var x, y := b.starts[i - m], b.starts[i - m + 1];
      assert x <= y <= b.starts[|b.starts| - 1];
      assert c.starts[i] == x + |a.data| && c.starts[i + 1] == y + |a.data|;
      assert joined[x + |a.data|..y + |a.data|] == b.data[x..y];
    }
  }

  /** Samples of one shape join, and each sample of either is found again, delimited as it was; others are refused. */
  lemma {:induction false} AppendKeepsSamples(a: SignalValues, b: SignalValues)
    requires WellFormed(a) && WellFormed(b)
    ensures Append(a, b).Ok? <==> SameShape(a, b)
    ensures Append(a, b).Ok? ==>
      && WellFormed(Append(a, b).value) && SameShape(a, Append(a, b).value)
      && Count(Append(a, b).value) == Count(a) + Count(b)
      && forall i :: 0 <= i < Count(a) + Count(b) ==>
          SampleAt(Append(a, b).value, i) == if i < Count(a) then SampleAt(a, i) else SampleAt(b, i - Count(a))
  {
    hide WellFormed, SampleAt;
    if SameShape(a, b) {
      JoinedCounts(a, b);
      forall i | 0 <= i < Count(a) + Count(b)
        ensures SampleAt(Append(a, b).value, i) == if i < Count(a) then SampleAt(a, i) else SampleAt(b, i - Count(a))
      {
        match a
        case Single(_, _) => AppendSingle(a, b, i);
        case Fixed(_, _, _) => AppendFixed(a, b, i);
        case Variable(_, _, _) => AppendVariable(a, b, i);
      }
    }
  }

  lemma {:induction false} JoinedCounts(a: SignalValues, b: SignalValues)
    requires WellFormed(a) && WellFormed(b) && SameShape(a, b)
    ensures Append(a, b).Ok? && WellFormed(Append(a, b).value) && Count(Append(a, b).value) == Count(a) + Count(b)
  {
    match a
    case Single(_, _) =>
    case Fixed(_, _, _) => FixedCounts(a, b);
    case Variable(_, _, _) => VariableCounts(a, b);
  }

  /** Everything that is decoded, sample after sample. */
  function AllItems(v: SignalValues): seq<Item> {
    match v
    case Single(_, items) => items
    case Fixed(_, data, _) => data
    case Variable(_, data, _) => data
  }

  ghost function SamplesUpTo(v: SignalValues, n: nat): seq<Item>
    requires WellFormed(v) && n <= Count(v)
  {
    if n == 0 then [] else SamplesUpTo(v, n - 1) + SampleAt(v, n - 1)
  }

  /** The samples of well-formed values, one after another, are all there is. */
  lemma {:induction false} SamplesAreAll(v: SignalValues)
    requires WellFormed(v)
    ensures SamplesUpTo(v, Count(v)) == AllItems(v)
  {
    match v
    case Single(_, items) => SinglesUpTo(v, |items|); assert items[..|items|] == items;
    case Fixed(_, data, width) =>
      FixedUpTo(v, Count(v), |data|);
      assert data[..|data|] == data;
    case Variable(_, data, starts) =>
      VariableUpTo(v, Count(v));
      assert data[..starts[|starts| - 1]] == data;
  }

  lemma {:induction false} SinglesUpTo(v: SignalValues, n: nat)
    requires v.Single? && n <= |v.items|
    ensures SamplesUpTo(v, n) == v.items[..n]
  {
    if n > 0 { SinglesUpTo(v, n - 1); }
  }

  lemma {:induction false} FixedUpTo(v: SignalValues, n: nat, end: nat)
    requires v.Fixed? && WellFormed(v) && n <= Count(v) && end == n * v.width
    ensures end <= |v.data| && SamplesUpTo(v, n) == v.data[..end]
  {
    hide WellFormed, Count, SampleAt;
    if n > 0 {
      var before := (n - 1) * v.width;
      assert end == before + v.width;
      FixedUpTo(v, n - 1, before);
      SampleOfFixed(v, n - 1, before);
      assert v.data[..end] == v.data[..before] + v.data[before..end];
    }
  }

  lemma {:induction false} SampleOfFixed(v: SignalValues, i: nat, at: nat)
    requires v.Fixed? && WellFormed(v) && i < Count(v) && at == i * v.width
    ensures at + v.width <= |v.data| && SampleAt(v, i) == v.data[at..at + v.width]
  {
    SampleFits(|v.data|, v.width, i);
  }

  lemma {:induction false} VariableUpTo(v: SignalValues, n: nat)
    requires v.Variable? && WellFormed(v) && n <= Count(v)
    ensures v.starts[n] <= |v.data| && SamplesUpTo(v, n) == v.data[..v.starts[n]]
  {
    assert v.starts[n] <= v.starts[|v.starts| - 1];
    if n > 0 {
      VariableUpTo(v, n - 1);
      assert v.starts[n - 1] <= v.starts[n];
    }
  }

  // ---------------------------------------------------------------- validity

  /** Sample `i` is valid: a missing mask says that every sample is. */
  predicate IsValid(mask: Option<seq<bool>>, i: nat)
    requires mask.Some? ==> i < |mask.value|
  {
    mask.None? || mask.value[i]
  }

  /** A mask, if there is one, has an entry for each of `n` samples. */
  predicate MaskOf(mask: Option<seq<bool>>, n: nat) {
    mask.Some? ==> |mask.value| == n
  }

  /** `append_validity`. */
  function AppendValidity(acc: Option<seq<bool>>, accLen: nat, next: Option<seq<bool>>, added: nat): (r: Option<seq<bool>>)
    ensures r.None? <==> acc.None? && next.None?
    ensures MaskOf(acc, accLen) && MaskOf(next, added) ==>
      && MaskOf(r, accLen + added)
      && forall i :: 0 <= i < accLen + added ==> (IsValid(r, i) <==> if i < accLen then IsValid(acc, i) else IsValid(next, i - accLen))
  {
    match (acc, next)
    case (None, None) => None
    case (None, Some(v)) => Some(AllTrue(accLen) + v)
    case (Some(mask), Some(v)) => Some(mask + v)
    case (Some(mask), None) => Some(mask + AllTrue(added))
  }

  // ---------------------------------------------------------------- the time axis

  function LastTime(axis: seq<real>): Option<real> {
    if axis == [] then None else Some(axis[|axis| - 1])
  }

  const MILLISECOND: real := 0.001

  /** The sample interval a pushed file is given: its own first, or a millisecond. */
  function Interval(master: seq<real>): real {
    if |master| >= 2 then master[1] - master[0] else MILLISECOND
  }

  /** How far a file's axis is moved: by its offset, and further when it would not start after `last`. */
  function Shift(master: seq<real>, offset: real, last: Option<real>): real
    requires master != []
  {
    if last.Some? && last.value >= master[0] + offset
    then offset + (last.value + Interval(master) - (master[0] + offset))
    else offset
  }

  function Moved(master: seq<real>, shift: real): (r: seq<real>)
    ensures |r| == |master|
  {
    seq(|master|, i requires 0 <= i < |master| => master[i] + shift)
  }

  /** A file's part of the joined axis: its own axis moved as a whole. */
  function Placed(master: seq<real>, offset: real, last: Option<real>): (r: seq<real>)
    ensures |r| == |master|
  {
    if master == [] then [] else Moved(master, Shift(master, offset, last))
  }

  /** The joined axis of the first `n` files. */
  function JoinedAxis(masters: seq<seq<real>>, offsets: seq<real>, n: nat): seq<real>
    requires n <= |masters| == |offsets|
  {
    if n == 0 then [] else
      var before := JoinedAxis(masters, offsets, n - 1);
      before + Placed(masters[n - 1], offsets[n - 1], LastTime(before))
  }

  /** The shifts as `concatenate` makes them: by the offset first, then as a whole again. */
  method PlaceMaster(master: seq<real>, offset: real, last: Option<real>) returns (placed: seq<real>, last': Option<real>)
    ensures placed == Placed(master, offset, last)
    ensures last' == if master == [] then last else LastTime(placed)
  {
    if master == [] { return [], last; }
    placed := Moved(master, offset);
    if last.Some? && last.value >= placed[0] {
      var delta := if |placed| >= 2 then placed[1] - placed[0] else MILLISECOND;
      var shift := last.value + delta - placed[0];
      placed := Moved(placed, shift);
    }
    last' := Some(placed[|placed| - 1]);
  }

  lemma {:induction false} NonDecreasingAppend(a: seq<real>, b: seq<real>)
    requires NonDecreasing(a) && NonDecreasing(b) && (a != [] && b != [] ==> a[|a| - 1] <= b[0])
    ensures NonDecreasing(a + b)
  {
    forall i | 0 <= i < |a| ensures a[i] <= a[|a| - 1] {
    }
    forall j | 0 <= j < |b| ensures b[0] <= b[j] {
    }
  }

  lemma {:induction false} MovedNonDecreasing(master: seq<real>, shift: real)
    requires NonDecreasing(master)
    ensures NonDecreasing(Moved(master, shift))
  {
  }

  /** Joining non-decreasing axes gives a non-decreasing axis. */
  lemma {:induction false} JoinedAxisNonDecreasing(masters: seq<seq<real>>, offsets: seq<real>, n: nat)
    requires n <= |masters| == |offsets| && forall k :: 0 <= k < |masters| ==> NonDecreasing(masters[k])
    ensures NonDecreasing(JoinedAxis(masters, offsets, n))
  {
    hide NonDecreasing, Shift, Moved, JoinedAxis;
    if n == 0 {
      NothingJoined(masters, offsets);
    } else {
      var before, master := JoinedAxis(masters, offsets, n - 1), masters[n - 1];
      JoinedAxisNonDecreasing(masters, offsets, n - 1);
      var part := Placed(master, offsets[n - 1], LastTime(before));
      if master != [] {
        MovedNonDecreasing(master, Shift(master, offsets[n - 1], LastTime(before)));
        if before != [] { StartsBehind(master, offsets[n - 1], before[|before| - 1]); }
      }
      assert NonDecreasing(part) by { if master == [] { assert NonDecreasing(masters[n - 1]); } }
      NonDecreasingAppend(before, part);
      JoinedNext(masters, offsets, n - 1);
    }
  }

  lemma {:induction false} NothingJoined(masters: seq<seq<real>>, offsets: seq<real>)
    requires |masters| == |offsets|
    ensures JoinedAxis(masters, offsets, 0) == [] && NonDecreasing([])
  {
  }

  lemma {:induction false} JoinedNext(masters: seq<seq<real>>, offsets: seq<real>, n: nat)
    requires n < |masters| == |offsets|
    ensures JoinedAxis(masters, offsets, n + 1) == JoinedAxis(masters, offsets, n)
         + Placed(masters[n], offsets[n], LastTime(JoinedAxis(masters, offsets, n)))
  {
  }

  /** The time due to a file's timestamp `i` behind an axis: its own moved by the file's offset; or, where the file would not begin
      after that axis ends, one interval behind that end and then as far on as it is behind the file's first. */
  function TimeDue(before: seq<real>, master: seq<real>, offset: real, i: nat): real
    requires i < |master|
  {
    if before != [] && before[|before| - 1] >= master[0] + offset
    then before[|before| - 1] + (if |master| >= 2 then master[1] - master[0] else 0.001) + (master[i] - master[0])
    else master[i] + offset
  }

  lemma {:induction false} PlacedIsDue(before: seq<real>, master: seq<real>, offset: real, i: nat)
    requires i < |master|
    ensures Placed(master, offset, LastTime(before))[i] == TimeDue(before, master, offset, i)
  {
  }

  /** Where each timestamp of a file comes on the joined axis, and which time it is there. */
  lemma {:induction false} JoinedTimes(masters: seq<seq<real>>, offsets: seq<real>, n: nat, f: nat, i: nat)
    requires f < n <= |masters| == |offsets| && i < |masters[f]|
    ensures var before := JoinedAxis(masters, offsets, f);
      && |before| + |masters[f]| <= |JoinedAxis(masters, offsets, n)|
      && JoinedAxis(masters, offsets, n)[|before| + i] == TimeDue(before, masters[f], offsets[f], i)
  {
    hide JoinedAxis, Placed, TimeDue;
    JoinedNext(masters, offsets, n - 1);
    var before, part := JoinedAxis(masters, offsets, n - 1), Placed(masters[n - 1], offsets[n - 1], LastTime(JoinedAxis(masters, offsets, n - 1)));
    if f < n - 1 {
      JoinedTimes(masters, offsets, n - 1, f, i);
    } else {
      PlacedIsDue(before, masters[f], offsets[f], i);
      assert (before + part)[|before| + i] == part[i];
    }
  }

  /** A file's part starts no earlier than the part before it ends; and it starts later exactly when it would have
      anyway, or when the interval it is given is not zero. */
  lemma {:induction false} StartsBehind(master: seq<real>, offset: real, last: real)
    requires master != [] && NonDecreasing(master)
    ensures last <= Placed(master, offset, Some(last))[0]
    ensures last < Placed(master, offset, Some(last))[0] <==> last < master[0] + offset || Interval(master) > 0.0
  {
    if |master| >= 2 { assert master[0] <= master[1]; }
  }

  /** An axis that begins with two equal timestamps can be pushed onto the last timestamp of the file before it. */
  lemma {:induction false} PushedOntoLast()
    ensures Placed([0.0, 0.0], 0.0, Some(5.0)) == [5.0, 5.0]
  {
  }
}
