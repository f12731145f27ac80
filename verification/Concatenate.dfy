/** Joining measurements end to end: `concatenate` and `check_same_structure` of src/multi_ops.rs. */
module Concatenate {
  import Bytes
  import opened Options
  import opened Sorting
  import opened TimeAxis
  import opened JoinedValues

  datatype Series = Series(name: string, values: SignalValues, validity: Option<seq<bool>>)

  /** A channel group: its channels but the master, and the master's timestamps. */
  datatype Group = Group(channels: seq<Series>, master: seq<real>)

  datatype File = File(startNs: int, groups: seq<Group>)

  /** A decoded series has a value, and a validity if any, for each timestamp. */
  ghost predicate ValidSeries(s: Series, n: nat) {
    WellFormed(s.values) && Count(s.values) == n && MaskOf(s.validity, n)
  }

  ghost predicate ValidGroup(g: Group) {
    forall k :: 0 <= k < |g.channels| ==> ValidSeries(g.channels[k], |g.master|)
  }

  ghost predicate ValidFile(f: File) {
    forall g :: 0 <= g < |f.groups| ==> ValidGroup(f.groups[g])
  }

  // ---------------------------------------------------------------- structure

  predicate LexLe(a: string, b: string) {
    a == [] || (b != [] && (a[0] < b[0] || (a[0] == b[0] && LexLe(a[1..], b[1..]))))
  }

  function NameOrder(): (string, string) -> bool {
    (a: string, b: string) => LexLe(a, b)
  }

  lemma {:induction false} LexTotal(a: string, b: string)
    ensures LexLe(a, b) || LexLe(b, a)
    ensures LexLe(a, b) && LexLe(b, a) ==> a == b
  {
    if a != [] && b != [] {
      LexTotal(a[1..], b[1..]);
      if a[0] == b[0] && a[1..] == b[1..] { assert a == [a[0]] + a[1..] && b == [b[0]] + b[1..]; }
    }
  }

  lemma {:induction false} LexTransitive(a: string, b: string, c: string)
    requires LexLe(a, b) && LexLe(b, c)
    ensures LexLe(a, c)
  {
    if a != [] && a[0] == b[0] && b[0] == c[0] { LexTransitive(a[1..], b[1..], c[1..]); }
  }

  lemma {:induction false} NameOrderTotal()
    ensures TotalPreorder(NameOrder())
    ensures forall a, b :: NameOrder()(a, b) && NameOrder()(b, a) ==> a == b
  {
    hide LexLe;
    forall a: string, b: string
      ensures (LexLe(a, b) || LexLe(b, a)) && (LexLe(a, b) && LexLe(b, a) ==> a == b)
    {
      LexTotal(a, b);
    }
    forall a: string, b: string, c: string | LexLe(a, b) && LexLe(b, c) ensures LexLe(a, c) {
      LexTransitive(a, b, c);
    }
  }

  function Names(g: Group): (names: seq<string>)
    ensures |names| == |g.channels|
  {
    seq(|g.channels|, k requires 0 <= k < |g.channels| => g.channels[k].name)
  }

  /** Sorted name lists are equal exactly when the same names occur equally often. */
  lemma {:induction false} SortedNamesAgree(a: seq<string>, b: seq<string>)
    ensures Sort(a, NameOrder()) == Sort(b, NameOrder()) <==> multiset(a) == multiset(b)
  {
    hide Sort, NameOrder;
    NameOrderTotal();
    SortContents(a, NameOrder());
    SortContents(b, NameOrder());
    if multiset(a) == multiset(b) {
      SortSorts(a, NameOrder());
      SortSorts(b, NameOrder());
      SortedUnique(Sort(a, NameOrder()), Sort(b, NameOrder()), NameOrder());
    }
  }

  ghost predicate SameNames(a: Group, b: Group) {
    multiset(Names(a)) == multiset(Names(b))
  }

  /** The channels of a group that have a name. */
  ghost function Called(g: Group, name: string): set<nat> {
    set k: nat | k < |g.channels| && g.channels[k].name == name
  }

  /** Where a name stands among the first `n`. */
  ghost function PlacesOf(s: seq<string>, name: string, n: nat): set<nat>
    requires n <= |s|
  {
    set k: nat | k < n && s[k] == name
  }

  lemma {:induction false} NextPlace(s: seq<string>, name: string, n: nat)
    requires n < |s|
    ensures PlacesOf(s, name, n + 1) == if s[n] == name then PlacesOf(s, name, n) + {n} else PlacesOf(s, name, n)
  {
  }

  lemma {:induction false} NameCounted(s: seq<string>, name: string, n: nat)
    requires n <= |s|
    ensures multiset(s[..n])[name] == |PlacesOf(s, name, n)|
  {
    if n > 0 {
      NameCounted(s, name, n - 1);
      NextPlace(s, name, n - 1);
      assert s[..n] == s[..n - 1] + [s[n - 1]];
    }
  }

  /** Two groups agree exactly when every name belongs to as many channels in one as in the other. */
  lemma {:induction false} SameNamesExactly(a: Group, b: Group)
    ensures SameNames(a, b) <==> forall name :: |Called(a, name)| == |Called(b, name)|
  {
    forall name ensures |Called(a, name)| == multiset(Names(a))[name] && |Called(b, name)| == multiset(Names(b))[name] {
      CalledCount(a, name);
      CalledCount(b, name);
    }
    if forall name :: |Called(a, name)| == |Called(b, name)| {
      assert forall name :: multiset(Names(a))[name] == |Called(a, name)| == multiset(Names(b))[name];
    }
  }

  lemma {:induction false} CalledCount(g: Group, name: string)
    ensures |Called(g, name)| == multiset(Names(g))[name]
  {
    var names := Names(g);
    NameCounted(names, name, |names|);
    assert names[..|names|] == names;
    assert Called(g, name) == PlacesOf(names, name, |names|);
  }

  /** As many groups, and in each the same channel names equally often. */
  ghost predicate SameGroups(a: File, b: File) {
    |a.groups| == |b.groups| && forall g :: 0 <= g < |a.groups| ==> SameNames(a.groups[g], b.groups[g])
  }

  ghost predicate SameStructure(files: seq<File>)
    requires files != []
  {
    forall f :: 0 <= f < |files| ==> SameGroups(files[0], files[f])
  }

  method CheckGroups(first: File, file: File) returns (ok: bool)
    ensures ok <==> SameGroups(first, file)
  {
    if |first.groups| != |file.groups| { return false; }
    for g := 0 to |first.groups|
      invariant forall k :: 0 <= k < g ==> SameNames(first.groups[k], file.groups[k])
    {
      SortedNamesAgree(Names(first.groups[g]), Names(file.groups[g]));
      var want, got := Sort(Names(first.groups[g]), NameOrder()), Sort(Names(file.groups[g]), NameOrder());
      if want != got {
        assert !SameNames(first.groups[g], file.groups[g]);
        return false;
      }
    }
    ok := true;
  }

  /** `check_same_structure`. */
  method CheckSameStructure(files: seq<File>) returns (ok: bool)
    requires files != []
    ensures ok <==> SameStructure(files)
  {
    hide SameGroups;
    SameAsItself(files[0]);
    for f := 1 to |files|
      invariant forall k :: 0 <= k < f ==> SameGroups(files[0], files[k])
    {
      var same := CheckGroups(files[0], files[f]);
      if !same { return false; }
    }
    ok := true;
  }

  lemma {:induction false} SameAsItself(f: File)
    ensures SameGroups(f, f)
  {
  }

  // ---------------------------------------------------------------- matching by name

  /** The names not yet taken. */
  ghost function Left(got: seq<string>, taken: seq<bool>): multiset<string>
    requires |taken| == |got|
  {
    if got == [] then multiset{} else
      var n := |got| - 1;
      Left(got[..n], taken[..n]) + if taken[n] then multiset{} else multiset{got[n]}
  }

  lemma {:induction false} NoneTaken(got: seq<string>, taken: seq<bool>)
    requires |taken| == |got| && forall i :: 0 <= i < |taken| ==> !taken[i]
    ensures Left(got, taken) == multiset(got)
  {
    if got != [] {
      var n := |got| - 1;
      NoneTaken(got[..n], taken[..n]);
      assert got == got[..n] + [got[n]];
    }
  }

  lemma {:induction false} TakeOne(got: seq<string>, taken: seq<bool>, at: nat)
    requires |taken| == |got| && at < |got| && !taken[at]
    ensures Left(got, taken) == Left(got, taken[at := true]) + multiset{got[at]}
  {
    var n := |got| - 1;
    if at == n {
      assert taken[at := true][..n] == taken[..n];
    } else {
      TakeOne(got[..n], taken[..n], at);
      assert taken[at := true][..n] == taken[..n][at := true];
    }
  }

  lemma {:induction false} StillLeft(got: seq<string>, taken: seq<bool>, name: string)
    requires |taken| == |got| && name in Left(got, taken)
    ensures exists i :: 0 <= i < |got| && got[i] == name && !taken[i]
  {
    var n := |got| - 1;
    if got == [] {
      assert false;
    } else if name in Left(got[..n], taken[..n]) {
      StillLeft(got[..n], taken[..n], name);
      var i :| 0 <= i < n && got[..n][i] == name && !taken[..n][i];
      assert got[i] == name && !taken[i];
    } else {
      assert got[n] == name && !taken[n];
    }
  }

  /** `at` sends each wanted name to a channel of that name, no two to one, and equal names in order. */
  ghost predicate Matching(at: seq<nat>, want: seq<string>, got: seq<string>, n: nat) {
    && n <= |at| && n <= |want|
    && (forall k :: 0 <= k < n ==> at[k] < |got| && got[at[k]] == want[k])
    && (forall j, k :: 0 <= j < k < n ==> at[j] != at[k])
    && (forall j, k :: 0 <= j < k < n && want[j] == want[k] ==> at[j] < at[k])
  }

  /** `find`: the first channel of a name that is not taken. */
  method FindUntaken(got: seq<string>, taken: seq<bool>, name: string) returns (at: Option<nat>)
    requires |taken| == |got|
    ensures at.Some? ==> at.value < |got| && got[at.value] == name && !taken[at.value]
    ensures at.Some? ==> forall i :: 0 <= i < at.value && got[i] == name ==> taken[i]
    ensures at.None? ==> forall i :: 0 <= i < |got| && got[i] == name ==> taken[i]
  {
    for i := 0 to |got|
      invariant forall k :: 0 <= k < i && got[k] == name ==> taken[k]
    {
      if got[i] == name && !taken[i] { return Some(i); }
    }
    at := None;
  }

  /** What the greedy loop keeps: the matches are taken, and of each matched name everything before its match. */
  ghost predicate TakenBehind(at: seq<nat>, want: seq<string>, got: seq<string>, taken: seq<bool>)
    requires |taken| == |got| && |at| <= |want|
  {
    && (forall k :: 0 <= k < |at| ==> at[k] < |got| && taken[at[k]])
    && (forall k, i :: 0 <= k < |at| && 0 <= i < at[k] && i < |got| && got[i] == want[k] ==> taken[i])
  }

  /** The greedy matching of the selectors. Where the names agree as multisets it never comes up empty. */
  method MatchNames(want: seq<string>, got: seq<string>) returns (at: seq<nat>)
    requires multiset(want) == multiset(got)
    ensures |at| == |want| == |got| && Matching(at, want, got, |want|)
  {
    hide Left;
    var taken := seq(|got|, _ => false);
    NoneTaken(got, taken);
    at := [];
    assert want[0..] == want;
    for k := 0 to |want|
      invariant |at| == k && |taken| == |got|
      invariant Left(got, taken) == multiset(want[k..])
      invariant Matching(at, want, got, k) && TakenBehind(at, want, got, taken)
    {
      FirstWanted(want, k);
      StillLeft(got, taken, want[k]);
      var found := FindUntaken(got, taken, want[k]);
      TakeOne(got, taken, found.value);
      CancelOne(Left(got, taken[found.value := true]), multiset(want[k + 1..]), want[k]);
      MatchedOne(at, want, got, taken, k, found.value);
      taken := taken[found.value := true];
      at := at + [found.value];
    }
    assert |want| == |multiset(want)| && |got| == |multiset(got)|;
  }

  lemma {:induction false} FirstWanted(want: seq<string>, k: nat)
    requires k < |want|
    ensures multiset(want[k..]) == multiset(want[k + 1..]) + multiset{want[k]}
  {
    assert want[k..] == [want[k]] + want[k + 1..];
  }

  lemma {:induction false} CancelOne(a: multiset<string>, b: multiset<string>, x: string)
    requires a + multiset{x} == b + multiset{x}
    ensures a == b
  {
    forall y ensures a[y] == b[y] {
      assert (a + multiset{x})[y] == (b + multiset{x})[y];
    }
  }

  lemma {:induction false} MatchedOne(at: seq<nat>, want: seq<string>, got: seq<string>, taken: seq<bool>, k: nat, found: nat)
    requires k < |want| && |at| == k && |taken| == |got| && Matching(at, want, got, k) && TakenBehind(at, want, got, taken)
    requires found < |got| && got[found] == want[k] && !taken[found]
    requires forall i :: 0 <= i < found && got[i] == want[k] ==> taken[i]
    ensures Matching(at + [found], want, got, k + 1) && TakenBehind(at + [found], want, got, taken[found := true])
  {
    forall j | 0 <= j < k && want[j] == want[k] ensures at[j] < found {
      assert taken[at[j]];
    }
  }

  // ---------------------------------------------------------------- one slot, file after file

  /** What is gathered for one channel. */
  datatype Slot = Slot(timestamps: seq<real>, values: Option<SignalValues>, validity: Option<seq<bool>>, count: nat)

  const EMPTY: Slot := Slot([], None, None, 0)

  ghost predicate ValidSlot(s: Slot) {
    && (s.values.None? ==> s.count == 0 && s.timestamps == [] && s.validity.None?)
    && (s.values.Some? ==> WellFormed(s.values.value) && Count(s.values.value) == s.count)
    && |s.timestamps| == s.count && MaskOf(s.validity, s.count)
  }

  /** One file's series joined to a slot, `placed` being the file's part of the axis. */
  function Extend(s: Slot, series: Series, placed: seq<real>): Result<Slot, JoinError>
  {
    var timestamps := s.timestamps + placed;
    var added := Count(series.values);
    var validity := AppendValidity(s.validity, s.count, series.validity, added);
    if s.values.None? then Ok(Slot(timestamps, Some(series.values), validity, s.count + added))
    else
      match Append(s.values.value, series.values)
      case Err(e) => Err(e)
      case Ok(values) => Ok(Slot(timestamps, Some(values), validity, s.count + added))
  }

  /** The slot's samples from `base` on are the series' samples, each with its validity. */
  ghost predicate Holds(s: Slot, base: nat, series: Series) {
    && ValidSlot(s) && s.values.Some? && ValidSeries(series, Count(series.values)) && base + Count(series.values) <= s.count
    && (forall i :: 0 <= i < Count(series.values) ==> SampleAt(s.values.value, base + i) == SampleAt(series.values, i))
    && (forall i :: 0 <= i < Count(series.values) ==> (IsValid(s.validity, base + i) <==> IsValid(series.validity, i)))
  }

  /** Joining a series puts its samples behind the ones there, and leaves those as they were. */
  lemma {:induction false} ExtendHolds(s: Slot, series: Series, placed: seq<real>)
    requires ValidSlot(s) && ValidSeries(series, |placed|)
    ensures Extend(s, series, placed).Err? <==> s.values.Some? && !SameShape(s.values.value, series.values)
    ensures Extend(s, series, placed).Ok? ==>
      var s' := Extend(s, series, placed).value;
      && ValidSlot(s') && s'.values.Some? && s'.count == s.count + |placed| && s'.timestamps == s.timestamps + placed
      && SameShape(if s.values.Some? then s.values.value else series.values, s'.values.value)
      && (s'.validity.None? <==> s.validity.None? && series.validity.None?)
      && Holds(s', s.count, series)
      && (forall i :: 0 <= i < s.count ==> SampleAt(s'.values.value, i) == SampleAt(s.values.value, i))
      && (forall i :: 0 <= i < s.count ==> (IsValid(s'.validity, i) <==> IsValid(s.validity, i)))
  {
    hide WellFormed, SampleAt, Append;
    if s.values.Some? { AppendKeepsSamples(s.values.value, series.values); }
  }

  // ---------------------------------------------------------------- one group, file after file

  /** What a slot holds once these series are joined, one from each file: the files' moved axes one behind the other,
      and from each file's place on it that file's samples and their validity. */
  ghost predicate SlotJoined(picked: seq<Series>, masters: seq<seq<real>>, offsets: seq<real>, slot: Slot)
    requires |picked| <= |masters| == |offsets|
  {
    && ValidSlot(slot) && slot.timestamps == JoinedAxis(masters, offsets, |picked|)
    && (slot.values.Some? <==> picked != [])
    && (slot.validity.None? <==> forall f :: 0 <= f < |picked| ==> picked[f].validity.None?)
    && (picked != [] ==> SameShape(picked[0].values, slot.values.value))
    && (forall f :: 0 <= f < |picked| ==> Holds(slot, |JoinedAxis(masters, offsets, f)|, picked[f]))
  }

  lemma {:induction false} NothingPicked(masters: seq<seq<real>>, offsets: seq<real>)
    requires |masters| == |offsets|
    ensures SlotJoined([], masters, offsets, EMPTY)
  {
  }

  lemma {:induction false} SlotNext(picked: seq<Series>, masters: seq<seq<real>>, offsets: seq<real>, slot: Slot, series: Series)
    requires |picked| < |masters| == |offsets| && SlotJoined(picked, masters, offsets, slot)
    requires ValidSeries(series, |masters[|picked|]|)
    ensures var placed := Placed(masters[|picked|], offsets[|picked|], LastTime(slot.timestamps));
      && ValidSlot(slot) && ValidSeries(series, |placed|)
      && (Extend(slot, series, placed).Err? <==> picked != [] && !SameShape(picked[0].values, series.values))
      && (Extend(slot, series, placed).Ok? ==> SlotJoined(picked + [series], masters, offsets, Extend(slot, series, placed).value))
  {
    hide Placed, WellFormed, SampleAt, Append, IsValid, Holds, Extend, ValidSeries, JoinedAxis;
    var n := |picked|;
    var placed := Placed(masters[n], offsets[n], LastTime(slot.timestamps));
    ExtendHolds(slot, series, placed);
    JoinedNext(masters, offsets, n);
    if Extend(slot, series, placed).Ok? {
      var slot' := Extend(slot, series, placed).value;
      var all := picked + [series];
      forall f | 0 <= f < n + 1 ensures Holds(slot', |JoinedAxis(masters, offsets, f)|, all[f]) {
        if f < n { HoldsStill(slot, slot', |JoinedAxis(masters, offsets, f)|, picked[f]); }
      }
      assert slot'.validity.None? <==> forall f :: 0 <= f < n + 1 ==> all[f].validity.None? by {
        assert all[n] == series;
        assert forall f :: 0 <= f < n ==> all[f] == picked[f];
      }
      SameShapeAgain(if picked == [] then series.values else picked[0].values,
                     if slot.values.Some? then slot.values.value else series.values, slot'.values.value);
    }
  }

  lemma {:induction false} SameShapeAgain(a: SignalValues, b: SignalValues, c: SignalValues)
    ensures SameShape(a, b) && SameShape(b, c) ==> SameShape(a, c)
    ensures SameShape(a, a)
  {
  }

  lemma {:induction false} HoldsStill(s: Slot, s': Slot, base: nat, series: Series)
    requires Holds(s, base, series) && ValidSlot(s') && s'.values.Some? && s.count <= s'.count
    requires forall i :: 0 <= i < s.count ==> SampleAt(s'.values.value, i) == SampleAt(s.values.value, i)
    requires forall i :: 0 <= i < s.count ==> (IsValid(s'.validity, i) <==> IsValid(s.validity, i))
    ensures Holds(s', base, series)
  {
    hide SampleAt, WellFormed, IsValid;
  }

  // ---------------------------------------------------------------- a group

  function Masters(parts: seq<Group>): (masters: seq<seq<real>>)
    ensures |masters| == |parts|
  {
    seq(|parts|, f requires 0 <= f < |parts| => parts[f].master)
  }

  /** `at` gives every slot a channel of the same name, one to one. */
  ghost predicate Selects(at: seq<nat>, first: Group, g: Group) {
    |at| == |first.channels| == |g.channels| && Matching(at, Names(first), Names(g), |at|)
  }

  /** The channels of a file in the order of the first file's slots. */
  function Selected(g: Group, at: seq<nat>): (series: seq<Series>)
    requires forall k :: 0 <= k < |at| ==> at[k] < |g.channels|
    ensures |series| == |at|
  {
    seq(|at|, k requires 0 <= k < |at| => g.channels[at[k]])
  }

  /** Slot `k` of each file's selection. */
  function SlotOf(selections: seq<seq<Series>>, k: nat): (picked: seq<Series>)
    requires forall f :: 0 <= f < |selections| ==> k < |selections[f]|
    ensures |picked| == |selections|
  {
    seq(|selections|, f requires 0 <= f < |selections| => selections[f][k])
  }

  ghost predicate GroupJoined(selections: seq<seq<Series>>, width: nat, masters: seq<seq<real>>, offsets: seq<real>, slots: seq<Slot>)
    requires |selections| <= |masters| == |offsets|
  {
    && |slots| == width && (forall f :: 0 <= f < |selections| ==> |selections[f]| == width)
    && forall k :: 0 <= k < width ==> SlotJoined(SlotOf(selections, k), masters, offsets, slots[k])
  }

  /** The inner loop: one file's series go to the slots. */
  method JoinFile(slots: seq<Slot>, series: seq<Series>, placed: seq<real>) returns (r: Result<seq<Slot>, JoinError>)
    requires |slots| == |series|
    requires forall k :: 0 <= k < |slots| ==> ValidSlot(slots[k]) && ValidSeries(series[k], |placed|)
    ensures r.Ok? <==> forall k :: 0 <= k < |slots| ==> Extend(slots[k], series[k], placed).Ok?
    ensures r.Ok? ==> |r.value| == |slots| && forall k :: 0 <= k < |slots| ==> r.value[k] == Extend(slots[k], series[k], placed).value
  {
    hide Extend;
    var joined := [];
    for k := 0 to |slots|
      invariant |joined| == k
      invariant forall j :: 0 <= j < k ==> Extend(slots[j], series[j], placed) == Ok(joined[j])
    {
      var slot := Extend(slots[k], series[k], placed);
      if slot.Err? { return Err(slot.error); }
      joined := joined + [slot.value];
    }
    r := Ok(joined);
  }

  lemma {:induction false} JoinedNextFile(selections: seq<seq<Series>>, width: nat, masters: seq<seq<real>>, offsets: seq<real>,
                                          slots: seq<Slot>, series: seq<Series>, axis: seq<real>)
    requires |selections| < |masters| == |offsets| && GroupJoined(selections, width, masters, offsets, slots)
    requires |series| == width && forall k :: 0 <= k < width ==> ValidSeries(series[k], |masters[|selections|]|)
    requires axis == JoinedAxis(masters, offsets, |selections|)
    ensures var placed := Placed(masters[|selections|], offsets[|selections|], LastTime(axis));
      && (forall k :: 0 <= k < width ==> ValidSlot(slots[k]) && ValidSeries(series[k], |placed|))
      && (forall k :: 0 <= k < width ==>
            (Extend(slots[k], series[k], placed).Err? <==>
              selections != [] && !SameShape(selections[0][k].values, series[k].values)))
      && (forall k :: 0 <= k < width && Extend(slots[k], series[k], placed).Ok? ==>
            SlotJoined(SlotOf(selections + [series], k), masters, offsets, Extend(slots[k], series[k], placed).value))
  {
    hide Extend, Placed, ValidSeries, JoinedAxis;
    forall k | 0 <= k < width
      ensures slots[k].timestamps == axis && ValidSlot(slots[k])
      ensures SlotOf(selections + [series], k) == SlotOf(selections, k) + [series[k]]
    {
      assert SlotJoined(SlotOf(selections, k), masters, offsets, slots[k]);
      assert |SlotOf(selections, k)| == |selections|;
    }
    hide SlotJoined;
    forall k | 0 <= k < width
      ensures var placed := Placed(masters[|selections|], offsets[|selections|], LastTime(axis));
        && ValidSeries(series[k], |placed|)
        && (Extend(slots[k], series[k], placed).Err? <==> selections != [] && !SameShape(selections[0][k].values, series[k].values))
        && (Extend(slots[k], series[k], placed).Ok? ==>
              SlotJoined(SlotOf(selections + [series], k), masters, offsets, Extend(slots[k], series[k], placed).value))
    {
      SlotNext(SlotOf(selections, k), masters, offsets, slots[k], series[k]);
    }
  }

  /** The files' channels for the first file's slots, one selection a file. */
  ghost predicate Selections(parts: seq<Group>, at: seq<seq<nat>>, selections: seq<seq<Series>>)
    requires parts != []
  {
    && |at| == |selections| <= |parts|
    && forall f :: 0 <= f < |at| ==>
        && |selections[f]| == |parts[0].channels| && Selects(at[f], parts[0], parts[f])
        && forall k :: 0 <= k < |at[f]| ==> at[f][k] < |parts[f].channels| && selections[f][k] == parts[f].channels[at[f][k]]
  }

  /** Each file's channel for a slot has the name of the first file's channel there; no channel is taken twice, and those of one
      name are taken in order. */
  lemma {:induction false} SelectedByName(parts: seq<Group>, at: seq<seq<nat>>, selections: seq<seq<Series>>, f: nat, k: nat)
    requires parts != [] && Selections(parts, at, selections) && f < |at| && k < |parts[0].channels|
    ensures |at[f]| == |selections[f]| == |parts[f].channels| == |parts[0].channels|
    ensures at[f][k] < |parts[f].channels| && selections[f][k] == parts[f].channels[at[f][k]]
    ensures selections[f][k].name == parts[0].channels[k].name
    ensures forall j :: 0 <= j < k ==>
      at[f][j] != at[f][k] && (parts[0].channels[j].name == parts[0].channels[k].name ==> at[f][j] < at[f][k])
  {
    hide SameNames;
    assert Selects(at[f], parts[0], parts[f]);
    assert Names(parts[f])[at[f][k]] == Names(parts[0])[k];
    forall j | 0 <= j < k
      ensures at[f][j] != at[f][k] && (parts[0].channels[j].name == parts[0].channels[k].name ==> at[f][j] < at[f][k])
    {
      assert Names(parts[0])[j] == parts[0].channels[j].name;
    }
  }

  /** Some slot has channels in two files that are not represented alike. */
  ghost predicate Mixed(selections: seq<seq<Series>>, width: nat)
    requires forall f :: 0 <= f < |selections| ==> |selections[f]| == width
  {
    exists f, k :: 0 <= f < |selections| && 0 <= k < width && !SameShape(selections[0][k].values, selections[f][k].values)
  }

  lemma {:induction false} GroupStarts(width: nat, masters: seq<seq<real>>, offsets: seq<real>)
    requires |masters| == |offsets|
    ensures GroupJoined([], width, masters, offsets, seq(width, _ => EMPTY))
  {
    NothingPicked(masters, offsets);
    forall k | 0 <= k < width ensures SlotOf([], k) == [] {
    }
  }

  lemma {:induction false} GroupNext(selections: seq<seq<Series>>, width: nat, masters: seq<seq<real>>, offsets: seq<real>,
                                     slots: seq<Slot>, series: seq<Series>, joined: seq<Slot>)
    requires |selections| < |masters| == |offsets| && GroupJoined(selections, width, masters, offsets, slots)
    requires |series| == width == |joined|
    requires forall k :: 0 <= k < width ==> SlotJoined(SlotOf(selections + [series], k), masters, offsets, joined[k])
    ensures GroupJoined(selections + [series], width, masters, offsets, joined)
  {
  }

  /** The series of one file in slot order. */
  method Select(first: Group, g: Group) returns (at: seq<nat>, series: seq<Series>)
    requires SameNames(first, g)
    ensures Selects(at, first, g) && |series| == |at|
    ensures forall k :: 0 <= k < |at| ==> at[k] < |g.channels| && series[k] == g.channels[at[k]]
  {
    at := MatchNames(Names(first), Names(g));
    series := Selected(g, at);
  }

  lemma {:induction false} SelectedValid(g: Group, at: seq<nat>, series: seq<Series>)
    requires ValidGroup(g) && |series| == |at|
    requires forall k :: 0 <= k < |at| ==> at[k] < |g.channels| && series[k] == g.channels[at[k]]
    ensures forall k :: 0 <= k < |series| ==> ValidSeries(series[k], |g.master|)
  {
    hide ValidSeries;
  }

  /** One group of every file, joined. The matching never comes up empty, and the only error left is two files that
      represent a channel's samples differently. */
  method JoinGroup(parts: seq<Group>, offsets: seq<real>)
    returns (r: Result<seq<Slot>, JoinError>, ghost at: seq<seq<nat>>, ghost selections: seq<seq<Series>>)
    requires parts != [] && |offsets| == |parts|
    requires forall f :: 0 <= f < |parts| ==> ValidGroup(parts[f]) && SameNames(parts[0], parts[f])
    ensures Selections(parts, at, selections)
    ensures forall f :: 0 <= f < |selections| ==> |selections[f]| == |parts[0].channels|
    ensures r.Ok? ==>
      && |selections| == |parts| && !Mixed(selections, |parts[0].channels|)
      && GroupJoined(selections, |parts[0].channels|, Masters(parts), offsets, r.value)
    ensures r.Err? ==> Mixed(selections, |parts[0].channels|)
  {
    hide GroupJoined, ValidGroup, SameNames, Selects, Extend, ValidSeries, ValidSlot, SlotJoined, JoinedAxis, Placed, SlotOf;
    var width := |parts[0].channels|;
    var slots := seq(width, _ => EMPTY);
    var last: Option<real> := None;
    at, selections := [], [];
    GroupStarts(width, Masters(parts), offsets);
    ghost var axis: seq<real> := [];
    NothingJoined(Masters(parts), offsets);
    for f := 0 to |parts|
      invariant |selections| == f && |slots| == width && Selections(parts, at, selections)
      invariant forall g :: 0 <= g < |selections| ==> |selections[g]| == width
      invariant GroupJoined(selections, width, Masters(parts), offsets, slots)
      invariant axis == JoinedAxis(Masters(parts), offsets, f) && last == LastTime(axis)
      invariant !Mixed(selections, width)
    {
      var chosen, series := Select(parts[0], parts[f]);
      SelectedValid(parts[f], chosen, series);
      WidthOf(chosen, parts[0], parts[f]);
      JoinedNextFile(selections, width, Masters(parts), offsets, slots, series, axis);
      var placed;
      ghost var before := last;
      placed, last := PlaceMaster(parts[f].master, offsets[f], last);
      var joined := JoinFile(slots, series, placed);
      MixedNext(selections, width, series);
      at, selections := at + [chosen], selections + [series];
      if joined.Err? { return Err(joined.error), at, selections; }
      GroupNext(selections[..f], width, Masters(parts), offsets, slots, series, joined.value);
      assert selections[..f] + [series] == selections;
      JoinedNext(Masters(parts), offsets, f);
      LastMoves(axis, placed, parts[f].master, offsets[f], before);
      axis := axis + placed;
      slots := joined.value;
    }
    r := Ok(slots);
  }

  lemma {:induction false} WidthOf(at: seq<nat>, first: Group, g: Group)
    requires Selects(at, first, g)
    ensures |at| == |first.channels|
  {
  }

  lemma {:induction false} LastMoves(axis: seq<real>, placed: seq<real>, master: seq<real>, offset: real, last: Option<real>)
    requires placed == Placed(master, offset, last) && last == LastTime(axis)
    ensures LastTime(axis + placed) == if master == [] then last else LastTime(placed)
  {
  }

  lemma {:induction false} MixedNext(selections: seq<seq<Series>>, width: nat, series: seq<Series>)
    requires |series| == width && forall f :: 0 <= f < |selections| ==> |selections[f]| == width
    requires !Mixed(selections, width)
    ensures forall f :: 0 <= f < |selections + [series]| ==> |(selections + [series])[f]| == width
    ensures Mixed(selections + [series], width) <==>
      selections != [] && exists k :: 0 <= k < width && !SameShape(selections[0][k].values, series[k].values)
  {
    var all := selections + [series];
    if Mixed(all, width) {
      var f, k :| 0 <= f < |all| && 0 <= k < width && !SameShape(all[0][k].values, all[f][k].values);
      SameShapeAgain(all[f][k].values, all[f][k].values, all[f][k].values);
    }
    if k :| selections != [] && 0 <= k < width && !SameShape(selections[0][k].values, series[k].values) {
      assert !SameShape(all[0][k].values, all[|selections|][k].values);
    }
  }

  // ---------------------------------------------------------------- `concatenate`

  datatype Alignment = StartTime | AsRecorded

  const I64_MAX: int := 0x7FFF_FFFF_FFFF_FFFF

  /** The earliest header start time. */
  function Earliest(files: seq<File>): (ns: int)
    requires files != []
    ensures forall f :: 0 <= f < |files| ==> ns <= files[f].startNs
  {
    if |files| == 1 then files[0].startNs else
      var before, last := Earliest(files[..|files| - 1]), files[|files| - 1].startNs;
      assert forall f :: 0 <= f < |files| - 1 ==> files[..|files| - 1][f] == files[f];
      if before < last then before else last
  }

  lemma {:induction false} EarliestIsOne(files: seq<File>)
    requires files != []
    ensures exists f :: 0 <= f < |files| && files[f].startNs == Earliest(files)
  {
    var n := |files| - 1;
    if n == 0 {
      assert files[0].startNs == Earliest(files);
    } else {
      EarliestIsOne(files[..n]);
      var f :| 0 <= f < n && files[..n][f].startNs == Earliest(files[..n]);
      assert files[f].startNs == Earliest(files[..n]) && files[n].startNs == files[n].startNs;
    }
  }

  /** A file's offset in seconds, its nanoseconds behind the earliest file held to 63 bits. */
  function OffsetOf(files: seq<File>, alignment: Alignment, f: nat): (offset: real)
    requires f < |files|
    ensures offset >= 0.0
  {
    if alignment.AsRecorded? then 0.0
    else
      var behind := files[f].startNs - Earliest(files);
      (if behind > I64_MAX then I64_MAX else behind) as real / 1_000_000_000.0
  }

  /** `start_time_offsets`. */
  function StartOffsets(files: seq<File>, alignment: Alignment): (offsets: seq<real>)
    ensures |offsets| == |files|
  {
    seq(|files|, f requires 0 <= f < |files| => OffsetOf(files, alignment, f))
  }

  /** By start times a file's offset is how far it starts behind the earliest, in seconds, held to 63 bits of nanoseconds; as
      recorded it is zero. */
  lemma {:induction false} OffsetIs(files: seq<File>, alignment: Alignment, f: nat, e: nat)
    requires f < |files| && e < |files| && forall i :: 0 <= i < |files| ==> files[e].startNs <= files[i].startNs
    ensures alignment.AsRecorded? ==> StartOffsets(files, alignment)[f] == 0.0
    ensures alignment.StartTime? && files[f].startNs - files[e].startNs < 0x8000_0000_0000_0000 ==>
      StartOffsets(files, alignment)[f] * 1_000_000_000.0 == (files[f].startNs - files[e].startNs) as real
    ensures alignment.StartTime? && files[f].startNs - files[e].startNs >= 0x8000_0000_0000_0000 ==>
      StartOffsets(files, alignment)[f] * 1_000_000_000.0 == 0x7FFF_FFFF_FFFF_FFFF as real
  {
    EarliestIsOne(files);
    var o :| 0 <= o < |files| && files[o].startNs == Earliest(files);
    assert files[e].startNs <= files[o].startNs;
  }

  /** Group `g` of every file. */
  function PartsOf(files: seq<File>, g: nat): (parts: seq<Group>)
    requires forall f :: 0 <= f < |files| ==> g < |files[f].groups|
    ensures |parts| == |files|
  {
    seq(|files|, f requires 0 <= f < |files| => files[f].groups[g])
  }

  /** A joined channel: the first file's name, and what was gathered for it. */
  datatype Joined = Joined(name: string, slot: Slot)

  function Named(g: Group, slots: seq<Slot>): (joined: seq<Joined>)
    requires |slots| == |g.channels|
    ensures |joined| == |slots|
  {
    seq(|slots|, k requires 0 <= k < |slots| => Joined(g.channels[k].name, slots[k]))
  }

  /** What the joined channels of one group are, `selections` saying which of each file's channels went where. */
  ghost predicate GroupResult(parts: seq<Group>, offsets: seq<real>, at: seq<seq<nat>>, selections: seq<seq<Series>>, joined: seq<Joined>)
    requires parts != [] && |offsets| == |parts|
  {
    && |joined| == |parts[0].channels|
    && (joined != [] ==>
        && |selections| == |parts| && Selections(parts, at, selections)
        && (forall f :: 0 <= f < |selections| ==> |selections[f]| == |joined|)
        && forall k :: 0 <= k < |joined| ==>
            joined[k].name == parts[0].channels[k].name
            && SlotJoined(SlotOf(selections, k), Masters(parts), offsets, joined[k].slot))
  }

  /** What `SignalSeries::new` checks. */
  predicate LengthsAgree(s: Slot) {
    && s.values.Some? && |s.timestamps| == Count(s.values.value)
    && (s.validity.Some? ==> |s.validity.value| == Count(s.values.value))
  }

  /** Every joined channel passes that check: as many timestamps as values, and as many flags if there are any. */
  lemma {:induction false} ResultLengthsAgree(parts: seq<Group>, offsets: seq<real>, at: seq<seq<nat>>, selections: seq<seq<Series>>,
                                              joined: seq<Joined>, k: nat)
    requires parts != [] && |offsets| == |parts| && GroupResult(parts, offsets, at, selections, joined) && k < |joined|
    ensures LengthsAgree(joined[k].slot)
  {
    hide WellFormed, Holds;
    assert SlotJoined(SlotOf(selections, k), Masters(parts), offsets, joined[k].slot);
  }

  /** Where each timestamp of each file comes in a joined channel, and which time it is there. */
  lemma {:induction false} ResultTimes(files: seq<File>, alignment: Alignment, g: nat, at: seq<seq<nat>>, selections: seq<seq<Series>>,
                                       joined: seq<Joined>, k: nat, f: nat, i: nat)
    requires files != [] && (forall h :: 0 <= h < |files| ==> g < |files[h].groups|)
    requires GroupResult(PartsOf(files, g), StartOffsets(files, alignment), at, selections, joined) && k < |joined|
    requires f < |files| && i < |files[f].groups[g].master|
    ensures var before := JoinedAxis(Masters(PartsOf(files, g)), StartOffsets(files, alignment), f);
      && |before| + i < |joined[k].slot.timestamps|
      && joined[k].slot.timestamps[|before| + i] == TimeDue(before, files[f].groups[g].master, StartOffsets(files, alignment)[f], i)
  {
    hide ValidSlot, Holds, JoinedAxis, StartOffsets, TimeDue, Selections;
    var masters, offsets := Masters(PartsOf(files, g)), StartOffsets(files, alignment);
    assert SlotJoined(SlotOf(selections, k), masters, offsets, joined[k].slot);
    JoinedTimes(masters, offsets, |files|, f, i);
  }

  /** And where every file's axis is non-decreasing, so is every joined one. */
  lemma {:induction false} ResultNonDecreasing(parts: seq<Group>, offsets: seq<real>, at: seq<seq<nat>>, selections: seq<seq<Series>>,
                                               joined: seq<Joined>, k: nat)
    requires parts != [] && |offsets| == |parts| && GroupResult(parts, offsets, at, selections, joined) && k < |joined|
    requires forall f :: 0 <= f < |parts| ==> NonDecreasing(parts[f].master)
    ensures NonDecreasing(joined[k].slot.timestamps)
  {
    hide NonDecreasing, JoinedAxis, Holds;
    assert SlotJoined(SlotOf(selections, k), Masters(parts), offsets, joined[k].slot);
    JoinedAxisNonDecreasing(Masters(parts), offsets, |parts|);
  }

  /** One group of the result. */
  method ConcatenateGroup(parts: seq<Group>, offsets: seq<real>)
    returns (r: Result<seq<Joined>, JoinError>, ghost at: seq<seq<nat>>, ghost selections: seq<seq<Series>>)
    requires parts != [] && |offsets| == |parts|
    requires forall f :: 0 <= f < |parts| ==> ValidGroup(parts[f]) && SameNames(parts[0], parts[f])
    ensures r.Ok? ==> GroupResult(parts, offsets, at, selections, r.value)
    ensures Selections(parts, at, selections) && forall f :: 0 <= f < |selections| ==> |selections[f]| == |parts[0].channels|
    ensures r.Err? ==> Mixed(selections, |parts[0].channels|)
  {
    hide SlotJoined, SlotOf, Selects, SameNames, ValidGroup, Mixed;
    at, selections := [], [];
    if parts[0].channels == [] { return Ok([]), at, selections; }
    var slots;
    slots, at, selections := JoinGroup(parts, offsets);
    if slots.Err? { return Err(slots.error), at, selections; }
    r := Ok(Named(parts[0], slots.value));
  }

  ghost predicate Aligned(files: seq<File>, g: nat)
    requires files != []
  {
    && g < |files[0].groups|
    && forall f :: 0 <= f < |files| ==>
        g < |files[f].groups| && ValidGroup(files[f].groups[g]) && SameNames(files[0].groups[g], files[f].groups[g])
  }

  lemma {:induction false} StructureAligned(files: seq<File>, g: nat)
    requires files != [] && SameStructure(files) && (forall f :: 0 <= f < |files| ==> ValidFile(files[f])) && g < |files[0].groups|
    ensures Aligned(files, g)
  {
    forall f | 0 <= f < |files|
      ensures g < |files[f].groups| && ValidGroup(files[f].groups[g]) && SameNames(files[0].groups[g], files[f].groups[g])
    {
      assert SameGroups(files[0], files[f]) && ValidFile(files[f]);
    }
  }

  /** Group `g` holds a channel that two files represent differently. */
  ghost predicate MixedIn(files: seq<File>, at: seq<seq<seq<nat>>>, selections: seq<seq<seq<Series>>>, g: nat)
    requires files != [] && |at| == |selections|
  {
    && g < |selections| && Aligned(files, g) && Selections(PartsOf(files, g), at[g], selections[g])
    && (forall f :: 0 <= f < |selections[g]| ==> |selections[g][f]| == |files[0].groups[g].channels|)
    && Mixed(selections[g], |files[0].groups[g].channels|)
  }

  /** `concatenate`: the joined channels group after group, each group as `GroupResult` says. With the structure agreed
      on, only a channel represented differently by two files stops it. */
  method ConcatenateFiles(files: seq<File>, alignment: Alignment)
    returns (r: Result<seq<Joined>, JoinError>, ghost groups: seq<seq<Joined>>, ghost at: seq<seq<seq<nat>>>, ghost selections: seq<seq<seq<Series>>>)
    requires forall f :: 0 <= f < |files| ==> ValidFile(files[f])
    ensures files == [] ==> r == Err(NoFiles)
    ensures files != [] && !SameStructure(files) ==> r == Err(DifferentStructure)
    ensures r.Ok? ==>
      && files != [] && SameStructure(files) && r.value == Bytes.Flatten(groups)
      && |groups| == |at| == |selections| == |files[0].groups|
      && forall g :: 0 <= g < |groups| ==>
          Aligned(files, g) && GroupResult(PartsOf(files, g), StartOffsets(files, alignment), at[g], selections[g], groups[g])
    ensures r.Err? && files != [] && SameStructure(files) ==> |at| == |selections| && MixedIn(files, at, selections, |groups|)
  {
    hide SameStructure, ValidFile, SameNames, ValidGroup, GroupResult, OffsetOf, Selections, Mixed;
    groups, at, selections := [], [], [];
    if files == [] { return Err(NoFiles), groups, at, selections; }
    var offsets := StartOffsets(files, alignment);
    var same := CheckSameStructure(files);
    if !same { return Err(DifferentStructure), groups, at, selections; }
    var out := [];
    for g := 0 to |files[0].groups|
      invariant out == Bytes.Flatten(groups) && |groups| == |at| == |selections| == g
      invariant forall h :: 0 <= h < g ==> Aligned(files, h) && GroupResult(PartsOf(files, h), offsets, at[h], selections[h], groups[h])
    {
      StructureAligned(files, g);
      var joined;
      ghost var chosen, picked;
      joined, chosen, picked := ConcatenateGroup(PartsOf(files, g), offsets);
      if joined.Err? { return Err(joined.error), groups, at + [chosen], selections + [picked]; }
      assert (groups + [joined.value])[..g] == groups;
      out := out + joined.value;
      groups, at, selections := groups + [joined.value], at + [chosen], selections + [picked];
    }
    r := Ok(out);
  }
}
