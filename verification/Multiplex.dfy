/** Multiplexed CAN signals: selection and its memo (src/candb.rs), guarded by the graph check (src/dbc.rs). */
module Multiplex {
  import opened Bytes
  import opened Options
  import opened CanBits

  const MAX_MUX_DEPTH: nat := 64

  datatype Multiplexing =
    | Plain
    | Switch
    | Selected(want: nat)
    | RangeSelected(multiplexor: string, ranges: seq<(nat, nat)>)

  datatype Signal = Signal(name: string, placement: Placement, multiplexing: Multiplexing)

  type Message = seq<Signal>

  function Raw(s: Signal, payload: seq<byte>): (raw: Option<nat>)
    ensures raw == RawValue(s.placement, payload)
  {
    RawValue(s.placement, payload)
  }

  // ---------------------------------------------------------------- the chain of multiplexors

  /** The message's switch: the first signal that is one. */
  function FindSwitch(signals: Message): Option<Signal> {
    if signals == [] then None
    else if signals[0].multiplexing == Switch then Some(signals[0])
    else FindSwitch(signals[1..])
  }

  function FindNamed(signals: Message, name: string): Option<Signal> {
    if signals == [] then None
    else if signals[0].name == name then Some(signals[0])
    else FindNamed(signals[1..], name)
  }

  predicate IsMultiplexed(s: Signal) {
    s.multiplexing.Selected? || s.multiplexing.RangeSelected?
  }

  /** The multiplexor a multiplexed signal is read under, when the message has it. */
  function Multiplexor(signals: Message, s: Signal): Option<Signal> {
    match s.multiplexing
    case Selected(_) => FindSwitch(signals)
    case RangeSelected(name, _) => FindNamed(signals, name)
    case _ => None
  }

  type Step = Signal -> Option<Signal>

  /** The `k`-th signal on the way up from `s`; `s` itself is the zeroth. */
  function Up(next: Step, s: Signal, k: nat): Option<Signal> {
    if k == 0 then Some(s) else
    match Up(next, s, k - 1)
    case None => None
    case Some(t) => next(t)
  }

  /** The way up as the decoder takes it. */
  function Decoding(signals: Message): Step {
    (t: Signal) => Multiplexor(signals, t)
  }

  /** The `k`-th multiplexor above a signal. */
  function Above(signals: Message, s: Signal, k: nat): Option<Signal> {
    Up(Decoding(signals), s, k)
  }

  predicate Matches(m: Multiplexing, raw: nat) {
    match m
    case Selected(want) => raw == want
    case RangeSelected(_, ranges) => exists i :: 0 <= i < |ranges| && ranges[i].0 <= raw <= ranges[i].1
    case _ => true
  }

  /** A signal's own multiplexor, when it has one, is there, readable and at a value that selects the signal. */
  predicate LinkHolds(signals: Message, t: Signal, payload: seq<byte>) {
    IsMultiplexed(t) ==>
      && Multiplexor(signals, t).Some?
      && Raw(Multiplexor(signals, t).value, payload).Some?
      && Matches(t.multiplexing, Raw(Multiplexor(signals, t).value, payload).value)
  }

  /** The plain definition, with no bound and no memo: every link of the chain above the signal holds. */
  ghost predicate Present(signals: Message, s: Signal, payload: seq<byte>) {
    forall k: nat :: Above(signals, s, k).Some? ==> LinkHolds(signals, Above(signals, s, k).value, payload)
  }

  predicate DistinctNames(signals: Message) {
    forall i, j :: 0 <= i < j < |signals| ==> signals[i].name != signals[j].name
  }

  lemma {:induction false} FoundSwitch(signals: Message)
    ensures FindSwitch(signals).Some? ==> FindSwitch(signals).value in signals && FindSwitch(signals).value.multiplexing == Switch
  {
    if signals != [] { FoundSwitch(signals[1..]); }
  }

  lemma {:induction false} FoundNamed(signals: Message, name: string)
    ensures FindNamed(signals, name).Some? ==> FindNamed(signals, name).value in signals && FindNamed(signals, name).value.name == name
  {
    if signals != [] { FoundNamed(signals[1..], name); }
  }

  /** With distinct names, a signal of the message is the one its name finds. */
  lemma {:induction false} NameFinds(signals: Message, s: Signal)
    requires DistinctNames(signals) && s in signals
    ensures FindNamed(signals, s.name) == Some(s)
  {
    if signals[0] != s {
      assert s in signals[1..];
      var i :| 0 <= i < |signals| && signals[i] == s;
      NameFinds(signals[1..], s);
    }
  }

  lemma {:induction false} SameNameSame(signals: Message, s: Signal, t: Signal)
    requires DistinctNames(signals) && s in signals && t in signals && s.name == t.name
    ensures s == t
  {
    NameFinds(signals, s);
    NameFinds(signals, t);
  }

  lemma {:induction false} MultiplexorInMessage(signals: Message, s: Signal)
    ensures Multiplexor(signals, s).Some? ==> Multiplexor(signals, s).value in signals
  {
    FoundSwitch(signals);
    if s.multiplexing.RangeSelected? { FoundNamed(signals, s.multiplexing.multiplexor); }
  }

  lemma {:induction false} AboveInMessage(signals: Message, s: Signal, k: nat)
    requires s in signals
    ensures Above(signals, s, k).Some? ==> Above(signals, s, k).value in signals
  {
    if k > 0 && Above(signals, s, k - 1).Some? { MultiplexorInMessage(signals, Above(signals, s, k - 1).value); }
  }

  // ---------------------------------------------------------------- chains that end

  /** No signal stands 65 steps up the chain: it ends, and soon enough. */
  predicate ChainEnds(signals: Message, s: Signal) {
    Above(signals, s, 65).None?
  }

  lemma {:induction false} NoneAbove(next: Step, s: Signal, k: nat, n: nat)
    requires k <= n && Up(next, s, k).None?
    ensures Up(next, s, n).None?
    decreases n
  {
    if k < n { NoneAbove(next, s, k, n - 1); }
  }

  /** Where the way up comes back to a signal, it goes on as it did from there. */
  lemma {:induction false} GoesRound(next: Step, s: Signal, j: nat, k: nat, n: nat)
    requires Up(next, s, j) == Up(next, s, k)
    ensures Up(next, s, j + n) == Up(next, s, k + n)
  {
    if n > 0 { GoesRound(next, s, j, k, n - 1); }
  }

  /** A way up that comes back to a signal never ends. */
  lemma {:induction false} NeverEnds(next: Step, s: Signal, j: nat, k: nat, n: nat)
    requires j < k && Up(next, s, k).Some? && Up(next, s, j) == Up(next, s, k)
    ensures Up(next, s, n).Some?
    decreases n
  {
    if n <= k {
      if Up(next, s, n).None? { NoneAbove(next, s, n, k); }
    } else {
      NeverEnds(next, s, j, k, n - (k - j));
      GoesRound(next, s, j, k, n - k);
    }
  }

  /** A chain that ends passes no signal twice. */
  lemma {:induction false} NoSignalTwice(signals: Message, s: Signal, j: nat, k: nat)
    requires ChainEnds(signals, s) && j < k && Above(signals, s, k).Some?
    ensures Above(signals, s, j) != Above(signals, s, k)
  {
    if Above(signals, s, j) == Above(signals, s, k) { NeverEnds(Decoding(signals), s, j, k, MAX_MUX_DEPTH + 1); }
  }

  /** One step up, the chain is the rest of it. */
  lemma {:induction false} ChainTail(signals: Message, s: Signal, m: Signal, k: nat)
    requires Multiplexor(signals, s) == Some(m)
    ensures Above(signals, s, k + 1) == Above(signals, m, k)
  {
    if k == 0 {
      assert Up(Decoding(signals), s, 1) == Decoding(signals)(s);
    } else {
      ChainTail(signals, s, m, k - 1);
    }
  }

  lemma {:induction false} PresentByTail(signals: Message, s: Signal, m: Signal, payload: seq<byte>)
    requires Multiplexor(signals, s) == Some(m)
    ensures Present(signals, s, payload) <==> Present(signals, m, payload) && LinkHolds(signals, s, payload)
  {
    hide LinkHolds, Multiplexor;
    if Present(signals, s, payload) {
      assert Above(signals, s, 0) == Some(s);
      forall k: nat | Above(signals, m, k).Some? ensures LinkHolds(signals, Above(signals, m, k).value, payload) {
        ChainTail(signals, s, m, k);
        assert Above(signals, s, k + 1).Some?;
      }
    }
    if Present(signals, m, payload) && LinkHolds(signals, s, payload) {
      forall k: nat | Above(signals, s, k).Some? ensures LinkHolds(signals, Above(signals, s, k).value, payload) {
        if k > 0 { ChainTail(signals, s, m, k - 1); }
      }
    }
  }

  lemma {:induction false} PresentAlone(signals: Message, s: Signal, payload: seq<byte>)
    requires Multiplexor(signals, s).None?
    ensures Present(signals, s, payload) <==> LinkHolds(signals, s, payload)
  {
    hide LinkHolds, Multiplexor;
    if Present(signals, s, payload) { assert Above(signals, s, 0) == Some(s); }
    forall k: nat | k > 0 ensures Above(signals, s, k).None? {
      NoneAbove(Decoding(signals), s, 1, k);
    }
  }

  // ---------------------------------------------------------------- the graph check

  /** The multiplexor's name as the check finds it, and the signal it takes that name for. */
  function MultiplexorName(signals: Message, m: Multiplexing): Option<string> {
    match m
    case Selected(_) => (match FindSwitch(signals) case Some(s) => Some(s.name) case None => None)
    case RangeSelected(name, _) => Some(name)
    case _ => None
  }

  /** The way up as the check takes it: by name at every step. */
  function Checking(signals: Message): Step {
    (t: Signal) =>
      match MultiplexorName(signals, t.multiplexing)
      case None => None
      case Some(name) => FindNamed(signals, name)
  }

  function ByName(signals: Message, s: Signal, k: nat): Option<Signal> {
    Up(Checking(signals), s, k)
  }

  /** With distinct names the check follows the chain the decoder follows. */
  lemma {:induction false} SameChain(signals: Message, s: Signal, k: nat)
    requires DistinctNames(signals)
    ensures ByName(signals, s, k) == Above(signals, s, k)
  {
    if k > 0 {
      SameChain(signals, s, k - 1);
      FoundSwitch(signals);
      if FindSwitch(signals).Some? { NameFinds(signals, FindSwitch(signals).value); }
    }
  }

  ghost predicate EndsByName(signals: Message, s: Signal) {
    ByName(signals, s, 65).None?
  }

  /** The names passed on the way up, each with the signal it was taken for. */
  ghost predicate VisitedUpTo(signals: Message, s: Signal, visited: set<string>, depth: nat) {
    && (forall name :: name in visited ==>
          exists j: nat :: 0 < j <= depth && ByName(signals, s, j).Some? && FindNamed(signals, name) == ByName(signals, s, j))
  }

  /** One signal's chain: no name twice, and not too long. */
  method ChainAccepted(signals: Message, start: Signal) returns (ok: bool)
    ensures ok <==> EndsByName(signals, start)
  {
    var current, visited, depth := start.multiplexing, {}, 0;
    ghost var at := start;
    while true
      invariant depth <= MAX_MUX_DEPTH + 1
      invariant ByName(signals, start, depth) == Some(at) && current == at.multiplexing
      invariant VisitedUpTo(signals, start, visited, depth)
      decreases MAX_MUX_DEPTH + 1 - depth
    {
      if depth > MAX_MUX_DEPTH { return false; }
      var name := MultiplexorName(signals, current);
      if name.None? {
        NoneAbove(Checking(signals), start, depth + 1, MAX_MUX_DEPTH + 1);
        return true;
      }
      if name.value in visited {
        var j: nat :| 0 < j <= depth && ByName(signals, start, j).Some? && FindNamed(signals, name.value) == ByName(signals, start, j);
        NeverEnds(Checking(signals), start, j, depth + 1, MAX_MUX_DEPTH + 1);
        return false;
      }
      visited := visited + {name.value};
      var next := FindNamed(signals, name.value);
      if next.None? {
        NoneAbove(Checking(signals), start, depth + 1, MAX_MUX_DEPTH + 1);
        return true;
      }
      current, at, depth := next.value.multiplexing, next.value, depth + 1;
    }
  }

  /** `validate_multiplexor_graph`. */
  method ValidateGraph(signals: Message) returns (ok: bool)
    ensures ok <==> forall i :: 0 <= i < |signals| ==> EndsByName(signals, signals[i])
  {
    for i := 0 to |signals|
      invariant forall k :: 0 <= k < i ==> EndsByName(signals, signals[k])
    {
      var accepted := ChainAccepted(signals, signals[i]);
      if !accepted { return false; }
    }
    ok := true;
  }

  ghost predicate Accepted(signals: Message) {
    forall i :: 0 <= i < |signals| ==> EndsByName(signals, signals[i])
  }

  lemma {:induction false} AcceptedEnds(signals: Message, s: Signal)
    requires Accepted(signals) && DistinctNames(signals) && s in signals
    ensures ChainEnds(signals, s)
  {
    SameChain(signals, s, MAX_MUX_DEPTH + 1);
  }

  // ---------------------------------------------------------------- selection

  datatype Outcome = Decided(present: bool) | CutOff

  /** Raw values already read, by name. */
  type Memo = map<string, nat>

  /** What `raw_value_cached` answers: the value filed under the signal's name, whichever signal it was read from. */
  function Recalled(s: Signal, payload: seq<byte>, memo: Memo): Option<nat> {
    if s.name in memo then Some(memo[s.name]) else Raw(s, payload)
  }

  function Remembered(s: Signal, payload: seq<byte>, memo: Memo): (memo': Memo)
    ensures Keeps(memo, memo')
  {
    if s.name in memo || Raw(s, payload).None? then memo else memo[s.name := Raw(s, payload).value]
  }

  predicate Keeps(memo: Memo, memo': Memo) {
    forall name :: name in memo ==> name in memo' && memo'[name] == memo[name]
  }

  /** `is_selected`: its answer, and what it leaves in the memo; `CutOff` where it stops for depth or because the name
      is on its path already. */
  function Select(signals: Message, s: Signal, payload: seq<byte>, memo: Memo, visiting: set<string>, depth: nat): (r: (Outcome, Memo))
    ensures Keeps(memo, r.1)
    decreases if depth > MAX_MUX_DEPTH then 0 else MAX_MUX_DEPTH + 1 - depth
  {
    if depth > MAX_MUX_DEPTH || s.name in visiting then (CutOff, memo)
    else if !IsMultiplexed(s) then (Decided(true), memo)
    else
      match Multiplexor(signals, s)
      case None => (Decided(false), memo)
      case Some(m) =>
        var up := Select(signals, m, payload, memo, visiting + {s.name}, depth + 1);
        if up.0 != Decided(true) then up else (Decided(Opens(s, Recalled(m, payload, up.1))), Remembered(m, payload, up.1))
  }

  /** A multiplexor's value selects the signal. */
  predicate Opens(s: Signal, raw: Option<nat>) {
    raw.Some? && Matches(s.multiplexing, raw.value)
  }

  /** No name on the chain is on the path already or comes twice, and the chain fits in the depth that is left. */
  ghost predicate Clear(signals: Message, s: Signal, visiting: set<string>, depth: nat) {
    forall k: nat :: Above(signals, s, k).Some? ==>
      && depth + k <= MAX_MUX_DEPTH
      && Above(signals, s, k).value.name !in visiting
      && NewName(signals, s, k)
  }

  ghost predicate NewName(signals: Message, s: Signal, k: nat)
    requires Above(signals, s, k).Some?
  {
    forall j: nat :: j < k && Above(signals, s, j).Some? ==> Above(signals, s, j).value.name != Above(signals, s, k).value.name
  }

  lemma {:induction false} Zeroth(signals: Message, s: Signal)
    ensures Above(signals, s, 0) == Some(s)
  {
  }

  /** A signal's chain is clear when the signal is and the chain above it is, with the signal's name on the path. */
  lemma {:induction false} ClearByTail(signals: Message, s: Signal, m: Signal, visiting: set<string>, depth: nat)
    requires Multiplexor(signals, s) == Some(m) && depth <= MAX_MUX_DEPTH && s.name !in visiting
    ensures Clear(signals, s, visiting, depth) <==> Clear(signals, m, visiting + {s.name}, depth + 1)
  {
    hide Above;
    Zeroth(signals, s);
    if Clear(signals, s, visiting, depth) {
      forall k: nat | Above(signals, m, k).Some?
        ensures depth + 1 + k <= MAX_MUX_DEPTH && Above(signals, m, k).value.name !in visiting + {s.name} && NewName(signals, m, k)
      {
        ChainTail(signals, s, m, k);
        assert NewName(signals, s, k + 1);
        forall j: nat | j < k && Above(signals, m, j).Some?
          ensures Above(signals, m, j).value.name != Above(signals, m, k).value.name
        {
          ChainTail(signals, s, m, j);
        }
      }
    }
    if Clear(signals, m, visiting + {s.name}, depth + 1) {
      forall k: nat | Above(signals, s, k).Some?
        ensures depth + k <= MAX_MUX_DEPTH && Above(signals, s, k).value.name !in visiting && NewName(signals, s, k)
      {
        if k > 0 {
          ChainTail(signals, s, m, k - 1);
          assert NewName(signals, m, k - 1);
          forall j: nat | j < k && Above(signals, s, j).Some?
            ensures Above(signals, s, j).value.name != Above(signals, s, k).value.name
          {
            if j > 0 { ChainTail(signals, s, m, j - 1); }
          }
        }
      }
    }
  }

  lemma {:induction false} ClearAlone(signals: Message, s: Signal, visiting: set<string>, depth: nat)
    requires Multiplexor(signals, s).None? && depth <= MAX_MUX_DEPTH && s.name !in visiting
    ensures Clear(signals, s, visiting, depth)
  {
    forall k: nat | k > 0 ensures Above(signals, s, k).None? {
      NoneAbove(Decoding(signals), s, 1, k);
    }
  }

  /** In any message and whatever has been read, selection is cut off exactly when a name comes twice on the signal's
      chain or the chain is too long; and then nothing is read. */
  lemma {:induction false} CutOffExactly(signals: Message, s: Signal, payload: seq<byte>, memo: Memo, visiting: set<string>, depth: nat)
    ensures Select(signals, s, payload, memo, visiting, depth).0.CutOff? <==> !Clear(signals, s, visiting, depth)
    ensures Select(signals, s, payload, memo, visiting, depth).0.CutOff? ==> Select(signals, s, payload, memo, visiting, depth).1 == memo
    decreases if depth > MAX_MUX_DEPTH then 0 else MAX_MUX_DEPTH + 1 - depth
  {
    hide Above, Opens, Recalled, Remembered, Clear;
    if depth > MAX_MUX_DEPTH || s.name in visiting {
      NotClear(signals, s, visiting, depth);
    } else {
      match Multiplexor(signals, s)
      case None => ClearAlone(signals, s, visiting, depth);
      case Some(m) =>
        CutOffExactly(signals, m, payload, memo, visiting + {s.name}, depth + 1);
        ClearByTail(signals, s, m, visiting, depth);
    }
  }

  lemma {:induction false} NotClear(signals: Message, s: Signal, visiting: set<string>, depth: nat)
    requires depth > MAX_MUX_DEPTH || s.name in visiting
    ensures !Clear(signals, s, visiting, depth)
  {
    Zeroth(signals, s);
    if Clear(signals, s, visiting, depth) { assert false; }
  }

  lemma {:induction false} AcceptedClear(signals: Message, s: Signal)
    requires Accepted(signals) && DistinctNames(signals) && s in signals
    ensures Clear(signals, s, {}, 0)
  {
    hide Above, DistinctNames, Accepted;
    AcceptedEnds(signals, s);
    forall k: nat | Above(signals, s, k).Some? ensures k <= MAX_MUX_DEPTH && NewName(signals, s, k) {
      if k > MAX_MUX_DEPTH { EndedAbove(signals, s, k); }
      AboveInMessage(signals, s, k);
      forall j: nat | j < k && Above(signals, s, j).Some?
        ensures Above(signals, s, j).value.name != Above(signals, s, k).value.name
      {
        AboveInMessage(signals, s, j);
        NoSignalTwice(signals, s, j, k);
        if Above(signals, s, j).value.name == Above(signals, s, k).value.name {
          SameNameSame(signals, Above(signals, s, j).value, Above(signals, s, k).value);
        }
      }
    }
  }

  lemma {:induction false} EndedAbove(signals: Message, s: Signal, k: nat)
    requires ChainEnds(signals, s) && k > MAX_MUX_DEPTH
    ensures Above(signals, s, k).None?
  {
    NoneAbove(Decoding(signals), s, MAX_MUX_DEPTH + 1, k);
  }

  // ---------------------------------------------------------------- what the memo answers

  /** Signals that are present under one name read the same. */
  ghost predicate Unambiguous(signals: Message, payload: seq<byte>) {
    forall i, j :: 0 <= i < |signals| && 0 <= j < |signals| && signals[i].name == signals[j].name ==>
      Present(signals, signals[i], payload) && Present(signals, signals[j], payload) ==>
        Raw(signals[i], payload) == Raw(signals[j], payload)
  }

  ghost predicate Read(signals: Message, payload: seq<byte>, name: string, value: nat) {
    exists i :: 0 <= i < |signals| && signals[i].name == name
             && Present(signals, signals[i], payload) && Raw(signals[i], payload) == Some(value)
  }

  /** Everything filed was read from a signal of that name that is present. */
  ghost predicate MemoTrue(signals: Message, payload: seq<byte>, memo: Memo) {
    forall name :: name in memo ==> Read(signals, payload, name, memo[name])
  }

  lemma {:induction false} RecalledIsRaw(signals: Message, s: Signal, payload: seq<byte>, memo: Memo)
    requires Unambiguous(signals, payload) && MemoTrue(signals, payload, memo)
    requires s in signals && Present(signals, s, payload)
    ensures Recalled(s, payload, memo) == Raw(s, payload)
    ensures MemoTrue(signals, payload, Remembered(s, payload, memo))
  {
    hide Present, Raw;
    var i :| 0 <= i < |signals| && signals[i] == s;
    if s.name in memo {
      assert Read(signals, payload, s.name, memo[s.name]);
      var j :| 0 <= j < |signals| && signals[j].name == s.name
             && Present(signals, signals[j], payload) && Raw(signals[j], payload) == Some(memo[s.name]);
    } else if Raw(s, payload).Some? {
      assert Read(signals, payload, s.name, Raw(s, payload).value);
    }
  }

  /** A signal on a clear chain is selected exactly when it is present, as long as what is filed is true and present
      signals under one name read the same. */
  lemma {:induction false} SelectsPresent(signals: Message, s: Signal, payload: seq<byte>, memo: Memo, visiting: set<string>, depth: nat)
    requires Clear(signals, s, visiting, depth) && Unambiguous(signals, payload) && MemoTrue(signals, payload, memo)
    ensures Select(signals, s, payload, memo, visiting, depth).0 == Decided(Present(signals, s, payload))
    ensures MemoTrue(signals, payload, Select(signals, s, payload, memo, visiting, depth).1)
    decreases if depth > MAX_MUX_DEPTH then 0 else MAX_MUX_DEPTH + 1 - depth
  {
    hide Above, Present, Raw, Matches, Clear, Unambiguous, MemoTrue, Recalled, Remembered, Multiplexor;
    if depth > MAX_MUX_DEPTH || s.name in visiting {
      NotClear(signals, s, visiting, depth);
    } else {
      MultiplexedOrNot(signals, s);
      match Multiplexor(signals, s)
      case None => PresentAlone(signals, s, payload);
      case Some(m) =>
        ClearByTail(signals, s, m, visiting, depth);
        SelectsPresent(signals, m, payload, memo, visiting + {s.name}, depth + 1);
        PresentByTail(signals, s, m, payload);
        MultiplexorInMessage(signals, s);
        var up := Select(signals, m, payload, memo, visiting + {s.name}, depth + 1);
        if up.0 == Decided(true) { RecalledIsRaw(signals, m, payload, up.1); }
    }
  }

  lemma {:induction false} MultiplexedOrNot(signals: Message, s: Signal)
    ensures !IsMultiplexed(s) ==> Multiplexor(signals, s).None?
  {
  }

  lemma {:induction false} DistinctUnambiguous(signals: Message, payload: seq<byte>)
    requires DistinctNames(signals)
    ensures Unambiguous(signals, payload)
  {
    hide Present, Raw;
    forall i, j | 0 <= i < |signals| && 0 <= j < |signals| && signals[i].name == signals[j].name ensures i == j {
    }
  }

  /** On a message the check accepts, with distinct names: selection of any signal is the plain, unbounded definition,
      neither cutoff is ever taken, and only true raw values are filed. */
  lemma {:induction false} SelectionIsPresence(signals: Message, s: Signal, payload: seq<byte>, memo: Memo)
    requires Accepted(signals) && DistinctNames(signals) && s in signals && MemoTrue(signals, payload, memo)
    ensures Select(signals, s, payload, memo, {}, 0).0 == Decided(Present(signals, s, payload))
    ensures MemoTrue(signals, payload, Select(signals, s, payload, memo, {}, 0).1)
  {
    hide Accepted, DistinctNames, Clear, Unambiguous, MemoTrue, Present;
    AcceptedClear(signals, s);
    DistinctUnambiguous(signals, payload);
    SelectsPresent(signals, s, payload, memo, {}, 0);
  }

  // ---------------------------------------------------------------- decoding a frame

  datatype Reading = Reading(index: nat, raw: nat)

  datatype Decoded = Decoded(readings: seq<Reading>, memo: Memo)

  /** What `decode_each` has handed over, and has filed, after the first `n` signals. */
  function DecodeUpTo(signals: Message, payload: seq<byte>, n: nat): Decoded
    requires n <= |signals|
  {
    if n == 0 then Decoded([], map[]) else
      var before := DecodeUpTo(signals, payload, n - 1);
      After(signals, payload, n - 1, before)
  }

  function After(signals: Message, payload: seq<byte>, i: nat, before: Decoded): Decoded
    requires i < |signals|
  {
    var s := signals[i];
    var selected := Select(signals, s, payload, before.memo, {}, 0);
    if selected.0 != Decided(true) then Decoded(before.readings, selected.1) else
      Decoded(before.readings + Handed(i, Recalled(s, payload, selected.1)), Remembered(s, payload, selected.1))
  }

  function Handed(i: nat, raw: Option<nat>): seq<Reading> {
    match raw
    case None => []
    case Some(v) => [Reading(i, v)]
  }

  /** The readings of the signals that are present, in order. */
  ghost function PresentReadings(signals: Message, payload: seq<byte>, n: nat): seq<Reading>
    requires n <= |signals|
  {
    if n == 0 then [] else
      var s := signals[n - 1];
      PresentReadings(signals, payload, n - 1) + if Present(signals, s, payload) then Handed(n - 1, Raw(s, payload)) else []
  }

  /** The state one frame is decoded with: a memo of raw values and the names on the evaluation path. */
  class FrameDecoder {
    const signals: Message
    const payload: seq<byte>
    var rawValues: Memo
    var visiting: set<string>

    constructor (signals: Message, payload: seq<byte>)
      ensures this.signals == signals && this.payload == payload && rawValues == map[] && visiting == {}
    {
      this.signals, this.payload, rawValues, visiting := signals, payload, map[], {};
    }

    /** `raw_value_cached`. */
    method RawCached(s: Signal) returns (r: Option<nat>)
      modifies this`rawValues
      ensures r == Recalled(s, payload, old(rawValues)) && rawValues == Remembered(s, payload, old(rawValues))
    {
      if s.name in rawValues { return Some(rawValues[s.name]); }
      var raw := ReadRawValue(s.placement, payload);
      if raw.None? { return None; }
      rawValues := rawValues[s.name := raw.value];
      r := raw;
    }

    /** `is_selected`. Whatever the message, the path is left as it was found. */
    method IsSelected(s: Signal, depth: nat) returns (selected: bool)
      modifies this
      ensures visiting == old(visiting)
      ensures var r := Select(signals, s, payload, old(rawValues), old(visiting), depth);
              (selected <==> r.0 == Decided(true)) && rawValues == r.1
      decreases if depth > MAX_MUX_DEPTH then 0 else MAX_MUX_DEPTH + 1 - depth
    {
      hide Recalled, Remembered, Multiplexor;
      if depth > MAX_MUX_DEPTH { return false; }
      if s.name in visiting { return false; }
      visiting := visiting + {s.name};
      selected := true;
      if IsMultiplexed(s) {
        var m := Multiplexor(signals, s);
        if m.None? {
          selected := false;
        } else {
          selected := IsSelected(m.value, depth + 1);
          if selected {
            var raw := RawCached(m.value);
            selected := raw.Some? && Matches(s.multiplexing, raw.value);
          }
        }
      }
      visiting := visiting - {s.name};
    }

    /** `decode_each`, given the message the identifier names. */
    method DecodeEach() returns (readings: seq<Reading>)
      requires rawValues == map[] && visiting == {}
      modifies this
      ensures visiting == {} && Decoded(readings, rawValues) == DecodeUpTo(signals, payload, |signals|)
      ensures Accepted(signals) && DistinctNames(signals) ==> readings == PresentReadings(signals, payload, |signals|)
    {
      hide Select, Recalled, Remembered, DistinctNames, Accepted, PresentReadings;
      readings := [];
      for i := 0 to |signals|
        invariant visiting == {}
        invariant Decoded(readings, rawValues) == DecodeUpTo(signals, payload, i)
      {
        var selected := IsSelected(signals[i], 0);
        if selected {
          var raw := RawCached(signals[i]);
          if raw.Some? { readings := readings + [Reading(i, raw.value)]; }
        }
      }
      if Accepted(signals) && DistinctNames(signals) { DistinctDecodesTruly(signals, payload); }
    }
  }

  // ---------------------------------------------------------------- exactly when a frame is decoded truly

  /** A frame is decoded as it should be: the readings are those of the present signals, and whatever present signal is
      asked for in the end, its own raw value is what is filed under its name. */
  ghost predicate DecodesTruly(signals: Message, payload: seq<byte>) {
    var d := DecodeUpTo(signals, payload, |signals|);
    && d.readings == PresentReadings(signals, payload, |signals|)
    && AnswersTruly(signals, payload, d.memo)
  }

  ghost predicate AnswersTruly(signals: Message, payload: seq<byte>, memo: Memo) {
    forall i :: 0 <= i < |signals| && Present(signals, signals[i], payload) ==>
      Recalled(signals[i], payload, memo) == Raw(signals[i], payload)
  }

  /** No present signal that can be read has a name twice on its chain, or too long a chain. */
  ghost predicate ReadableClear(signals: Message, payload: seq<byte>) {
    forall i :: 0 <= i < |signals| && Present(signals, signals[i], payload) && Raw(signals[i], payload).Some? ==>
      Clear(signals, signals[i], {}, 0)
  }

  lemma {:induction false} NothingFiled(signals: Message, payload: seq<byte>)
    ensures MemoTrue(signals, payload, map[])
  {
  }

  lemma {:induction false} TrueSoFar(signals: Message, payload: seq<byte>, n: nat)
    requires n <= |signals| && ReadableClear(signals, payload) && Unambiguous(signals, payload)
    ensures DecodeUpTo(signals, payload, n).readings == PresentReadings(signals, payload, n)
    ensures MemoTrue(signals, payload, DecodeUpTo(signals, payload, n).memo)
  {
    hide Select, Recalled, Remembered, Present, Raw, Clear, Unambiguous, MemoTrue;
    NothingFiled(signals, payload);
    if n > 0 {
      TrueSoFar(signals, payload, n - 1);
      var s, memo := signals[n - 1], DecodeUpTo(signals, payload, n - 1).memo;
      CutOffExactly(signals, s, payload, memo, {}, 0);
      if Clear(signals, s, {}, 0) {
        SelectsPresent(signals, s, payload, memo, {}, 0);
        if Present(signals, s, payload) { RecalledIsRaw(signals, s, payload, Select(signals, s, payload, memo, {}, 0).1); }
      }
    }
  }

  /** Filed values stay. */
  lemma {:induction false} MemoKeeps(signals: Message, payload: seq<byte>, m: nat, n: nat)
    requires m <= n <= |signals|
    ensures Keeps(DecodeUpTo(signals, payload, m).memo, DecodeUpTo(signals, payload, n).memo)
  {
    hide Select, Recalled, Remembered;
    if m < n { MemoKeeps(signals, payload, m, n - 1); }
  }

  /** A signal present and readable has its reading among those that should be handed over. */
  lemma {:induction false} ReadingDue(signals: Message, payload: seq<byte>, i: nat, n: nat)
    requires i < n <= |signals| && Present(signals, signals[i], payload) && Raw(signals[i], payload).Some?
    ensures Reading(i, Raw(signals[i], payload).value) in PresentReadings(signals, payload, n)
  {
    hide Present, Raw;
    if i < n - 1 { ReadingDue(signals, payload, i, n - 1); }
  }

  /** A reading handed over was selected, and its value is filed under the signal's name from then on. */
  lemma {:induction false} ReadingFiled(signals: Message, payload: seq<byte>, n: nat, r: Reading)
    requires n <= |signals| && r in DecodeUpTo(signals, payload, n).readings
    ensures r.index < n
    ensures Clear(signals, signals[r.index], {}, 0)
    ensures var memo := DecodeUpTo(signals, payload, n).memo; signals[r.index].name in memo && memo[signals[r.index].name] == r.raw
  {
    hide Select, Clear, Raw;
    var before := DecodeUpTo(signals, payload, n - 1);
    if r in before.readings {
      ReadingFiled(signals, payload, n - 1, r);
      MemoKeeps(signals, payload, n - 1, n);
    } else {
      CutOffExactly(signals, signals[n - 1], payload, before.memo, {}, 0);
    }
  }

  /** A frame is decoded truly exactly when no present, readable signal has a name twice on its chain or too long a
      chain, and signals present under one name read the same. */
  lemma {:induction false} DecodesTrulyExactly(signals: Message, payload: seq<byte>)
    ensures DecodesTruly(signals, payload) <==> ReadableClear(signals, payload) && Unambiguous(signals, payload)
  {
    hide DecodeUpTo, PresentReadings, Present, Raw, Clear, Recalled;
    if ReadableClear(signals, payload) && Unambiguous(signals, payload) {
      TrueSoFar(signals, payload, |signals|);
      AllAnswered(signals, payload, DecodeUpTo(signals, payload, |signals|).memo);
    }
    if DecodesTruly(signals, payload) {
      forall i | 0 <= i < |signals| && Present(signals, signals[i], payload) && Raw(signals[i], payload).Some?
        ensures Clear(signals, signals[i], {}, 0)
      {
        ReadingDue(signals, payload, i, |signals|);
        ReadingFiled(signals, payload, |signals|, Reading(i, Raw(signals[i], payload).value));
      }
      ReadTheSame(signals, payload);
    }
  }

  lemma {:induction false} AllAnswered(signals: Message, payload: seq<byte>, memo: Memo)
    requires Unambiguous(signals, payload) && MemoTrue(signals, payload, memo)
    ensures AnswersTruly(signals, payload, memo)
  {
    hide Present, Raw, Recalled, Unambiguous, MemoTrue;
    forall i | 0 <= i < |signals| && Present(signals, signals[i], payload)
      ensures Recalled(signals[i], payload, memo) == Raw(signals[i], payload)
    {
      RecalledIsRaw(signals, signals[i], payload, memo);
    }
  }

  lemma {:induction false} ReadTheSame(signals: Message, payload: seq<byte>)
    requires DecodesTruly(signals, payload)
    ensures Unambiguous(signals, payload)
  {
    hide DecodeUpTo, PresentReadings, Present, Raw;
    var memo := DecodeUpTo(signals, payload, |signals|).memo;
    forall i, j | 0 <= i < |signals| && 0 <= j < |signals| && signals[i].name == signals[j].name
      && Present(signals, signals[i], payload) && Present(signals, signals[j], payload)
      ensures Raw(signals[i], payload) == Raw(signals[j], payload)
    {
      assert Recalled(signals[i], payload, memo) == Raw(signals[i], payload);
      assert Recalled(signals[j], payload, memo) == Raw(signals[j], payload);
      forall k | k in {i, j} && Raw(signals[k], payload).Some? ensures signals[k].name in memo {
        ReadingDue(signals, payload, k, |signals|);
        ReadingFiled(signals, payload, |signals|, Reading(k, Raw(signals[k], payload).value));
      }
    }
  }

  ghost predicate AllReadable(signals: Message, payload: seq<byte>) {
    forall i :: 0 <= i < |signals| && Present(signals, signals[i], payload) ==> Raw(signals[i], payload).Some?
  }

  /** In a frame long enough for what it holds, the readings alone tell. */
  lemma {:induction false} ReadingsTell(signals: Message, payload: seq<byte>)
    requires AllReadable(signals, payload)
    ensures DecodeUpTo(signals, payload, |signals|).readings == PresentReadings(signals, payload, |signals|)
       <==> ReadableClear(signals, payload) && Unambiguous(signals, payload)
  {
    hide DecodeUpTo, PresentReadings, Present, Raw, ReadableClear, Unambiguous;
    DecodesTrulyExactly(signals, payload);
    var d := DecodeUpTo(signals, payload, |signals|);
    if d.readings == PresentReadings(signals, payload, |signals|) {
      forall i | 0 <= i < |signals| && Present(signals, signals[i], payload)
        ensures Recalled(signals[i], payload, d.memo) == Raw(signals[i], payload)
      {
        ReadingDue(signals, payload, i, |signals|);
        ReadingFiled(signals, payload, |signals|, Reading(i, Raw(signals[i], payload).value));
      }
    }
  }

  /** A condition on the message alone that serves every frame: every chain clear, and one placement for one name. */
  lemma {:induction false} EveryFrameTrue(signals: Message, payload: seq<byte>)
    requires forall i :: 0 <= i < |signals| ==> Clear(signals, signals[i], {}, 0)
    requires forall i, j :: 0 <= i < |signals| && 0 <= j < |signals| && signals[i].name == signals[j].name ==>
      signals[i].placement == signals[j].placement
    ensures DecodesTruly(signals, payload)
  {
    hide Clear, Present, DecodesTruly;
    DecodesTrulyExactly(signals, payload);
  }

  lemma {:induction false} DistinctDecodesTruly(signals: Message, payload: seq<byte>)
    requires Accepted(signals) && DistinctNames(signals)
    ensures DecodesTruly(signals, payload)
  {
    hide Accepted, Clear, Present, Raw, DecodesTruly, Unambiguous;
    forall i | 0 <= i < |signals| ensures Clear(signals, signals[i], {}, 0) { AcceptedClear(signals, signals[i]); }
    DistinctUnambiguous(signals, payload);
    DecodesTrulyExactly(signals, payload);
  }

  // ---------------------------------------------------------------- names that are not distinct

  /** With a name used twice the check can accept a message in which a present signal is never handed over: the path
      holds names, and the switch shares the signal's. */
  lemma {:induction false} SharedNameHidesSignal() returns (signals: Message, payload: seq<byte>)
    ensures |signals| == 3 && Accepted(signals) && Present(signals, signals[2], payload) && Raw(signals[2], payload) == Some(1)
    ensures forall r :: r in DecodeUpTo(signals, payload, 3).readings ==> r.index != 2
  {
    hide DecodeUpTo, Present, Accepted, Clear;
    var bit := Placement(0, 1, false);
    var switch, mid, low := Signal("X", bit, Switch), Signal("M", bit, Selected(1)), Signal("X", bit, RangeSelected("M", [(1, 1)]));
    signals, payload := [switch, mid, low], [1];
    assert FindSwitch(signals) == Some(switch) && FindNamed(signals, "X") == Some(switch);
    assert signals[1..] == [mid, low] && FindNamed(signals, "M") == Some(mid);
    ShortChains(signals, switch, mid, low);
    AllLinksHold(signals, switch, mid, low, payload);
    NameTwice(signals, switch, mid, low);
    OneBit(bit, payload);
    forall r | r in DecodeUpTo(signals, payload, 3).readings ensures r.index != 2 {
      ReadingFiled(signals, payload, 3, r);
    }
  }

  /** Two signals of one name and two placements, no chain longer than one step: the switch is handed over with the
      value of the signal before it, and a signal that the switch does not select is handed over. */
  lemma {:induction false} SharedNameMisleads() returns (signals: Message, payload: seq<byte>)
    ensures |signals| == 3 && Accepted(signals) && forall i :: 0 <= i < 3 ==> Clear(signals, signals[i], {}, 0)
    ensures Raw(signals[1], payload) == Some(0) && !Present(signals, signals[2], payload)
    ensures DecodeUpTo(signals, payload, 3).readings == [Reading(0, 1), Reading(1, 1), Reading(2, 1)]
  {
    hide Present, Accepted, Clear, RawValue;
    var first, switch := Signal("A", Placement(0, 1, false), Plain), Signal("A", Placement(1, 1, false), Switch);
    var s := Signal("S", Placement(0, 1, false), Selected(1));
    signals, payload := [first, switch, s], [1];
    OneBit(first.placement, payload);
    SecondBit(switch.placement, payload);
    assert signals[1..] == [switch, s] && FindSwitch([switch, s]) == Some(switch);
    assert FindSwitch(signals) == FindSwitch(signals[1..]) && FindNamed(signals, "A") == Some(first);
    OneStepChains(signals, first, switch, s);
    Misled(signals, first, switch, s, payload);
    PresentByTail(signals, s, switch, payload);
  }

  lemma {:induction false} Misled(signals: Message, first: Signal, switch: Signal, s: Signal, payload: seq<byte>)
    requires signals == [first, switch, s] && first.name == switch.name != s.name
    requires first.multiplexing == Plain && switch.multiplexing == Switch && s.multiplexing == Selected(1)
    requires FindSwitch(signals) == Some(switch) && Raw(first, payload) == Raw(s, payload) == Some(1)
    ensures DecodeUpTo(signals, payload, 3).readings == [Reading(0, 1), Reading(1, 1), Reading(2, 1)]
  {
    hide Raw, RawValue, FindSwitch, FindNamed;
    var memo: Memo := map[first.name := 1];
    assert After(signals, payload, 0, Decoded([], map[])) == Decoded([Reading(0, 1)], memo);
    assert After(signals, payload, 1, Decoded([Reading(0, 1)], memo)) == Decoded([Reading(0, 1), Reading(1, 1)], memo);
    assert Select(signals, switch, payload, memo, {} + {s.name}, 0 + 1) == (Decided(true), memo);
    assert Select(signals, s, payload, memo, {}, 0) == (Decided(true), memo);
    assert DecodeUpTo(signals, payload, 1) == Decoded([Reading(0, 1)], memo);
    assert DecodeUpTo(signals, payload, 2) == Decoded([Reading(0, 1), Reading(1, 1)], memo);
  }

  lemma {:induction false} OneStepChains(signals: Message, first: Signal, switch: Signal, s: Signal)
    requires signals == [first, switch, s] && first.name == switch.name != s.name
    requires first.multiplexing == Plain && switch.multiplexing == Switch && s.multiplexing.Selected?
    requires FindSwitch(signals) == Some(switch) && FindNamed(signals, switch.name) == Some(first)
    ensures Accepted(signals) && forall i :: 0 <= i < 3 ==> Clear(signals, signals[i], {}, 0)
  {
    var next := Checking(signals);
    assert next(first) == None && next(switch) == None && next(s) == Some(first);
    forall i | 0 <= i < 3 ensures EndsByName(signals, signals[i]) {
      assert Up(next, signals[i], 0) == Some(signals[i]);
      assert Up(next, signals[i], 1) == next(signals[i]);
      assert Up(next, signals[i], 2) == None;
      NoneAbove(next, signals[i], 2, MAX_MUX_DEPTH + 1);
    }
    ClearAlone(signals, first, {}, 0);
    ClearAlone(signals, switch, {} + {s.name}, 0 + 1);
    ClearAlone(signals, switch, {}, 0);
    ClearByTail(signals, s, switch, {}, 0);
  }

  lemma {:induction false} SecondBit(p: Placement, payload: seq<byte>)
    requires p == Placement(1, 1, false) && payload == [1]
    ensures RawValue(p, payload) == Some(0)
  {
    assert LsbBit(payload, 1) == 0;
    assert IntelBits(payload, 1, 0) == 0;
  }

  lemma {:induction false} AllLinksHold(signals: Message, switch: Signal, mid: Signal, low: Signal, payload: seq<byte>)
    requires Multiplexor(signals, low) == Some(mid) && Multiplexor(signals, mid) == Some(switch) && payload == [1]
    requires switch.multiplexing == Switch && mid.multiplexing == Selected(1)
    requires low.multiplexing == RangeSelected("M", [(1, 1)])
    requires switch.placement == mid.placement == low.placement == Placement(0, 1, false)
    ensures Present(signals, low, payload)
  {
    OneBit(switch.placement, payload);
    assert [(1, 1)][0] == (1, 1);
    assert LinkHolds(signals, mid, payload) && LinkHolds(signals, low, payload);
    PresentAlone(signals, switch, payload);
    PresentByTail(signals, mid, switch, payload);
    PresentByTail(signals, low, mid, payload);
  }

  lemma {:induction false} NameTwice(signals: Message, switch: Signal, mid: Signal, low: Signal)
    requires Multiplexor(signals, low) == Some(mid) && Multiplexor(signals, mid) == Some(switch) && low.name == switch.name
    ensures !Clear(signals, low, {}, 0)
  {
    Zeroth(signals, low);
    assert Above(signals, low, 1) == Some(mid);
    assert Above(signals, low, 2) == Some(switch);
    assert !NewName(signals, low, 2);
  }

  lemma {:induction false} OneBit(p: Placement, payload: seq<byte>)
    requires p == Placement(0, 1, false) && payload == [1]
    ensures RawValue(p, payload) == Some(1)
  {
    assert Power2(0) == 1;
    assert LsbBit(payload, 0) == 1;
    assert IntelBits(payload, 0, 0) == 0;
  }

  lemma {:induction false} ShortChains(signals: Message, switch: Signal, mid: Signal, low: Signal)
    requires signals == [switch, mid, low] && switch.multiplexing == Switch && mid.multiplexing.Selected?
    requires low.multiplexing.RangeSelected? && low.multiplexing.multiplexor == mid.name
    requires FindSwitch(signals) == Some(switch)
    requires FindNamed(signals, switch.name) == Some(switch) && FindNamed(signals, mid.name) == Some(mid)
    ensures Accepted(signals)
  {
    var next := Checking(signals);
    assert next(switch) == None && next(mid) == Some(switch) && next(low) == Some(mid);
    forall i | 0 <= i < 3 ensures EndsByName(signals, signals[i]) {
      var s := signals[i];
      assert Up(next, s, 0) == Some(s);
      assert Up(next, s, 1) == next(s);
      assert Up(next, s, 2) == if next(s).None? then None else next(next(s).value);
      assert Up(next, s, 3) == None;
      NoneAbove(next, s, 3, MAX_MUX_DEPTH + 1);
    }
  }
}
