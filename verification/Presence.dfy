/** When a multiplexed signal is in a frame, by positions in the message and bits of the payload alone. */
module Presence {
  import opened Bytes
  import opened Options
  import opened CanBits
  import opened Multiplex

  ghost predicate FirstSwitch(signals: Message, i: nat) {
    i < |signals| && signals[i].multiplexing.Switch? && forall j :: 0 <= j < i ==> !signals[j].multiplexing.Switch?
  }

  ghost predicate FirstNamed(signals: Message, name: string, i: nat) {
    i < |signals| && signals[i].name == name && forall j :: 0 <= j < i ==> signals[j].name != name
  }

  ghost predicate InRange(ranges: seq<(nat, nat)>, v: nat) {
    exists k :: 0 <= k < |ranges| && ranges[k].0 <= v && v <= ranges[k].1
  }

  /** Signal `i` of the message is the one that decides about `t`, can be read, and has a value that selects it. */
  ghost predicate SelectedBy(signals: Message, t: Signal, payload: seq<byte>, i: nat) {
    match t.multiplexing
    case Selected(want) => FirstSwitch(signals, i) && RawValue(signals[i].placement, payload) == Some(want)
    case RangeSelected(name, ranges) =>
      FirstNamed(signals, name, i) && RawValue(signals[i].placement, payload).Some?
      && InRange(ranges, RawValue(signals[i].placement, payload).value)
    case _ => false
  }

  lemma {:induction false} SwitchAt(signals: Message) returns (i: nat)
    ensures FindSwitch(signals).Some? ==> FirstSwitch(signals, i) && signals[i] == FindSwitch(signals).value
    ensures FindSwitch(signals).None? ==> forall j :: 0 <= j < |signals| ==> !signals[j].multiplexing.Switch?
  {
    i := 0;
    if signals != [] && !signals[0].multiplexing.Switch? {
      i := SwitchAt(signals[1..]);
      var tail := i;
      if FindSwitch(signals).Some? {
        i := tail + 1;
        forall j | 0 <= j < i ensures !signals[j].multiplexing.Switch? {
          if j > 0 { assert signals[j] == signals[1..][j - 1]; }
        }
      } else {
        forall j | 0 <= j < |signals| ensures !signals[j].multiplexing.Switch? {
          if j > 0 { assert signals[j] == signals[1..][j - 1]; }
        }
      }
    }
  }

  lemma {:induction false} NamedAt(signals: Message, name: string) returns (i: nat)
    ensures FindNamed(signals, name).Some? ==> FirstNamed(signals, name, i) && signals[i] == FindNamed(signals, name).value
    ensures FindNamed(signals, name).None? ==> forall j :: 0 <= j < |signals| ==> signals[j].name != name
  {
    i := 0;
    if signals != [] && signals[0].name != name {
      i := NamedAt(signals[1..], name);
      var tail := i;
      if FindNamed(signals, name).Some? {
        i := tail + 1;
        forall j | 0 <= j < i ensures signals[j].name != name {
          if j > 0 { assert signals[j] == signals[1..][j - 1]; }
        }
      } else {
        forall j | 0 <= j < |signals| ensures signals[j].name != name {
          if j > 0 { assert signals[j] == signals[1..][j - 1]; }
        }
      }
    }
  }

  lemma {:induction false} OneFirst(signals: Message, name: string, i: nat, j: nat)
    ensures FirstSwitch(signals, i) && FirstSwitch(signals, j) ==> i == j
    ensures FirstNamed(signals, name, i) && FirstNamed(signals, name, j) ==> i == j
  {
  }

  /** The link above a multiplexed signal holds exactly when the signal that decides about it selects it. */
  lemma {:induction false} LinkByPosition(signals: Message, t: Signal, payload: seq<byte>)
    requires IsMultiplexed(t)
    ensures LinkHolds(signals, t, payload) <==> exists i: nat :: i < |signals| && SelectedBy(signals, t, payload, i)
    ensures forall i: nat :: SelectedBy(signals, t, payload, i) ==> i < |signals| && Multiplexor(signals, t) == Some(signals[i])
  {
    hide FindSwitch, FindNamed, RawValue;
    match t.multiplexing
    case Selected(want) =>
      var i := SwitchAt(signals);
      if LinkHolds(signals, t, payload) { assert SelectedBy(signals, t, payload, i); }
      forall j: nat | SelectedBy(signals, t, payload, j) ensures j < |signals| && Multiplexor(signals, t) == Some(signals[j]) {
        OneFirst(signals, "", i, j);
      }
    case RangeSelected(name, ranges) =>
      var i := NamedAt(signals, name);
      if LinkHolds(signals, t, payload) { assert SelectedBy(signals, t, payload, i); }
      forall j: nat | SelectedBy(signals, t, payload, j) ensures j < |signals| && Multiplexor(signals, t) == Some(signals[j]) {
        OneFirst(signals, name, i, j);
      }
    case _ =>
  }

  /** A plain signal and the switch are in every frame; a multiplexed one is, exactly when the signal that decides about it is in
      the frame too and selects it. */
  lemma {:induction false} PresentExactly(signals: Message, s: Signal, payload: seq<byte>)
    ensures s.multiplexing.Plain? || s.multiplexing.Switch? ==> Present(signals, s, payload)
    ensures s.multiplexing.Selected? || s.multiplexing.RangeSelected? ==>
      (Present(signals, s, payload) <==>
        exists i: nat :: i < |signals| && SelectedBy(signals, s, payload, i) && Present(signals, signals[i], payload))
  {
    hide SelectedBy, LinkHolds, Present, RawValue, Multiplexor;
    if IsMultiplexed(s) { LinkByPosition(signals, s, payload); }
    ByMultiplexing(signals, s, payload);
    if Multiplexor(signals, s).Some? {
      PresentByTail(signals, s, Multiplexor(signals, s).value, payload);
    } else {
      PresentAlone(signals, s, payload);
    }
  }

  lemma {:induction false} ByMultiplexing(signals: Message, s: Signal, payload: seq<byte>)
    ensures !IsMultiplexed(s) ==> Multiplexor(signals, s).None? && LinkHolds(signals, s, payload)
    ensures LinkHolds(signals, s, payload) && IsMultiplexed(s) ==> Multiplexor(signals, s).Some?
  {
  }
}
