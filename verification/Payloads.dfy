/** The payload lookup of variable-length channels (src/model/vlsd.rs): payloads filed under their running offset, as
    though they lay one behind the other, each with a length of four bytes. */
module Payloads {
  import opened Bytes
  import opened Options
  import DataIndex

  type Records = seq<seq<byte>>

  const PREFIX: nat := 4

  /** Payloads with the offsets records refer to them by. */
  type Table = seq<(nat, seq<byte>)>

  /** Room the payloads take with their lengths. */
  function Stored(payloads: Records): nat {
    if payloads == [] then 0 else Stored(payloads[..|payloads| - 1]) + PREFIX + |payloads[|payloads| - 1]|
  }

  /** Payloads filed one behind the other from offset `base` on. */
  function Numbered(payloads: Records, base: nat): (table: Table)
    ensures |table| == |payloads|
  {
    if payloads == [] then []
    else
      var before := payloads[..|payloads| - 1];
      Numbered(before, base) + [(base + Stored(before), payloads[|payloads| - 1])]
  }

  lemma {:induction false} StoredNext(payloads: Records, n: nat)
    requires n < |payloads|
    ensures Stored(payloads[..n + 1]) == Stored(payloads[..n]) + PREFIX + |payloads[n]|
    ensures forall base: nat :: Numbered(payloads[..n + 1], base) == Numbered(payloads[..n], base) + [(base + Stored(payloads[..n]), payloads[n])]
  {
    assert payloads[..n + 1][..n] == payloads[..n];
  }

  lemma {:induction false} StoredAppend(a: Records, b: Records)
    ensures Stored(a + b) == Stored(a) + Stored(b)
  {
    if b == [] {
      assert a + b == a;
    } else {
      var n := |b| - 1;
      assert (a + b)[..|a + b| - 1] == a + b[..n];
      StoredAppend(a, b[..n]);
    }
  }

  /** Numbering goes on where it left off: a stream's table is put together from the tables of its parts. */
  lemma {:induction false} NumberedAppend(a: Records, b: Records, base: nat)
    ensures Numbered(a + b, base) == Numbered(a, base) + Numbered(b, base + Stored(a))
  {
    if b == [] {
      assert a + b == a;
    } else {
      var n := |b| - 1;
      assert (a + b)[..|a + b| - 1] == a + b[..n];
      NumberedAppend(a, b[..n], base);
      StoredAppend(a, b[..n]);
    }
  }

  ghost predicate Ascending(table: Table) {
    forall i, j :: 0 <= i < j < |table| ==> table[i].0 < table[j].0
  }

  /** Every offset in the table lies from `lo` on and before `hi`. */
  ghost predicate Spans(table: Table, lo: nat, hi: nat) {
    forall i :: 0 <= i < |table| ==> lo <= table[i].0 < hi
  }

  lemma {:induction false} NumberedAscends(payloads: Records, base: nat)
    ensures Ascending(Numbered(payloads, base)) && Spans(Numbered(payloads, base), base, base + Stored(payloads))
  {
    if payloads != [] { NumberedAscends(payloads[..|payloads| - 1], base); }
  }

  /** The payload filed under `offset`. */
  function Find(table: Table, offset: nat): Option<seq<byte>> {
    if table == [] then None
    else if table[|table| - 1].0 == offset then Some(table[|table| - 1].1)
    else Find(table[..|table| - 1], offset)
  }

  lemma {:induction false} FindIs(table: Table, offset: nat, k: nat)
    requires Ascending(table) && k < |table| && table[k].0 == offset
    ensures Find(table, offset) == Some(table[k].1)
  {
    if k < |table| - 1 { FindIs(table[..|table| - 1], offset, k); }
  }

  lemma {:induction false} FindMisses(table: Table, offset: nat)
    requires forall k :: 0 <= k < |table| ==> table[k].0 != offset
    ensures Find(table, offset) == None
  {
    if table != [] { FindMisses(table[..|table| - 1], offset); }
  }

  lemma {:induction false} FindAppend(a: Table, b: Table, offset: nat)
    ensures Find(a + b, offset) == if Find(b, offset).Some? then Find(b, offset) else Find(a, offset)
  {
    if b == [] {
      assert a + b == a;
    } else {
      var n := |b| - 1;
      assert (a + b)[..|a + b| - 1] == a + b[..n];
      if b[n].0 != offset { FindAppend(a, b[..n], offset); }
    }
  }

  lemma {:induction false} FindOutside(table: Table, lo: nat, hi: nat, offset: nat)
    requires Spans(table, lo, hi) && !(lo <= offset < hi)
    ensures Find(table, offset) == None
  {
    FindMisses(table, offset);
  }

  /** Of payloads numbered in three parts, the middle part knows exactly the offsets in its own range. */
  lemma {:induction false} PartKnows(a: Records, b: Records, c: Records, offset: nat)
    ensures Find(Numbered(b, Stored(a)), offset)
         == if Stored(a) <= offset < Stored(a) + Stored(b) then Find(Numbered(a + b + c, 0), offset) else None
  {
    hide Find, Numbered, Stored, Ascending;
    var lo, hi := Stored(a), Stored(a) + Stored(b);
    NumberedAppend(a + b, c, 0);
    NumberedAppend(a, b, 0);
    StoredAppend(a, b);
    NumberedAscends(a, 0);
    NumberedAscends(b, lo);
    NumberedAscends(c, hi);
    FindAppend(Numbered(a, 0) + Numbered(b, lo), Numbered(c, hi), offset);
    FindAppend(Numbered(a, 0), Numbered(b, lo), offset);
    if lo <= offset < hi {
      FindOutside(Numbered(a, 0), 0, lo, offset);
      FindOutside(Numbered(c, hi), hi, hi + Stored(c), offset);
    } else {
      FindOutside(Numbered(b, lo), lo, hi, offset);
    }
  }

  // ---------------------------------------------------------------- `VlsdPayloads`

  datatype Slot = Slot(offset: nat, start: nat, len: nat)

  class VlsdPayloads {
    var data: seq<byte>
    var index: seq<Slot>

    ghost predicate Valid()
      reads this
    {
      && (forall k :: 0 <= k < |index| ==> index[k].start + index[k].len <= |data|)
      && (forall i, j :: 0 <= i < j < |index| ==> index[i].offset < index[j].offset)
    }

    ghost function Entries(): (table: Table)
      requires Valid()
      reads this
      ensures |table| == |index|
      ensures Ascending(table)
    {
      seq(|index|, k requires 0 <= k < |index| && Valid() reads this =>
        (index[k].offset, data[index[k].start..index[k].start + index[k].len]))
    }

    constructor ()
      ensures Valid() && Entries() == []
    {
      data, index := [], [];
    }

    method Push(offset: nat, payload: seq<byte>)
      requires Valid() && forall k :: 0 <= k < |Entries()| ==> Entries()[k].0 < offset
      modifies this
      ensures Valid() && Entries() == old(Entries()) + [(offset, payload)]
    {
      ghost var before, bytes, slots := Entries(), data, index;
      assert forall k :: 0 <= k < |index| ==> before[k].0 == index[k].offset;
      index := index + [Slot(offset, |data|, |payload|)];
      data := data + payload;
      assert data[|bytes|..|bytes| + |payload|] == payload;
      forall k | 0 <= k < |slots| ensures Entries()[k] == before[k] {
        assert index[k] == slots[k];
        assert data[slots[k].start..slots[k].start + slots[k].len] == bytes[slots[k].start..slots[k].start + slots[k].len];
      }
      assert Entries() == before + [(offset, payload)];
    }

    /** `get_from`: whatever the hint, the payload filed under `offset`. */
    method GetFrom(offset: nat, hint: nat) returns (r: Option<(seq<byte>, nat)>)
      requires Valid()
      ensures r.Some? <==> Find(Entries(), offset).Some?
      ensures r.Some? ==> Find(Entries(), offset) == Some(r.value.0) && r.value.1 < |index| && index[r.value.1].offset == offset
    {
      var at := hint;
      if hint >= |index| || index[hint].offset != offset {
        var offsets := seq(|index|, k requires 0 <= k < |index| reads this => index[k].offset);
        var s := DataIndex.BinarySearch(offsets, offset);
        match s {
          case Miss(i) =>
            forall k | 0 <= k < |Entries()| ensures Entries()[k].0 != offset { assert offsets[k] == index[k].offset; }
            FindMisses(Entries(), offset);
            return None;
          case Hit(i) => at := i;
        }
      }
      FindIs(Entries(), offset, at);
      r := Some((data[index[at].start..index[at].start + index[at].len], at));
    }
  }

  /** `from_located`: numbering goes on from `base`. */
  method FromLocated(payloads: Records, base: nat) returns (out: VlsdPayloads, next: nat)
    ensures fresh(out) && out.Valid() && out.Entries() == Numbered(payloads, base)
    ensures next == base + Stored(payloads)
  {
    hide Numbered, Stored;
    out := new VlsdPayloads();
    next := base;
    NoneNumbered(base);
    assert payloads[..0] == [];
    for n := 0 to |payloads|
      invariant fresh(out) && out.Valid() && out.Entries() == Numbered(payloads[..n], base)
      invariant next == base + Stored(payloads[..n])
    {
      NumberedAscends(payloads[..n], base);
      StoredNext(payloads, n);
      out.Push(next, payloads[n]);
      next := next + PREFIX + |payloads[n]|;
    }
    assert payloads[..|payloads|] == payloads;
  }

  lemma {:induction false} NoneNumbered(base: nat)
    ensures Numbered([], base) == [] && Stored([]) == 0
  {
  }

  /** The payloads of records that start at `offsets`, up to the first that runs past the end. */
  function LocatedAt(raw: seq<byte>, offsets: seq<nat>, idSize: nat): Records {
    if offsets == [] then []
    else
      var at := offsets[0] + idSize;
      if at + PREFIX > |raw| then []
      else
        var len := FromLe(raw[at..at + PREFIX]);
        if at + PREFIX + len > |raw| then []
        else [raw[at + PREFIX..at + PREFIX + len]] + LocatedAt(raw, offsets[1..], idSize)
  }

  /** The payload of a record that starts at `offset`, when it lies in the stream. */
  function PayloadAt(raw: seq<byte>, offset: nat, idSize: nat): Option<seq<byte>> {
    var at := offset + idSize;
    if at + PREFIX > |raw| then None
    else
      var len := FromLe(raw[at..at + PREFIX]);
      if at + PREFIX + len > |raw| then None else Some(raw[at + PREFIX..at + PREFIX + len])
  }

  lemma {:induction false} LocatedStep(raw: seq<byte>, offsets: seq<nat>, n: nat, idSize: nat, done: Records)
    requires n < |offsets|
    ensures match PayloadAt(raw, offsets[n], idSize)
      case None => done + LocatedAt(raw, offsets[n..], idSize) == done
      case Some(payload) => done + LocatedAt(raw, offsets[n..], idSize) == (done + [payload]) + LocatedAt(raw, offsets[n + 1..], idSize)
  {
    hide FromLe;
    assert offsets[n..][1..] == offsets[n + 1..];
    match PayloadAt(raw, offsets[n], idSize)
    case None => assert done + [] == done;
    case Some(payload) => Assoc(done, [payload], LocatedAt(raw, offsets[n + 1..], idSize));
  }

  lemma {:induction false} NumberedOne(done: Records, payload: seq<byte>)
    ensures Stored(done + [payload]) == Stored(done) + PREFIX + |payload|
    ensures Numbered(done + [payload], 0) == Numbered(done, 0) + [(Stored(done), payload)]
    ensures forall k :: 0 <= k < |Numbered(done, 0)| ==> Numbered(done, 0)[k].0 < Stored(done)
  {
    NumberedAscends(done, 0);
    assert (done + [payload])[..|done|] == done;
  }

  /** `from_records`. */
  method FromRecords(raw: seq<byte>, offsets: seq<nat>, idSize: nat) returns (out: VlsdPayloads)
    ensures fresh(out) && out.Valid() && out.Entries() == Numbered(LocatedAt(raw, offsets, idSize), 0)
  {
    hide Numbered, Stored, FromLe, LocatedAt;
    out := new VlsdPayloads();
    var virtual := 0;
    ghost var done: Records := [];
    NoneNumbered(0);
    assert offsets[0..] == offsets && [] + LocatedAt(raw, offsets, idSize) == LocatedAt(raw, offsets, idSize);
    for n := 0 to |offsets|
      invariant fresh(out) && out.Valid() && out.Entries() == Numbered(done, 0) && virtual == Stored(done)
      invariant done + LocatedAt(raw, offsets[n..], idSize) == LocatedAt(raw, offsets, idSize)
    {
      LocatedStep(raw, offsets, n, idSize, done);
      var at := offsets[n] + idSize;
      if at + PREFIX > |raw| { return; }
      var len := FromLe(raw[at..at + PREFIX]);
      if at + PREFIX + len > |raw| { return; }
      var payload := raw[at + PREFIX..at + PREFIX + len];
      NumberedOne(done, payload);
      out.Push(virtual, payload);
      virtual := virtual + PREFIX + len;
      done := done + [payload];
    }
    NoneLocated(raw, offsets, idSize, done);
  }

  lemma {:induction false} NoneLocated(raw: seq<byte>, offsets: seq<nat>, idSize: nat, done: Records)
    ensures done + LocatedAt(raw, offsets[|offsets|..], idSize) == done
  {
    assert offsets[|offsets|..] == [];
  }
}
