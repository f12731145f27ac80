/** Bytes and the little-endian integers every MDF 4 block is made of. */
module Bytes {

  type byte = b: int | 0 <= b < 256

  /** Bytes a u64 holds; also the first value it cannot. */
  const U64_LIMIT: nat := 0x1_0000_0000_0000_0000

  function Power256(k: nat): (p: nat)
    ensures p > 0
  {
    if k == 0 then 1 else 256 * Power256(k - 1)
  }

  /** The low `width` bytes of `n`, least significant first (`to_le_bytes`). */
  function Le(n: nat, width: nat): (s: seq<byte>)
    ensures |s| == width
  {
    if width == 0 then [] else [n % 256] + Le(n / 256, width - 1)
  }

  /** The value a little-endian byte run spells (`from_le_bytes`). */
  function FromLe(s: seq<byte>): (n: nat) {
    if s == [] then 0 else s[0] + 256 * FromLe(s[1..])
  }

  function Le64(n: nat): (s: seq<byte>)
    ensures |s| == 8
  {
    Le(n, 8)
  }

  lemma {:induction false} LeRoundTrip(n: nat, width: nat)
    requires n < Power256(width)
    ensures FromLe(Le(n, width)) == n
  {
    if width != 0 {
      assert n / 256 < Power256(width - 1);
      LeRoundTrip(n / 256, width - 1);
      assert Le(n, width)[1..] == Le(n / 256, width - 1);
    }
  }

  lemma {:induction false} Le64RoundTrip(n: nat)
    requires n < U64_LIMIT
    ensures FromLe(Le64(n)) == n
  {
    assert Power256(4) == 0x1_0000_0000;
    assert Power256(8) == U64_LIMIT;
    LeRoundTrip(n, 8);
  }

  lemma {:induction false} FromTwo(s: seq<byte>)
    requires |s| == 2
    ensures FromLe(s) == s[0] as int + 256 * (s[1] as int)
  {
    assert s[1..][1..] == [] && FromLe(s[1..]) == s[1];
  }

  function Zeros(k: nat): (s: seq<byte>)
    ensures |s| == k
    ensures forall i :: 0 <= i < k ==> s[i] == 0
  {
    seq(k, _ => 0)
  }

  // ---------------------------------------------------------------- concatenation

  function Flatten<T>(parts: seq<seq<T>>): seq<T> {
    if parts == [] then [] else Flatten(parts[..|parts| - 1]) + parts[|parts| - 1]
  }

  lemma {:induction false} Assoc<T>(a: seq<T>, b: seq<T>, c: seq<T>)
    ensures a + b + c == a + (b + c)
  {
  }

  lemma {:induction false} FlattenNext<T>(parts: seq<seq<T>>, n: nat)
    requires n < |parts|
    ensures Flatten(parts[..n + 1]) == Flatten(parts[..n]) + parts[n]
  {
    assert parts[..n + 1][..n] == parts[..n];
  }

  lemma {:induction false} FlattenCons<T>(first: seq<T>, rest: seq<seq<T>>)
    ensures Flatten([first] + rest) == first + Flatten(rest)
  {
    var all := [first] + rest;
    if rest == [] {
      assert all[..0] == [] && Flatten(all[..0]) == [];
    } else {
      var n := |rest| - 1;
      FlattenCons(first, rest[..n]);
      assert all[..|all| - 1] == [first] + rest[..n];
      Assoc(first, Flatten(rest[..n]), rest[n]);
    }
  }

  lemma {:induction false} UniformTotal<T>(parts: seq<seq<T>>, size: nat)
    requires forall k :: 0 <= k < |parts| ==> |parts[k]| == size
    ensures |Flatten(parts)| == |parts| * size
  {
    if parts != [] {
      var n := |parts| - 1;
      UniformTotal(parts[..n], size);
      assert |Flatten(parts)| == |Flatten(parts[..n])| + size;
      assert (n + 1) * size == n * size + size;
    }
  }

  /** Part `k` is found behind the parts before it. */
  lemma {:induction false} FlattenAt<T>(parts: seq<seq<T>>, k: nat)
    requires k < |parts|
    ensures |Flatten(parts[..k])| + |parts[k]| <= |Flatten(parts)|
    ensures Flatten(parts)[|Flatten(parts[..k])|..|Flatten(parts[..k])| + |parts[k]|] == parts[k]
  {
    var last := |parts| - 1;
    if k < last {
      FlattenAt(parts[..last], k);
      assert parts[..last][..k] == parts[..k];
    }
  }

  lemma {:induction false} PartAt<T>(parts: seq<seq<T>>, k: nat, at: nat, width: nat)
    requires k < |parts| && at == |Flatten(parts[..k])| && width == |parts[k]|
    ensures at + width <= |Flatten(parts)|
    ensures Flatten(parts)[at..at + width] == parts[k]
  {
    FlattenAt(parts, k);
  }

  lemma {:induction false} SliceOfSlice<T>(s: seq<T>, at: nat, part: seq<T>, from: nat, n: nat)
    requires at + |part| <= |s| && s[at..at + |part|] == part && from + n <= |part|
    ensures s[at + from..at + from + n] == part[from..from + n]
  {
    var x, y := s[at + from..at + from + n], part[from..from + n];
    forall k | 0 <= k < n ensures x[k] == y[k] {
      assert s[at..at + |part|][from + k] == part[from + k];
    }
  }

  // ---------------------------------------------------------------- bits

  /** `n >> k & 1`. */
  predicate BitSet(n: nat, k: nat) {
    if k == 0 then n % 2 == 1 else BitSet(n / 2, k - 1)
  }

  /** `n | 1 << k`. */
  function WithBit(n: nat, k: nat): nat {
    if k == 0 then (if n % 2 == 1 then n else n + 1) else 2 * WithBit(n / 2, k - 1) + n % 2
  }

  function Power2(k: nat): (p: nat)
    ensures p > 0
  {
    if k == 0 then 1 else 2 * Power2(k - 1)
  }

  lemma {:induction false} WithBitSets(n: nat, k: nat, j: nat)
    ensures BitSet(WithBit(n, k), j) <==> j == k || BitSet(n, j)
  {
    if k != 0 && j != 0 {
      WithBitSets(n / 2, k - 1, j - 1);
    }
  }

  lemma {:induction false} WithBitFits(n: nat, k: nat, width: nat)
    requires k < width && n < Power2(width)
    ensures WithBit(n, k) < Power2(width)
  {
    var half := Power2(width - 1);
    assert Power2(width) == 2 * half;
    if k == 0 {
      if n % 2 == 0 { assert n + 1 < 2 * half; }
    } else {
      assert n / 2 < half;
      WithBitFits(n / 2, k - 1, width - 1);
    }
  }

  /** Sets bit `k` of a byte in place. */
  function ByteWithBit(b: byte, k: nat): (r: byte)
    requires k < 8
    ensures forall j: nat :: BitSet(r, j) <==> j == k || BitSet(b, j)
  {
    assert Power2(8) == 256 by { assert Power2(4) == 16; }
    WithBitFits(b, k, 8);
    assert forall j: nat :: BitSet(WithBit(b, k), j) <==> j == k || BitSet(b, j) by {
      forall j: nat ensures BitSet(WithBit(b, k), j) <==> j == k || BitSet(b, j) { WithBitSets(b, k, j); }
    }
    WithBit(b, k)
  }
}
