/** Bit extraction from CAN payloads: `raw_value` and `sign_extend` of src/candb.rs. */
module CanBits {
  import opened Arithmetic
  import opened Bytes
  import opened Options

  /** Where a signal's bits are. */
  datatype Placement = Placement(startBit: nat, size: nat, bigEndian: bool)

  // ---------------------------------------------------------------- bits and the numbers they spell

  function BitOf(b: byte, k: nat): (bit: nat)
    ensures bit <= 1
  {
    b / Power2(k) % 2
  }

  /** Bit `k` of a payload, counted from the least significant bit of each byte on. */
  function LsbBit(payload: seq<byte>, k: nat): (bit: nat)
    requires k < 8 * |payload|
    ensures bit <= 1
  {
    BitOf(payload[k / 8], k % 8)
  }

  /** Bit `k` of a payload, counted from the most significant bit of each byte on. */
  function MsbBit(payload: seq<byte>, k: nat): (bit: nat)
    requires k < 8 * |payload|
    ensures bit <= 1
  {
    BitOf(payload[k / 8], 7 - k % 8)
  }

  /** `size` bits from `from` on, the first the least significant. */
  function IntelBits(payload: seq<byte>, from: nat, size: nat): nat
    requires from + size <= 8 * |payload|
  {
    if size == 0 then 0 else IntelBits(payload, from, size - 1) + LsbBit(payload, from + size - 1) * Power2(size - 1)
  }

  /** `size` bits from `from` on, the first the most significant. */
  function MotorolaBits(payload: seq<byte>, from: nat, size: nat): nat
    requires from + size <= 8 * |payload|
  {
    if size == 0 then 0 else 2 * MotorolaBits(payload, from, size - 1) + MsbBit(payload, from + size - 1)
  }

  /** The position of a big-endian signal's most significant bit, counted most significant first. */
  function MsbPosition(startBit: nat): nat {
    startBit / 8 * 8 + (7 - startBit % 8)
  }

  /** What `raw_value` returns. */
  function RawValue(p: Placement, payload: seq<byte>): Option<nat> {
    var from := if p.bigEndian then MsbPosition(p.startBit) else p.startBit;
    if p.size == 0 || p.size > 64 || 8 * |payload| >= U64_LIMIT || from + p.size >= U64_LIMIT || from + p.size > 8 * |payload| then None
    else if p.bigEndian then Some(MotorolaBits(payload, from, p.size))
    else Some(IntelBits(payload, from, p.size))
  }

  // ---------------------------------------------------------------- the two loops

  /** `value << 1 | bit`, in 64 bits. */
  function ShiftIn(value: nat, bit: nat): nat {
    (2 * value + bit) % U64_LIMIT
  }

  /** `raw_value`'s big-endian loop. */
  method ReadMotorola(payload: seq<byte>, msb: nat, size: nat) returns (value: nat)
    requires msb + size <= 8 * |payload| && size <= 64
    ensures value == MotorolaBits(payload, msb, size)
  {
    hide MsbBit;
    value := 0;
    for i := 0 to size
      invariant value == MotorolaBits(payload, msb, i)
    {
      MotorolaBound(payload, msb, i + 1);
      SixtyFourBits(i + 1);
      value := ShiftIn(value, MsbBit(payload, msb + i));
    }
  }

  /** `raw_value`'s little-endian loop. */
  method ReadIntel(payload: seq<byte>, start: nat, size: nat) returns (value: nat)
    requires start + size <= 8 * |payload| && size <= 64
    ensures value == IntelBits(payload, start, size)
  {
    hide LsbBit, WithBit;
    value := 0;
    for i := 0 to size
      invariant value == IntelBits(payload, start, i)
    {
      IntelBound(payload, start, i);
      if LsbBit(payload, start + i) == 1 {
        OrAbove(value, i);
        value := WithBit(value, i);
      }
    }
  }

  /** `raw_value`. */
  method ReadRawValue(p: Placement, payload: seq<byte>) returns (r: Option<nat>)
    ensures r == RawValue(p, payload)
  {
    if p.size == 0 || p.size > 64 { return None; }
    if 8 * |payload| >= U64_LIMIT { return None; }
    var available := 8 * |payload|;
    var value;
    if p.bigEndian {
      var msb := MsbPosition(p.startBit);
      if msb + p.size >= U64_LIMIT || msb + p.size > available { return None; }
      value := ReadMotorola(payload, msb, p.size);
    } else {
      if p.startBit + p.size >= U64_LIMIT || p.startBit + p.size > available { return None; }
      value := ReadIntel(payload, p.startBit, p.size);
    }
    r := Some(value);
  }

  /** Or-ing in a bit above all that are set adds it. */
  lemma {:induction false} OrAbove(value: nat, i: nat)
    requires value < Power2(i)
    ensures WithBit(value, i) == value + Power2(i)
  {
    if i > 0 {
      OrAbove(value / 2, i - 1);
      assert value == value / 2 * 2 + value % 2;
    }
  }

  lemma {:induction false} Power2Grows(a: nat, b: nat)
    requires a <= b
    ensures Power2(a) <= Power2(b)
  {
    if a < b { Power2Grows(a, b - 1); }
  }

  lemma {:induction false} SixtyFourBits(a: nat)
    ensures Power2(64) == U64_LIMIT && Power2(63) == 0x8000_0000_0000_0000 && Power2(8) == 256
    ensures a <= 64 ==> Power2(a) <= U64_LIMIT
  {
    assert Power2(4) == 16;
    Power2Adds(4, 4);
    Power2Adds(8, 8);
    Power2Adds(16, 16);
    Power2Adds(32, 32);
    if a <= 64 { Power2Grows(a, 64); }
  }

  lemma {:induction false} Power2Adds(a: nat, b: nat)
    ensures Power2(a + b) == Power2(a) * Power2(b)
  {
    if a > 0 {
      Power2Adds(a - 1, b);
      assert Power2(a) * Power2(b) == 2 * (Power2(a - 1) * Power2(b));
    }
  }

  /** A value read little-endian fits its width. */
  lemma {:induction false} IntelBound(payload: seq<byte>, from: nat, size: nat)
    requires from + size <= 8 * |payload|
    ensures IntelBits(payload, from, size) < Power2(size)
  {
    if size > 0 { IntelBound(payload, from, size - 1); }
  }

  /** A value read big-endian fits its width. */
  lemma {:induction false} MotorolaBound(payload: seq<byte>, from: nat, size: nat)
    requires from + size <= 8 * |payload|
    ensures MotorolaBits(payload, from, size) < Power2(size)
  {
    if size > 0 { MotorolaBound(payload, from, size - 1); }
  }

  lemma {:induction false} RawValueFits(p: Placement, payload: seq<byte>)
    requires RawValue(p, payload).Some?
    ensures RawValue(p, payload).value < Power2(p.size) <= U64_LIMIT
  {
    SixtyFourBits(p.size);
    if p.bigEndian { MotorolaBound(payload, MsbPosition(p.startBit), p.size); } else { IntelBound(payload, p.startBit, p.size); }
  }

  // ---------------------------------------------------------------- the two orders mirror each other

  function Reversed(payload: seq<byte>): (r: seq<byte>)
    ensures |r| == |payload|
  {
    seq(|payload|, k requires 0 <= k < |payload| => payload[|payload| - 1 - k])
  }

  lemma {:induction false} BitMirror(payload: seq<byte>, k: nat)
    requires k < 8 * |payload|
    ensures MsbBit(payload, k) == LsbBit(Reversed(payload), 8 * |payload| - 1 - k)
  {
    var n := |payload|;
    var q, r := k / 8, k % 8;
    assert k == q * 8 + r;
    DivUnique(8 * n - 1 - k, 8, n - 1 - q, 7 - r);
  }

  /** Taking the lowest bit off instead of the highest. */
  lemma {:induction false} IntelFromBelow(payload: seq<byte>, from: nat, size: nat)
    requires size > 0 && from + size <= 8 * |payload|
    ensures IntelBits(payload, from, size) == LsbBit(payload, from) + 2 * IntelBits(payload, from + 1, size - 1)
  {
    if size == 1 {
      assert Power2(0) == 1 && IntelBits(payload, from, 0) == 0;
    } else {
      IntelFromBelow(payload, from, size - 1);
      var top := LsbBit(payload, from + size - 1);
      assert top * Power2(size - 1) == 2 * (top * Power2(size - 2));
    }
  }

  /** A big-endian read is the little-endian read of the mirrored bits of the payload turned end for end. */
  lemma {:induction false} OrdersMirror(payload: seq<byte>, m: nat, size: nat)
    requires m + size <= 8 * |payload|
    ensures MotorolaBits(payload, m, size) == IntelBits(Reversed(payload), 8 * |payload| - m - size, size)
  {
    if size > 0 {
      OrdersMirror(payload, m, size - 1);
      BitMirror(payload, m + size - 1);
      IntelFromBelow(Reversed(payload), 8 * |payload| - m - size, size);
    }
  }

  /** Both orders refuse in the same cases, and agree on the mirrored payload, for every placement. */
  lemma {:induction false} ReadsMirror(p: Placement, payload: seq<byte>)
    requires p.bigEndian
    ensures RawValue(p, payload).None? <==>
      (MsbPosition(p.startBit) + p.size > 8 * |payload| || p.size == 0 || p.size > 64 || 8 * |payload| >= U64_LIMIT)
    ensures MsbPosition(p.startBit) + p.size <= 8 * |payload| ==>
      RawValue(p, payload) == RawValue(Placement(8 * |payload| - MsbPosition(p.startBit) - p.size, p.size, false), Reversed(payload))
  {
    var m := MsbPosition(p.startBit);
    if m + p.size <= 8 * |payload| { OrdersMirror(payload, m, p.size); }
  }

  // ---------------------------------------------------------------- the bits a value is made of

  /** The bit after bit `k` of a big-endian signal, bits counted from the least significant of each byte on: the next one
      down in its byte, and behind the lowest the highest of the next byte. */
  function NextDown(k: nat): nat {
    if k % 8 == 0 then k + 15 else k - 1
  }

  /** Bit `i` of a big-endian signal that starts at bit `s`. */
  function DownFrom(s: nat, i: nat): nat {
    if i == 0 then s else NextDown(DownFrom(s, i - 1))
  }

  /** Going down from a bit is going on from its place counted most significant first. */
  lemma {:induction false} DownStep(m: nat)
    ensures NextDown(m / 8 * 8 + (7 - m % 8)) == (m + 1) / 8 * 8 + (7 - (m + 1) % 8)
    ensures (m / 8 * 8 + (7 - m % 8)) / 8 == m / 8 && (m / 8 * 8 + (7 - m % 8)) % 8 == 7 - m % 8
  {
    var q, r := m / 8, m % 8;
    assert m == 8 * q + r;
    DivUnique(8 * q + (7 - r), 8, q, 7 - r);
    if r == 7 { DivUnique(m + 1, 8, q + 1, 0); } else { DivUnique(m + 1, 8, q, r + 1); }
  }

  lemma {:induction false} DownIsOn(s: nat, i: nat)
    ensures var m := MsbPosition(s) + i; DownFrom(s, i) == m / 8 * 8 + (7 - m % 8)
  {
    hide NextDown;
    if i == 0 { DownStep(s); DownStep(MsbPosition(s)); } else { DownIsOn(s, i - 1); DownStep(MsbPosition(s) + i - 1); }
  }

  /** Bit `i` of a Motorola value, counted from its top, is the bit it was read from. */
  lemma {:induction false} MotorolaBitAt(payload: seq<byte>, from: nat, size: nat, i: nat)
    requires from + size <= 8 * |payload| && i < size
    ensures MotorolaBits(payload, from, size) / Power2(size - 1 - i) % 2 == MsbBit(payload, from + i)
    decreases size
  {
    hide MsbBit, Power2;
    var before, bit := MotorolaBits(payload, from, size - 1), MsbBit(payload, from + size - 1);
    if i == size - 1 {
      PowerSteps(0);
    } else {
      MotorolaBitAt(payload, from, size - 1, i);
      HalfFirst(2 * before + bit, before, size - 2 - i);
    }
  }

  lemma {:induction false} PowerSteps(k: nat)
    ensures Power2(0) == 1 && Power2(k + 1) == 2 * Power2(k)
  {
  }

  lemma {:induction false} HalfFirst(n: nat, half: nat, k: nat)
    requires n / 2 == half
    ensures n / Power2(k + 1) == half / Power2(k)
  {
    hide Power2;
    PowerSteps(k);
    DivTwice(n, 2, Power2(k));
  }

  /** The bit at a place counted most significant first, found counting from the least significant. */
  lemma {:induction false} SameBit(payload: seq<byte>, m: nat)
    requires m < 8 * |payload|
    ensures var k := m / 8 * 8 + (7 - m % 8); k < 8 * |payload| && LsbBit(payload, k) == MsbBit(payload, m)
  {
    hide BitOf;
    DownStep(m);
  }

  /** How many bits a big-endian signal that starts at bit `s` finds: down to the lowest of that byte, and all behind. */
  function BitsFrom(s: nat, bytes: nat): int {
    if s / 8 < bytes then s % 8 + 1 + 8 * (bytes - 1 - s / 8) else 0
  }

  /** A big-endian value: refused exactly when its bits run out, and otherwise made of the bits from its start bit down,
      the first the most significant. */
  lemma {:induction false} BigEndianRunsDown(s: nat, size: nat, payload: seq<byte>)
    ensures var r := RawValue(Placement(s, size, true), payload);
      && (r.None? <==> size == 0 || size > 64 || 8 * |payload| >= U64_LIMIT || BitsFrom(s, |payload|) < size)
      && (r.Some? ==> forall i :: 0 <= i < size ==>
            DownFrom(s, i) < 8 * |payload| && r.value / Power2(size - 1 - i) % 2 == LsbBit(payload, DownFrom(s, i)))
  {
    hide Power2, BitOf, LsbBit, MsbBit, DownFrom, MotorolaBits, IntelBits;
    var m, r := MsbPosition(s), RawValue(Placement(s, size, true), payload);
    BitsLeft(s, |payload|);
    if r.Some? {
      forall i | 0 <= i < size
        ensures DownFrom(s, i) < 8 * |payload| && r.value / Power2(size - 1 - i) % 2 == LsbBit(payload, DownFrom(s, i))
      {
        MotorolaBitAt(payload, m, size, i);
        DownIsOn(s, i);
        SameBit(payload, m + i);
      }
    }
  }

  lemma {:induction false} BitsLeft(s: nat, bytes: nat)
    ensures s / 8 < bytes ==> BitsFrom(s, bytes) == 8 * bytes - MsbPosition(s) > 0
    ensures s / 8 >= bytes ==> MsbPosition(s) >= 8 * bytes
  {
  }

  /** A little-endian value: refused exactly when its bits run out, and otherwise made of the bits from its start bit up,
      the first the least significant. */
  lemma {:induction false} LittleEndianRunsUp(s: nat, size: nat, payload: seq<byte>)
    ensures var r := RawValue(Placement(s, size, false), payload);
      && (r.None? <==> size == 0 || size > 64 || 8 * |payload| >= U64_LIMIT || s + size > 8 * |payload|)
      && (r.Some? ==> forall i :: 0 <= i < size ==> r.value / Power2(i) % 2 == LsbBit(payload, s + i))
  {
    hide Power2, BitOf, LsbBit, MsbBit, MotorolaBits, IntelBits;
    if RawValue(Placement(s, size, false), payload).Some? {
      forall i | 0 <= i < size ensures IntelBits(payload, s, size) / Power2(i) % 2 == LsbBit(payload, s + i) {
        IntelBitAt(payload, s, size, i);
      }
    }
  }

  lemma {:induction false} IntelBitAt(payload: seq<byte>, from: nat, size: nat, i: nat)
    requires from + size <= 8 * |payload| && i < size
    ensures IntelBits(payload, from, size) / Power2(i) % 2 == LsbBit(payload, from + i)
    decreases size
  {
    hide LsbBit, Power2, IntelBits;
    IntelFromBelow(payload, from, size);
    if i == 0 {
      PowerSteps(0);
    } else {
      IntelBitAt(payload, from + 1, size - 1, i - 1);
      var above, bit := IntelBits(payload, from + 1, size - 1), LsbBit(payload, from);
      HalfFirst(bit + 2 * above, above, i - 1);
    }
  }

  /** One bit reads the same in both orders. */
  lemma {:induction false} OneBitEitherWay(s: nat, payload: seq<byte>)
    ensures RawValue(Placement(s, 1, true), payload) == RawValue(Placement(s, 1, false), payload)
  {
    hide Power2, BitOf, RawValue, LsbBit;
    BigEndianRunsDown(s, 1, payload);
    LittleEndianRunsUp(s, 1, payload);
    PowerSteps(0);
    assert DownFrom(s, 0) == s;
    var big, little := RawValue(Placement(s, 1, true), payload), RawValue(Placement(s, 1, false), payload);
    if big.Some? && little.Some? {
      RawValueFits(Placement(s, 1, true), payload);
      RawValueFits(Placement(s, 1, false), payload);
      assert big.value / Power2(0) % 2 == LsbBit(payload, DownFrom(s, 0)) && little.value / Power2(0) % 2 == LsbBit(payload, s + 0);
    }
  }

  // ---------------------------------------------------------------- the payload as one number

  /** Bit `k` of the payload is bit `k` of the number its bytes spell. */
  lemma {:induction false} BitOfWhole(payload: seq<byte>, k: nat)
    requires k < 8 * |payload|
    ensures FromLe(payload) / Power2(k) % 2 == LsbBit(payload, k)
  {
    hide Power2, BitOf;
    var n, above := FromLe(payload), FromLe(payload[1..]);
    assert n == payload[0] + 256 * above;
    if k < 8 {
      LowBits(payload[0], above, k);
    } else {
      SixtyFourBits(0);
      Power2Adds(8, k - 8);
      BitOfWhole(payload[1..], k - 8);
      DivUnique(n, 256, above, payload[0]);
      DivTwice(n, 256, Power2(k - 8));
      assert payload[1..][(k - 8) / 8] == payload[k / 8];
    }
  }

  lemma {:induction false} DivTwice(n: nat, a: nat, b: nat)
    requires a > 0 && b > 0
    ensures a * b > 0 && n / (a * b) == n / a / b
  {
    MulLess(0, a, b);
    var q, r := n / a, n % a;
    var q', r' := q / b, q % b;
    Nested(n, a, b, q, r, q', r');
    DivUnique(n, a * b, q', r' * a + r);
  }

  lemma {:induction false} Nested(n: nat, a: nat, b: nat, q: nat, r: nat, q': nat, r': nat)
    requires n == q * a + r && q == q' * b + r' && r < a && r' < b
    ensures n == q' * (a * b) + (r' * a + r) && r' * a + r < a * b
  {
    assert (q' * b + r') * a == q' * b * a + r' * a;
    assert q' * b * a == q' * (a * b);
    MulLess(r', b, a);
  }

  /** The bits of the lowest byte do not see the bytes above. */
  lemma {:induction false} LowBits(low: byte, high: nat, k: nat)
    requires k < 8
    ensures (low + 256 * high) / Power2(k) % 2 == BitOf(low, k)
  {
    var p, half := Power2(k), Power2(7 - k);
    assert p * (2 * half) == 256 by { Power2Adds(k, 8 - k); SixtyFourBits(0); }
    hide Power2;
    var q, r := low / p, low % p;
    HighPart(low, high, p, half, q, r);
    DivUnique(low + 256 * high, p, q + 2 * (half * high), r);
    EvenAdded(q, half * high);
  }

  lemma {:induction false} HighPart(low: nat, high: nat, p: nat, half: nat, q: nat, r: nat)
    requires low == q * p + r && p * (2 * half) == 256
    ensures low + 256 * high == (q + 2 * (half * high)) * p + r
  {
    assert 256 * high == p * (2 * half) * high == 2 * (half * high) * p;
    assert (q + 2 * (half * high)) * p == q * p + 2 * (half * high) * p;
  }

  lemma {:induction false} EvenAdded(q: nat, m: nat)
    ensures (q + 2 * m) % 2 == q % 2
  {
  }

  /** A little-endian read is a shift and a mask of the payload read as one little-endian number. */
  lemma {:induction false} IntelIsShiftAndMask(payload: seq<byte>, from: nat, size: nat)
    requires from + size <= 8 * |payload|
    ensures IntelBits(payload, from, size) == FromLe(payload) / Power2(from) % Power2(size)
  {
    hide FromLe, LsbBit, Power2;
    var whole := FromLe(payload);
    NextPower(size);
    if size == 0 {
      ModOne(whole / Power2(from));
    } else {
      IntelIsShiftAndMask(payload, from, size - 1);
      BitOfWhole(payload, from + size - 1);
      Power2Adds(from, size - 1);
      DivTwice(whole, Power2(from), Power2(size - 1));
      OneMoreBit(whole / Power2(from), Power2(size - 1), Power2(size));
    }
  }

  lemma {:induction false} NextPower(size: nat)
    ensures Power2(size) == if size == 0 then 1 else 2 * Power2(size - 1)
  {
  }

  lemma {:induction false} ModOne(n: nat)
    ensures n % 1 == 0
  {
  }

  lemma {:induction false} OneMoreBit(n: nat, p: nat, twice: nat)
    requires p > 0 && twice == 2 * p
    ensures n % twice == n % p + n / p % 2 * p
  {
    var q, r := n / p, n % p;
    var h, b := q / 2, q % 2;
    Nested(n, p, 2, q, r, h, b);
    DivUnique(n, twice, h, b * p + r);
  }

  // ---------------------------------------------------------------- sign extension

  /** A u64 read as an i64. */
  function AsI64(n: nat): int
    requires n < U64_LIMIT
  {
    if n < 0x8000_0000_0000_0000 then n else n - U64_LIMIT
  }

  /** `n | !((1 << bits) - 1)` in 64 bits. */
  function OrHighOnes(n: nat, bits: nat): (r: nat)
    requires bits <= 64
    ensures r < U64_LIMIT
  {
    SixtyFourBits(bits);
    n % Power2(bits) + (U64_LIMIT - Power2(bits))
  }

  /** `sign_extend`. */
  function SignExtend(raw: nat, bits: nat): int
    requires raw < U64_LIMIT
  {
    if bits == 0 || bits >= 64 then AsI64(raw)
    else if raw / Power2(bits - 1) % 2 == 0 then AsI64(raw)
    else AsI64(OrHighOnes(raw, bits))
  }

  /** `v` is what `bits` bits holding `raw` mean in two's complement. */
  predicate SignedReading(v: int, raw: nat, bits: nat)
    requires bits > 0
  {
    -(Power2(bits - 1) as int) <= v < Power2(bits - 1) && (v - raw) % Power2(bits) == 0
  }

  /** Sign extension gives the one value in the signed range that the bits can mean. */
  lemma {:induction false} SignExtendIsReading(raw: nat, bits: nat)
    requires 0 < bits <= 64 && raw < Power2(bits) && raw < U64_LIMIT
    ensures forall v :: SignedReading(v, raw, bits) <==> v == SignExtend(raw, bits)
  {
    var p := Power2(bits - 1);
    assert Power2(bits) == 2 * p;
    SixtyFourBits(bits);
    Power2Grows(bits - 1, 63);
    DivUnique(raw, p, if raw < p then 0 else 1, if raw < p then raw else raw - p);
    DivUnique(raw, 2 * p, 0, raw);
    var s := if raw < p then raw else raw - 2 * p;
    assert SignExtend(raw, bits) == s;
    forall v ensures SignedReading(v, raw, bits) <==> v == s {
      Congruent(v, s, raw, p);
    }
  }

  lemma {:induction false} Congruent(v: int, s: int, raw: nat, p: nat)
    requires p > 0 && 0 - p <= s < p && (s == raw || s == raw - 2 * p)
    ensures 0 - p <= v < p && (v - raw) % (2 * p) == 0 <==> v == s
  {
    if v == s {
      if s != raw { NegativeMultiple(2 * p); }
    }
    if 0 - p <= v < p && (v - raw) % (2 * p) == 0 {
      var k := ExactQuotient(v - raw, 2 * p);
      assert (k + 1) * (2 * p) == k * (2 * p) + 2 * p;
      OnlyMultiple(v - s, 2 * p, if s == raw then k else k + 1);
    }
  }

  lemma {:induction false} ExactQuotient(d: int, m: nat) returns (k: int)
    requires m > 0 && d % m == 0
    ensures d == k * m
  {
    k := d / m;
  }

  lemma {:induction false} MulAtLeast(j: int, m: nat)
    requires m > 0
    ensures j >= 1 ==> j * m >= m
    ensures j <= -1 ==> j * m <= 0 - m
  {
    if j >= 1 { MulLess(0, j, m); }
    if j <= -1 {
      MulLess(0, 0 - j, m);
      assert (0 - j) * m == 0 - j * m;
    }
  }

  lemma {:induction false} NegativeMultiple(m: nat)
    requires m > 0
    ensures (0 - m) % m == 0
  {
    var q, r := (0 - m) / m, (0 - m) % m;
    assert 0 - m == q * m + r;
    assert (q + 1) * m == q * m + m;
    MulAtLeast(q, m);
    MulAtLeast(q + 1, m);
  }

  /** The only multiple of `m` less than `m` away from zero is zero. */
  lemma {:induction false} OnlyMultiple(d: int, m: nat, j: int)
    requires m > 0 && d == j * m && 0 - m < d < m
    ensures d == 0
  {
    MulAtLeast(j, m);
  }
}
