/** A data block's payload: what `read_block_payload` and `read_block_range` (src/file.rs) return for it. */
module DataBlocks {
  import opened Arithmetic
  import opened Bytes
  import opened Options

  /** One stored block: the bytes it expands to, and the size the index holds for it. */
  datatype Piece = Piece(bytes: seq<byte>, originalSize: nat, compressed: bool)

  /** A data block, with the block holding its invalidation bytes when those are stored apart. */
  datatype Block = Block(main: Piece, invalidation: Option<Piece>, dataBytes: nat, invalBytes: nat)

  datatype ReadError = LayoutMissing

  /** An uncompressed block is read by its size, so it has exactly that many bytes. */
  predicate ValidPiece(p: Piece) {
    !p.compressed ==> |p.bytes| == p.originalSize
  }

  predicate ValidBlock(b: Block) {
    ValidPiece(b.main) && (b.invalidation.Some? ==> ValidPiece(b.invalidation.value))
  }

  function Min(a: nat, b: nat): nat {
    if a < b then a else b
  }

  /** Whole records both buffers hold. */
  function Cycles(data: seq<byte>, inval: seq<byte>, dataBytes: nat, invalBytes: nat): nat
    requires dataBytes > 0 && invalBytes > 0
  {
    Min(|data| / dataBytes, |inval| / invalBytes)
  }

  lemma {:induction false} CycleFits(length: nat, size: nat, i: nat, cycles: nat)
    requires size > 0 && cycles <= length / size && i < cycles
    ensures (i + 1) * size == i * size + size <= length
  {
    assert length == length / size * size + length % size;
    if i + 1 < length / size { MulLess(i + 1, length / size, size); }
  }

  /** Record `i` with its invalidation bytes behind it. */
  function CycleAt(data: seq<byte>, inval: seq<byte>, dataBytes: nat, invalBytes: nat, i: nat): (r: seq<byte>)
    requires dataBytes > 0 && invalBytes > 0 && i < Cycles(data, inval, dataBytes, invalBytes)
    ensures |r| == dataBytes + invalBytes
  {
    CycleFits(|data|, dataBytes, i, Cycles(data, inval, dataBytes, invalBytes));
    CycleFits(|inval|, invalBytes, i, Cycles(data, inval, dataBytes, invalBytes));
    data[i * dataBytes..i * dataBytes + dataBytes] + inval[i * invalBytes..i * invalBytes + invalBytes]
  }

  function CycleParts(data: seq<byte>, inval: seq<byte>, dataBytes: nat, invalBytes: nat): (parts: seq<seq<byte>>)
    requires dataBytes > 0 && invalBytes > 0
    ensures |parts| == Cycles(data, inval, dataBytes, invalBytes)
  {
    seq(Cycles(data, inval, dataBytes, invalBytes), i requires 0 <= i < Cycles(data, inval, dataBytes, invalBytes)
      => CycleAt(data, inval, dataBytes, invalBytes, i))
  }

  /** A block's payload as the record stream holds it. */
  function Payload(b: Block): Result<seq<byte>, ReadError> {
    if b.invalidation.None? then Ok(b.main.bytes)
    else if b.dataBytes > 0 && b.invalBytes > 0 then
      Ok(Flatten(CycleParts(b.main.bytes, b.invalidation.value.bytes, b.dataBytes, b.invalBytes)))
    else Err(LayoutMissing)
  }

  /** `DataBlockInfo::effective_size`. */
  function EffectiveSize(b: Block): nat {
    b.main.originalSize + if b.invalidation.Some? then b.invalidation.value.originalSize else 0
  }

  /** The loop that puts each record's invalidation bytes beside it. */
  method Interleave(data: seq<byte>, inval: seq<byte>, dataBytes: nat, invalBytes: nat) returns (out: seq<byte>)
    requires dataBytes > 0 && invalBytes > 0
    ensures out == Flatten(CycleParts(data, inval, dataBytes, invalBytes))
  {
    var cycles := Cycles(data, inval, dataBytes, invalBytes);
    ghost var parts := CycleParts(data, inval, dataBytes, invalBytes);
    out := [];
    for i := 0 to cycles
      invariant out == Flatten(parts[..i])
    {
      FlattenNext(parts, i);
      out := out + CycleAt(data, inval, dataBytes, invalBytes, i);
    }
    assert parts[..cycles] == parts;
  }

  method ReadBlockPayload(b: Block) returns (r: Result<seq<byte>, ReadError>)
    ensures r == Payload(b)
  {
    if b.invalidation.None? { return Ok(b.main.bytes); }
    if b.dataBytes == 0 || b.invalBytes == 0 { return Err(LayoutMissing); }
    var out := Interleave(b.main.bytes, b.invalidation.value.bytes, b.dataBytes, b.invalBytes);
    r := Ok(out);
  }

  /** The two buffers hold the same whole number of records and nothing besides. */
  predicate WholeCycles(b: Block)
    requires b.invalidation.Some? && b.dataBytes > 0 && b.invalBytes > 0
  {
    && |b.main.bytes| / b.dataBytes == |b.invalidation.value.bytes| / b.invalBytes
    && |b.main.bytes| % b.dataBytes == 0 && |b.invalidation.value.bytes| % b.invalBytes == 0
  }

  /** Interleaving loses a byte exactly when one buffer has a partial record or a record the other lacks. */
  lemma {:induction false} InterleavingKeepsAllExactly(b: Block)
    requires b.invalidation.Some? && b.dataBytes > 0 && b.invalBytes > 0
    ensures |Payload(b).value| == |b.main.bytes| + |b.invalidation.value.bytes| <==> WholeCycles(b)
  {
    var data, inval := b.main.bytes, b.invalidation.value.bytes;
    UniformTotal(CycleParts(data, inval, b.dataBytes, b.invalBytes), b.dataBytes + b.invalBytes);
    CyclesTotal(|data|, |inval|, b.dataBytes, b.invalBytes);
  }

  lemma {:induction false} CyclesTotal(dataLen: nat, invalLen: nat, dataBytes: nat, invalBytes: nat)
    requires dataBytes > 0 && invalBytes > 0
    ensures Min(dataLen / dataBytes, invalLen / invalBytes) * (dataBytes + invalBytes) == dataLen + invalLen
       <==> dataLen / dataBytes == invalLen / invalBytes && dataLen % dataBytes == 0 && invalLen % invalBytes == 0
  {
    var n := Min(dataLen / dataBytes, invalLen / invalBytes);
    var x, y := n * dataBytes, n * invalBytes;
    assert n * (dataBytes + invalBytes) == x + y;
    PartWithin(dataLen, dataBytes, n);
    PartWithin(invalLen, invalBytes, n);
  }

  lemma {:induction false} PartWithin(length: nat, size: nat, n: nat)
    requires size > 0 && n <= length / size
    ensures n * size <= length
    ensures n * size == length <==> n == length / size && length % size == 0
  {
    var q, r := length / size, length % size;
    assert length == q * size + r;
    if n < q { MulLess(n, q, size); }
  }

  lemma {:induction false} PartsBefore<T>(parts: seq<seq<T>>, size: nat, i: nat)
    requires i < |parts| && forall k :: 0 <= k < |parts| ==> |parts[k]| == size
    ensures i * size + size <= |Flatten(parts)| && Flatten(parts)[i * size..i * size + size] == parts[i]
  {
    UniformTotal(parts[..i], size);
    PartAt(parts, i, i * size, size);
  }

  /** The `n` bytes at `at`, where they are there. */
  function BytesAt(s: seq<byte>, at: nat, n: nat): Option<seq<byte>> {
    if at + n <= |s| then Some(s[at..at + n]) else None
  }

  /** Record `i` is found in the payload with its own invalidation bytes directly behind it. */
  lemma {:induction false} RecordBesideItsBytes(b: Block, i: nat, data: seq<byte>, inval: seq<byte>)
    requires b.invalidation.Some? && b.dataBytes > 0 && b.invalBytes > 0
    requires BytesAt(b.main.bytes, i * b.dataBytes, b.dataBytes) == Some(data)
    requires BytesAt(b.invalidation.value.bytes, i * b.invalBytes, b.invalBytes) == Some(inval)
    ensures Payload(b).Ok?
    ensures BytesAt(Payload(b).value, i * (b.dataBytes + b.invalBytes), b.dataBytes) == Some(data)
    ensures BytesAt(Payload(b).value, i * (b.dataBytes + b.invalBytes) + b.dataBytes, b.invalBytes) == Some(inval)
  {
    hide Flatten;
    var size := b.dataBytes + b.invalBytes;
    EnoughFor(|b.main.bytes|, b.dataBytes, i);
    EnoughFor(|b.invalidation.value.bytes|, b.invalBytes, i);
    var parts := CycleParts(b.main.bytes, b.invalidation.value.bytes, b.dataBytes, b.invalBytes);
    PartsBefore(parts, size, i);
    assert parts[i] == data + inval;
    SliceOfSlice(Payload(b).value, i * size, parts[i], 0, b.dataBytes);
    SliceOfSlice(Payload(b).value, i * size, parts[i], b.dataBytes, b.invalBytes);
  }

  lemma {:induction false} EnoughFor(length: nat, size: nat, i: nat)
    requires size > 0 && i * size + size <= length
    ensures i < length / size
  {
    assert (i + 1) * size == i * size + size;
    var q, r := length / size, length % size;
    assert length == q * size + r;
    if q < i + 1 { MulLess(q, i + 1, size); }
  }

  /** The size the index counts with is the payload's exactly when no byte is lost to interleaving. */
  lemma {:induction false} SizeIsLengthExactly(b: Block)
    requires |b.main.bytes| == b.main.originalSize && Payload(b).Ok?
    requires b.invalidation.Some? ==> |b.invalidation.value.bytes| == b.invalidation.value.originalSize
    ensures |Payload(b).value| == EffectiveSize(b) <==> b.invalidation.None? || WholeCycles(b)
  {
    if b.invalidation.Some? { InterleavingKeepsAllExactly(b); }
  }

  // ---------------------------------------------------------------- part of a block

  /** What `read_block_range` returns: an uncompressed block is read up to its size, any other up to its payload's end. */
  function Range(b: Block, start: nat, len: nat): Result<seq<byte>, ReadError>
    requires ValidBlock(b)
  {
    if b.main.compressed || b.invalidation.Some? then
      match Payload(b)
      case Err(e) => Err(e)
      case Ok(whole) =>
        var end := Min(start + len, |whole|);
        Ok(whole[Min(start, end)..end])
    else if start >= b.main.originalSize then Ok([])
    else Ok(b.main.bytes[start..start + Min(len, b.main.originalSize - start)])
  }

  /** The bytes of `s` from `start` on, at most `len` of them. */
  function Window(s: seq<byte>, start: nat, len: nat): seq<byte> {
    var end := Min(start + len, |s|);
    s[Min(start, end)..end]
  }

  lemma {:induction false} RangeIsWindow(b: Block, start: nat, len: nat)
    requires ValidBlock(b)
    ensures Range(b, start, len)
         == match Payload(b) case Ok(whole) => Ok(Window(whole, start, len)) case Err(e) => Err(e)
  {
    if !b.main.compressed && b.invalidation.None? && start >= b.main.originalSize {
      assert Window(b.main.bytes, start, len) == [];
    }
  }

  /** It has every byte that is there, up to the length asked for, and each is the one at its place. */
  lemma {:induction false} RangeBytes(b: Block, start: nat, len: nat, k: nat)
    requires ValidBlock(b) && Payload(b).Ok?
    ensures Range(b, start, len).Ok?
    ensures k < |Range(b, start, len).value| <==> k < len && start + k < |Payload(b).value|
    ensures k < |Range(b, start, len).value| ==> Range(b, start, len).value[k] == Payload(b).value[start + k]
  {
    hide Payload, Range;
    RangeIsWindow(b, start, len);
  }
}
