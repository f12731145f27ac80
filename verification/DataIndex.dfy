/** The block index of src/data_index.rs and the range read over it in src/file.rs. */
module DataIndex {
  import opened Bytes
  import opened Options
  import opened DataBlocks

  function TotalSize(blocks: seq<Block>): nat {
    if blocks == [] then 0 else TotalSize(blocks[..|blocks| - 1]) + EffectiveSize(blocks[|blocks| - 1])
  }

  lemma {:induction false} TotalGrows(blocks: seq<Block>, i: nat, j: nat)
    requires i < j <= |blocks|
    ensures TotalSize(blocks[..i]) + EffectiveSize(blocks[i]) <= TotalSize(blocks[..j])
  {
    assert blocks[..j][..j - 1] == blocks[..j - 1];
    if i < j - 1 { TotalGrows(blocks, i, j - 1); }
  }

  /** Where `slice::binary_search` may say `target` is: any of several equal entries, or where it would go. */
  datatype Search = Hit(index: nat) | Miss(index: nat)

  ghost predicate MayFind(offsets: seq<nat>, target: nat, s: Search) {
    match s
    case Hit(i) => i < |offsets| && offsets[i] == target
    case Miss(i) =>
      && i <= |offsets|
      && (forall k :: 0 <= k < i ==> offsets[k] < target)
      && (forall k :: i <= k < |offsets| ==> offsets[k] > target)
  }

  predicate Sorted(offsets: seq<nat>) {
    forall i, j :: 0 <= i <= j < |offsets| ==> offsets[i] <= offsets[j]
  }

  /** `slice::binary_search`, of which only its documentation is known. */
  type SearchFn = (seq<nat>, nat) -> Search

  ghost predicate Library(find: SearchFn) {
    forall offsets: seq<nat>, target: nat :: Sorted(offsets) ==> MayFind(offsets, target, find(offsets, target))
  }

  predicate Between(offsets: seq<nat>, target: nat, lo: nat, hi: nat)
    requires lo <= hi <= |offsets|
  {
    (forall k :: 0 <= k < lo ==> offsets[k] < target) && (forall k :: hi <= k < |offsets| ==> offsets[k] > target)
  }

  /** One such search: bisection between `lo` and `hi`. */
  function Bisect(offsets: seq<nat>, target: nat, lo: nat, hi: nat): (s: Search)
    requires lo <= hi <= |offsets|
    ensures Sorted(offsets) && Between(offsets, target, lo, hi) ==> MayFind(offsets, target, s)
    decreases hi - lo
  {
    if lo == hi then Miss(lo) else
      var mid := (lo + hi) / 2;
      if offsets[mid] == target then Hit(mid)
      else if offsets[mid] < target then Bisect(offsets, target, mid + 1, hi)
      else Bisect(offsets, target, lo, mid)
  }

  function Bisection(): SearchFn {
    (offsets: seq<nat>, target: nat) => Bisect(offsets, target, 0, |offsets|)
  }

  lemma {:induction false} BisectionServes()
    ensures Library(Bisection())
  {
  }

  method BinarySearch(offsets: seq<nat>, target: nat) returns (s: Search)
    requires Sorted(offsets)
    ensures MayFind(offsets, target, s) && s == Bisection()(offsets, target)
  {
    var lo, hi := 0, |offsets|;
    while lo < hi
      invariant 0 <= lo <= hi <= |offsets|
      invariant forall k :: 0 <= k < lo ==> offsets[k] < target
      invariant forall k :: hi <= k < |offsets| ==> offsets[k] > target
      invariant Bisection()(offsets, target) == Bisect(offsets, target, lo, hi)
    {
      var mid := (lo + hi) / 2;
      if offsets[mid] == target { return Hit(mid); }
      if offsets[mid] < target { lo := mid + 1; } else { hi := mid; }
    }
    s := Miss(lo);
  }

  /** The block `block_for_offset` settles on. */
  function Chosen(s: Search): nat {
    match s
    case Hit(i) => i
    case Miss(i) => if i == 0 then 0 else i - 1
  }

  class DataBlockIndex {
    var blocks: seq<Block>
    var cumulativeOffsets: seq<nat>
    var totalSize: nat

    ghost predicate Valid()
      reads this
    {
      && |cumulativeOffsets| == |blocks| && totalSize == TotalSize(blocks)
      && forall i :: 0 <= i < |blocks| ==> cumulativeOffsets[i] == TotalSize(blocks[..i])
    }

    constructor ()
      ensures Valid() && blocks == []
    {
      blocks, cumulativeOffsets, totalSize := [], [], 0;
    }

    method Push(info: Block)
      requires Valid()
      modifies this
      ensures Valid() && blocks == old(blocks) + [info]
      ensures totalSize == old(totalSize) + EffectiveSize(info)
    {
      assert (blocks + [info])[..|blocks|] == blocks;
      assert forall i :: 0 <= i < |blocks| ==> (blocks + [info])[..i] == blocks[..i];
      cumulativeOffsets := cumulativeOffsets + [totalSize];
      totalSize := totalSize + EffectiveSize(info);
      blocks := blocks + [info];
    }

    /** The block a byte of the stream is in, and how far into it: the one the search settles on, which holds the byte
        unless it is empty. */
    method BlockForOffset(find: SearchFn, global: nat) returns (r: Option<(nat, nat)>)
      requires Valid() && Library(find)
      ensures r.None? <==> global >= totalSize
      ensures r.Some? ==> r.value.0 == Landing(blocks, find, global) < |blocks| && TotalSize(blocks[..r.value.0]) + r.value.1 == global
      ensures r.Some? ==> r.value.1 < EffectiveSize(blocks[r.value.0]) || r.value.1 == EffectiveSize(blocks[r.value.0]) == 0
    {
      if global >= totalSize { return None; }
      assert cumulativeOffsets == Offsets(blocks);
      LandingHolds(blocks, find, global);
      var index := Chosen(find(cumulativeOffsets, global));
      r := Some((index, global - cumulativeOffsets[index]));
    }
  }

  /** The offsets an index of these blocks holds. */
  function Offsets(blocks: seq<Block>): (offsets: seq<nat>)
    ensures AreOffsets(blocks, offsets)
  {
    seq(|blocks|, i requires 0 <= i < |blocks| => TotalSize(blocks[..i]))
  }

  /** The block a search of the index settles on. */
  function Landing(blocks: seq<Block>, find: SearchFn, global: nat): nat {
    Chosen(find(Offsets(blocks), global))
  }

  lemma {:induction false} LandingHolds(blocks: seq<Block>, find: SearchFn, global: nat)
    requires Library(find) && global < TotalSize(blocks)
    ensures var i := Landing(blocks, find, global);
            && i < |blocks| && TotalSize(blocks[..i]) <= global
            && (global < TotalSize(blocks[..i]) + EffectiveSize(blocks[i])
                || (EffectiveSize(blocks[i]) == 0 && TotalSize(blocks[..i]) == global))
  {
    OffsetsSorted(blocks, Offsets(blocks));
    ChosenHolds(blocks, Offsets(blocks), global, find(Offsets(blocks), global));
  }

  predicate AreOffsets(blocks: seq<Block>, offsets: seq<nat>) {
    |offsets| == |blocks| && forall i :: 0 <= i < |blocks| ==> offsets[i] == TotalSize(blocks[..i])
  }

  /** No empty block has a byte of the stream behind it. */
  predicate NoEmptyBlocks(blocks: seq<Block>) {
    forall i :: 0 <= i < |blocks| && TotalSize(blocks[..i]) < TotalSize(blocks) ==> EffectiveSize(blocks[i]) > 0
  }

  lemma {:induction false} OffsetsSorted(blocks: seq<Block>, offsets: seq<nat>)
    requires AreOffsets(blocks, offsets)
    ensures Sorted(offsets)
  {
    forall i, j | 0 <= i <= j < |offsets| ensures offsets[i] <= offsets[j] {
      if i < j { TotalGrows(blocks, i, j); }
    }
  }

  lemma {:induction false} ChosenHolds(blocks: seq<Block>, offsets: seq<nat>, global: nat, s: Search)
    requires AreOffsets(blocks, offsets) && global < TotalSize(blocks) && MayFind(offsets, global, s)
    ensures Chosen(s) < |blocks| && offsets[Chosen(s)] <= global
    ensures global < offsets[Chosen(s)] + EffectiveSize(blocks[Chosen(s)])
         || (EffectiveSize(blocks[Chosen(s)]) == 0 && offsets[Chosen(s)] == global)
    ensures NoEmptyBlocks(blocks) ==> global < offsets[Chosen(s)] + EffectiveSize(blocks[Chosen(s)])
  {
    assert blocks != [];
    assert blocks[..0] == [] && offsets[0] == 0;
    var i := Chosen(s);
    assert blocks[..|blocks|] == blocks;
    if i + 1 < |blocks| { assert blocks[..i + 1][..i] == blocks[..i]; } else { assert blocks[..i] == blocks[..|blocks| - 1]; }
    if NoEmptyBlocks(blocks) && s.Hit? {
      assert EffectiveSize(blocks[i]) > 0;
    }
  }

  /** The block holds byte `global` of the stream. */
  ghost predicate HoldsByte(blocks: seq<Block>, i: nat, global: nat) {
    i < |blocks| && TotalSize(blocks[..i]) <= global < TotalSize(blocks[..i]) + EffectiveSize(blocks[i])
  }

  ghost predicate AlwaysFindsByte(blocks: seq<Block>, offsets: seq<nat>) {
    forall global: nat, s :: global < TotalSize(blocks) && MayFind(offsets, global, s) ==> HoldsByte(blocks, Chosen(s), global)
  }

  /** Whatever the search returns, the lookup finds the byte: exactly when no empty block has bytes behind it. */
  lemma {:induction false} LookupWorksExactly(blocks: seq<Block>, offsets: seq<nat>)
    requires AreOffsets(blocks, offsets)
    ensures AlwaysFindsByte(blocks, offsets) <==> NoEmptyBlocks(blocks)
  {
    if NoEmptyBlocks(blocks) {
      forall global: nat, s | global < TotalSize(blocks) && MayFind(offsets, global, s)
        ensures HoldsByte(blocks, Chosen(s), global)
      {
        ChosenHolds(blocks, offsets, global, s);
      }
    } else {
      var i :| 0 <= i < |blocks| && TotalSize(blocks[..i]) < TotalSize(blocks) && EffectiveSize(blocks[i]) == 0;
      assert MayFind(offsets, offsets[i], Hit(i));
      assert !HoldsByte(blocks, Chosen(Hit(i)), offsets[i]);
    }
  }

  // ---------------------------------------------------------------- the range read

  ghost predicate Readable(blocks: seq<Block>) {
    forall i :: 0 <= i < |blocks| ==>
      ValidBlock(blocks[i]) && Payload(blocks[i]).Ok? && |Payload(blocks[i]).value| == EffectiveSize(blocks[i])
  }

  ghost function Payloads(blocks: seq<Block>): (parts: seq<seq<byte>>)
    requires Readable(blocks)
    ensures |parts| == |blocks|
  {
    seq(|blocks|, i requires 0 <= i < |blocks| => Payload(blocks[i]).value)
  }

  /** The conceptual stream the index addresses. */
  ghost function Stream(blocks: seq<Block>): seq<byte>
    requires Readable(blocks)
  {
    Flatten(Payloads(blocks))
  }

  lemma {:induction false} StreamLength(blocks: seq<Block>, i: nat)
    requires Readable(blocks) && i <= |blocks|
    ensures |Flatten(Payloads(blocks)[..i])| == TotalSize(blocks[..i])
  {
    if i > 0 {
      StreamLength(blocks, i - 1);
      FlattenNext(Payloads(blocks), i - 1);
      assert blocks[..i][..i - 1] == blocks[..i - 1];
    }
  }

  /** Bytes of the stream that lie in block `i`, read from that block. */
  lemma {:induction false} ReadInBlock(blocks: seq<Block>, i: nat, local: nat, n: nat)
    requires Readable(blocks) && i < |blocks| && local + n <= EffectiveSize(blocks[i])
    ensures TotalSize(blocks[..i]) + EffectiveSize(blocks[i]) <= |Stream(blocks)| == TotalSize(blocks)
    ensures Range(blocks[i], local, n)
         == Ok(Stream(blocks)[TotalSize(blocks[..i]) + local..TotalSize(blocks[..i]) + local + n])
  {
    var parts, at := Payloads(blocks), TotalSize(blocks[..i]);
    StreamLength(blocks, i);
    PartAt(parts, i, at, |parts[i]|);
    WholeStream(blocks);
    RangeIsWindow(blocks[i], local, n);
    SliceOfSlice(Stream(blocks), at, parts[i], local, n);
  }

  lemma {:induction false} WholeStream(blocks: seq<Block>)
    requires Readable(blocks)
    ensures |Stream(blocks)| == TotalSize(blocks)
  {
    StreamLength(blocks, |blocks|);
    assert blocks[..|blocks|] == blocks && Payloads(blocks)[..|blocks|] == Payloads(blocks);
  }

  predicate AllValid(blocks: seq<Block>) {
    forall i :: 0 <= i < |blocks| ==> ValidBlock(blocks[i])
  }

  /** One turn of the range read: what the block the search settles on gives from `current` on, up to `end`. */
  function PieceAt(blocks: seq<Block>, find: SearchFn, current: nat, end: nat): (r: Result<seq<byte>, ReadError>)
    requires AllValid(blocks) && Library(find) && current < end <= TotalSize(blocks)
    ensures r.Ok? ==> current + |r.value| <= end
  {
    LandingHolds(blocks, find, current);
    var i := Landing(blocks, find, current);
    var local := current - TotalSize(blocks[..i]);
    RangeIsWindow(blocks[i], local, Min(EffectiveSize(blocks[i]) - local, end - current));
    Range(blocks[i], local, Min(EffectiveSize(blocks[i]) - local, end - current))
  }

  /** The pieces from `current` on: up to `end`, to an error, or to the first piece that is empty. */
  function ReadFrom(blocks: seq<Block>, find: SearchFn, current: nat, end: nat): Result<seq<byte>, ReadError>
    requires AllValid(blocks) && Library(find) && current <= end <= TotalSize(blocks)
    decreases end - current
  {
    if current == end then Ok([]) else
      match PieceAt(blocks, find, current, end)
      case Err(e) => Err(e)
      case Ok(piece) =>
        if piece == [] then Ok([]) else
          match ReadFrom(blocks, find, current + |piece|, end)
          case Err(e) => Err(e)
          case Ok(rest) => Ok(piece + rest)
  }

  function ReadRange(blocks: seq<Block>, find: SearchFn, start: nat, len: nat): Result<seq<byte>, ReadError>
    requires AllValid(blocks) && Library(find)
  {
    if len == 0 || start >= TotalSize(blocks) then Ok([])
    else ReadFrom(blocks, find, start, Min(start + len, TotalSize(blocks)))
  }

  method ReadPiece(index: DataBlockIndex, find: SearchFn, current: nat, end: nat) returns (r: Result<seq<byte>, ReadError>)
    requires index.Valid() && AllValid(index.blocks) && Library(find) && current < end <= index.totalSize
    ensures r == PieceAt(index.blocks, find, current, end)
  {
    var found := index.BlockForOffset(find, current);
    var (i, local) := found.value;
    r := Range(index.blocks[i], local, Min(EffectiveSize(index.blocks[i]) - local, end - current));
  }

  /** `read_data_index_range`, over any index and whatever the search returns. */
  method ReadDataIndexRange(index: DataBlockIndex, find: SearchFn, start: nat, len: nat) returns (r: Result<seq<byte>, ReadError>)
    requires index.Valid() && AllValid(index.blocks) && Library(find)
    ensures r == ReadRange(index.blocks, find, start, len)
    ensures Readable(index.blocks) && NoEmptyBlocks(index.blocks) ==> r == Ok(Window(Stream(index.blocks), start, len))
  {
    hide PieceAt, NoEmptyBlocks, Readable, Stream, Window, Library, AllValid, ReadFrom;
    if Readable(index.blocks) && NoEmptyBlocks(index.blocks) { SliceWithoutEmptyBlocks(index.blocks, find, start, len); }
    if len == 0 || start >= index.totalSize { return Ok([]); }
    var end := Min(start + len, index.totalSize);
    var out: seq<byte>, current := [], start;
    NothingBefore(ReadFrom(index.blocks, find, start, end));
    while current < end
      invariant start <= current <= end
      invariant ReadRange(index.blocks, find, start, len) == Before(out, ReadFrom(index.blocks, find, current, end))
    {
      var piece := ReadPiece(index, find, current, end);
      OneMorePiece(index.blocks, find, current, end, out);
      if piece.Err? { return piece; }
      if piece.value == [] { break; }
      out := out + piece.value;
      current := current + |piece.value|;
    }
    if current == end { NothingBehind(index.blocks, find, end, out); }
    r := Ok(out);
  }

  function Before(out: seq<byte>, rest: Result<seq<byte>, ReadError>): Result<seq<byte>, ReadError> {
    match rest
    case Err(e) => Err(e)
    case Ok(more) => Ok(out + more)
  }

  lemma {:induction false} NothingBefore(rest: Result<seq<byte>, ReadError>)
    ensures Before([], rest) == rest
  {
    if rest.Ok? { assert [] + rest.value == rest.value; }
  }

  lemma {:induction false} NothingBehind(blocks: seq<Block>, find: SearchFn, end: nat, out: seq<byte>)
    requires AllValid(blocks) && Library(find) && end <= TotalSize(blocks)
    ensures Before(out, ReadFrom(blocks, find, end, end)) == Ok(out)
  {
    assert out + [] == out;
  }

  lemma {:induction false} OneMorePiece(blocks: seq<Block>, find: SearchFn, current: nat, end: nat, out: seq<byte>)
    requires AllValid(blocks) && Library(find) && current < end <= TotalSize(blocks)
    ensures Before(out, ReadFrom(blocks, find, current, end))
         == match PieceAt(blocks, find, current, end)
            case Err(e) => Err(e)
            case Ok(piece) => if piece == [] then Ok(out) else Before(out + piece, ReadFrom(blocks, find, current + |piece|, end))
  {
    hide PieceAt, AllValid, Library;
    var piece := PieceAt(blocks, find, current, end);
    assert out + [] == out;
    if piece.Ok? && piece.value != [] {
      var rest := ReadFrom(blocks, find, current + |piece.value|, end);
      if rest.Ok? { assert out + piece.value + rest.value == out + (piece.value + rest.value); }
    }
  }

  // ---------------------------------------------------------------- when a range is the slice

  /** No search for a byte of the stream settles on an empty block. */
  ghost predicate NeverLandsEmpty(blocks: seq<Block>, find: SearchFn) {
    forall t: nat :: t < TotalSize(blocks) && Landing(blocks, find, t) < |blocks| ==> EffectiveSize(blocks[Landing(blocks, find, t)]) > 0
  }

  ghost predicate ReadsSlices(blocks: seq<Block>, find: SearchFn)
    requires AllValid(blocks) && Readable(blocks) && Library(find)
  {
    forall start: nat, len: nat :: ReadRange(blocks, find, start, len) == Ok(Window(Stream(blocks), start, len))
  }

  lemma {:induction false} PieceIsSlice(blocks: seq<Block>, find: SearchFn, current: nat, end: nat)
    requires AllValid(blocks) && Readable(blocks) && Library(find) && current < end <= TotalSize(blocks)
    ensures |Stream(blocks)| == TotalSize(blocks)
    ensures var i := Landing(blocks, find, current);
            && i < |blocks| && PieceAt(blocks, find, current, end).Ok?
            && var piece := PieceAt(blocks, find, current, end).value;
               && (piece == [] <==> EffectiveSize(blocks[i]) == 0)
               && piece == Stream(blocks)[current..current + |piece|]
  {
    hide Range, Readable;
    LandingHolds(blocks, find, current);
    var i := Landing(blocks, find, current);
    var local := current - TotalSize(blocks[..i]);
    ReadInBlock(blocks, i, local, Min(EffectiveSize(blocks[i]) - local, end - current));
  }

  lemma {:induction false} PiecesMakeSlice(blocks: seq<Block>, find: SearchFn, current: nat, end: nat)
    requires AllValid(blocks) && Readable(blocks) && Library(find) && current <= end <= TotalSize(blocks)
    requires NeverLandsEmpty(blocks, find)
    ensures |Stream(blocks)| == TotalSize(blocks)
    ensures ReadFrom(blocks, find, current, end) == Ok(Stream(blocks)[current..end])
    decreases end - current
  {
    hide PieceAt, Landing, Stream, Readable;
    WholeStream(blocks);
    if current < end {
      PieceIsSlice(blocks, find, current, end);
      var piece := PieceAt(blocks, find, current, end).value;
      var next := current + |piece|;
      PiecesMakeSlice(blocks, find, next, end);
      assert Stream(blocks)[current..end] == Stream(blocks)[current..next] + Stream(blocks)[next..end];
      assert ReadFrom(blocks, find, current, end) == Ok(piece + Stream(blocks)[next..end]);
    } else {
      assert Stream(blocks)[current..end] == [];
    }
  }

  /** For any one search: every range read is the slice exactly when the search never settles on an empty block. */
  lemma {:induction false} SlicesExactly(blocks: seq<Block>, find: SearchFn)
    requires AllValid(blocks) && Readable(blocks) && Library(find)
    ensures ReadsSlices(blocks, find) <==> NeverLandsEmpty(blocks, find)
  {
    hide Stream, Readable, PieceAt, AllValid, Library;
    WholeStream(blocks);
    if NeverLandsEmpty(blocks, find) {
      forall start: nat, len: nat ensures ReadRange(blocks, find, start, len) == Ok(Window(Stream(blocks), start, len)) {
        if len != 0 && start < TotalSize(blocks) {
          PiecesMakeSlice(blocks, find, start, Min(start + len, TotalSize(blocks)));
        } else {
          assert Window(Stream(blocks), start, len) == [];
        }
      }
    } else {
      var t: nat :| t < TotalSize(blocks) && Landing(blocks, find, t) < |blocks| && EffectiveSize(blocks[Landing(blocks, find, t)]) == 0;
      StopsAt(blocks, find, t);
    }
  }

  /** A read of one byte that the search looks for in an empty block returns nothing. */
  lemma {:induction false} StopsAt(blocks: seq<Block>, find: SearchFn, t: nat)
    requires AllValid(blocks) && Readable(blocks) && Library(find)
    requires t < TotalSize(blocks) && Landing(blocks, find, t) < |blocks| && EffectiveSize(blocks[Landing(blocks, find, t)]) == 0
    ensures ReadRange(blocks, find, t, 1) == Ok([]) && Window(Stream(blocks), t, 1) != []
  {
    hide Stream, Readable, PieceAt, AllValid, Library;
    WholeStream(blocks);
    PieceIsSlice(blocks, find, t, t + 1);
  }

  lemma {:induction false} SliceWithoutEmptyBlocks(blocks: seq<Block>, find: SearchFn, start: nat, len: nat)
    requires AllValid(blocks) && Readable(blocks) && Library(find) && NoEmptyBlocks(blocks)
    ensures ReadRange(blocks, find, start, len) == Ok(Window(Stream(blocks), start, len))
  {
    hide Stream, Readable, ReadRange, AllValid, Library;
    NeverLandsThere(blocks, find);
    SlicesExactly(blocks, find);
  }

  lemma {:induction false} NeverLandsThere(blocks: seq<Block>, find: SearchFn)
    requires Library(find) && NoEmptyBlocks(blocks)
    ensures NeverLandsEmpty(blocks, find)
  {
    hide Landing, Library;
    forall t: nat | t < TotalSize(blocks) && Landing(blocks, find, t) < |blocks|
      ensures EffectiveSize(blocks[Landing(blocks, find, t)]) > 0
    {
      LandingHolds(blocks, find, t);
    }
  }

  /** A permitted search that settles on block `i` where block `i` begins. */
  function Contrary(blocks: seq<Block>, i: nat): SearchFn
    requires i < |blocks|
  {
    (offsets: seq<nat>, target: nat) =>
      if offsets == Offsets(blocks) && target == TotalSize(blocks[..i]) then Hit(i) else Bisect(offsets, target, 0, |offsets|)
  }

  lemma {:induction false} ContraryServes(blocks: seq<Block>, i: nat)
    requires i < |blocks|
    ensures Library(Contrary(blocks, i)) && Landing(blocks, Contrary(blocks, i), TotalSize(blocks[..i])) == i
  {
    hide Bisect;
    var find := Contrary(blocks, i);
    forall offsets: seq<nat>, target: nat | Sorted(offsets) ensures MayFind(offsets, target, find(offsets, target)) {
      if offsets != Offsets(blocks) || target != TotalSize(blocks[..i]) {
        assert find(offsets, target) == Bisect(offsets, target, 0, |offsets|);
      }
    }
  }

  /** Every range read is the slice, whatever the search returns, exactly when no empty block has bytes behind it. */
  lemma {:induction false} RangeReadsExactly(blocks: seq<Block>)
    requires AllValid(blocks) && Readable(blocks)
    ensures (forall find: SearchFn :: Library(find) ==> ReadsSlices(blocks, find)) <==> NoEmptyBlocks(blocks)
  {
    hide Readable, AllValid, Library, ReadsSlices;
    if NoEmptyBlocks(blocks) {
      forall find: SearchFn | Library(find) ensures ReadsSlices(blocks, find) {
        NeverLandsThere(blocks, find);
        SlicesExactly(blocks, find);
      }
    } else {
      var i :| 0 <= i < |blocks| && TotalSize(blocks[..i]) < TotalSize(blocks) && EffectiveSize(blocks[i]) == 0;
      ContraryServes(blocks, i);
      SlicesExactly(blocks, Contrary(blocks, i));
      assert !NeverLandsEmpty(blocks, Contrary(blocks, i));
    }
  }

  /** An empty block before a block of one byte: a search may settle on the first, and the read of the byte returns none. */
  lemma {:induction false} EmptyBlockStopsRead() returns (blocks: seq<Block>, find: SearchFn)
    ensures AllValid(blocks) && Readable(blocks) && Library(find)
    ensures Stream(blocks) == [7] && ReadRange(blocks, find, 0, 1) == Ok([])
  {
    var empty, one := Block(Piece([], 0, false), None, 0, 0), Block(Piece([7], 1, false), None, 0, 0);
    blocks := [empty, one];
    find := Contrary(blocks, 0);
    ContraryServes(blocks, 0);
    assert blocks[..0] == [] && blocks[..1] == [empty] && [empty][..0] == [];
    assert TotalSize(blocks) == 1;
    var parts := Payloads(blocks);
    var none: seq<byte> := [];
    assert parts == [none, [7]] && parts[..1] == [none] && Flatten(parts[..1]) == Flatten(parts[..1][..0]) + none;
    StopsAt(blocks, find, 0);
  }
}
