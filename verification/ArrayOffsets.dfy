/** Byte offsets of the elements of nested arrays: `resolve_ca_chain` (src/file.rs) and `row_major_to_stored`
    (src/model/signal.rs). */
module ArrayOffsets {
  import opened Arithmetic
  import opened Bytes
  import opened Options

  const MAX_COMPOSITION_DEPTH: nat := 32

  // ---------------------------------------------------------------- positions and indices

  function Product(dims: seq<nat>): nat {
    if dims == [] then 1 else Product(dims[..|dims| - 1]) * dims[|dims| - 1]
  }

  /** One index for each dimension, inside it. */
  ghost predicate IndexOf(index: seq<nat>, dims: seq<nat>) {
    |index| == |dims| && forall j :: 0 <= j < |dims| ==> index[j] < dims[j]
  }

  /** Position of an element when the last dimension varies fastest. */
  function RowMajor(dims: seq<nat>, index: seq<nat>): nat
    requires |index| == |dims|
  {
    if dims == [] then 0 else
      var n := |dims| - 1;
      RowMajor(dims[..n], index[..n]) * dims[n] + index[n]
  }

  /** Position of an element when the first dimension varies fastest. */
  function ColumnMajor(dims: seq<nat>, index: seq<nat>): nat
    requires |index| == |dims|
  {
    if dims == [] then 0 else
      var n := |dims| - 1;
      ColumnMajor(dims[..n], index[..n]) + index[n] * Product(dims[..n])
  }

  lemma {:induction false} RowMajorBound(dims: seq<nat>, index: seq<nat>)
    requires IndexOf(index, dims)
    ensures RowMajor(dims, index) < Product(dims)
  {
    if dims != [] {
      var n := |dims| - 1;
      RowMajorBound(dims[..n], index[..n]);
      var q, p, d := RowMajor(dims[..n], index[..n]), Product(dims[..n]), dims[n];
      MulLess(q, p, d);
    }
  }

  lemma {:induction false} ColumnMajorBound(dims: seq<nat>, index: seq<nat>)
    requires IndexOf(index, dims)
    ensures ColumnMajor(dims, index) < Product(dims)
  {
    if dims != [] {
      var n := |dims| - 1;
      ColumnMajorBound(dims[..n], index[..n]);
      var c, p, d := ColumnMajor(dims[..n], index[..n]), Product(dims[..n]), dims[n];
      MulLess(index[n], d, p);
      assert d * p == p * d;
    }
  }

  lemma {:induction false} ProductAppend(a: seq<nat>, b: seq<nat>)
    ensures Product(a + b) == Product(a) * Product(b)
  {
    if b == [] {
      assert a + b == a;
    } else {
      var n := |b| - 1;
      assert (a + b)[..|a + b| - 1] == a + b[..n];
      ProductAppend(a, b[..n]);
      assert Product(a) * Product(b[..n]) * b[n] == Product(a) * (Product(b[..n]) * b[n]);
    }
  }

  /** Inner dimensions vary faster than outer ones. */
  lemma {:induction false} RowMajorAppend(a: seq<nat>, b: seq<nat>, i: seq<nat>, j: seq<nat>)
    requires |i| == |a| && |j| == |b|
    ensures RowMajor(a + b, i + j) == RowMajor(a, i) * Product(b) + RowMajor(b, j)
  {
    if b == [] {
      assert a + b == a && i + j == i;
    } else {
      var n := |b| - 1;
      assert (a + b)[..|a + b| - 1] == a + b[..n] && (i + j)[..|a + b| - 1] == i + j[..n];
      RowMajorAppend(a, b[..n], i, j[..n]);
      Spread(RowMajor(a, i), Product(b[..n]), RowMajor(b[..n], j[..n]), b[n]);
    }
  }

  lemma {:induction false} Spread(q: nat, p: nat, r: nat, d: nat)
    ensures (q * p + r) * d == q * (p * d) + r * d
  {
    assert (q * p + r) * d == q * p * d + r * d;
    assert q * p * d == q * (p * d);
  }

  // ---------------------------------------------------------------- one level, stored column by column

  function AtLeastOne(d: nat): (r: nat)
    ensures r > 0
  {
    if d == 0 then 1 else d
  }

  /** Where position `k` of a row-major array sits when the array is stored with its first dimension fastest. */
  function Stored(dims: seq<nat>, k: nat): nat {
    if dims == [] then 0 else
      var n := |dims| - 1;
      Stored(dims[..n], k / AtLeastOne(dims[n])) + k % AtLeastOne(dims[n]) * Product(dims[..n])
  }

  /** The stored position of an element is its column-major position. */
  lemma {:induction false} StoredIsColumnMajor(dims: seq<nat>, index: seq<nat>)
    requires IndexOf(index, dims)
    ensures Stored(dims, RowMajor(dims, index)) == ColumnMajor(dims, index)
  {
    if dims != [] {
      var n := |dims| - 1;
      StoredIsColumnMajor(dims[..n], index[..n]);
      DivUnique(RowMajor(dims, index), dims[n], RowMajor(dims[..n], index[..n]), index[n]);
    }
  }

  /** The index of the element at a row-major position. */
  ghost function IndexAt(dims: seq<nat>, k: nat): (index: seq<nat>)
    requires k < Product(dims)
    ensures IndexOf(index, dims) && RowMajor(dims, index) == k
  {
    if dims == [] then [] else
      var n := |dims| - 1;
      var d := dims[n];
      InnermostPart(k, Product(dims[..n]), d);
      var outer := IndexAt(dims[..n], k / d);
      var index := outer + [k % d];
      assert index[..n] == outer;
      index
  }

  lemma {:induction false} InnermostPart(k: nat, p: nat, d: nat)
    requires k < p * d
    ensures d > 0 && k / d < p && k == k / d * d + k % d
  {
    Positive(k, p, d);
    var q := k / d;
    assert k == q * d + k % d;
    if q > p { MulLess(p, q, d); }
  }

  lemma {:induction false} Positive(k: nat, p: nat, d: nat)
    requires k < p * d
    ensures d > 0
  {
  }

  /** No two elements share a column-major position. */
  lemma {:induction false} ColumnMajorUnique(dims: seq<nat>, i: seq<nat>, j: seq<nat>)
    requires IndexOf(i, dims) && IndexOf(j, dims) && ColumnMajor(dims, i) == ColumnMajor(dims, j)
    ensures i == j
  {
    if dims != [] {
      var n := |dims| - 1;
      var p := Product(dims[..n]);
      var ci, cj := ColumnMajor(dims[..n], i[..n]), ColumnMajor(dims[..n], j[..n]);
      ColumnMajorBound(dims[..n], i[..n]);
      ColumnMajorBound(dims[..n], j[..n]);
      DivUnique(ColumnMajor(dims, i), p, i[n], ci);
      DivUnique(ColumnMajor(dims, j), p, j[n], cj);
      ColumnMajorUnique(dims[..n], i[..n], j[..n]);
      assert i == i[..n] + [i[n]] && j == j[..n] + [j[n]];
    }
  }

  /** Storing by columns permutes the positions: it stays among them and no two meet. */
  lemma {:induction false} StoredPermutes(dims: seq<nat>, k: nat, l: nat)
    requires k < Product(dims) && l < Product(dims)
    ensures Stored(dims, k) < Product(dims)
    ensures Stored(dims, k) == Stored(dims, l) ==> k == l
  {
    var i, j := IndexAt(dims, k), IndexAt(dims, l);
    StoredIsColumnMajor(dims, i);
    StoredIsColumnMajor(dims, j);
    ColumnMajorBound(dims, i);
    if Stored(dims, k) == Stored(dims, l) { ColumnMajorUnique(dims, i, j); }
  }

  /** A product that sticks at the largest `usize`. */
  function Sticking(dims: seq<nat>): (n: nat)
    ensures n < U64_LIMIT
  {
    if dims == [] then 1 else
      var product := Sticking(dims[..|dims| - 1]) * dims[|dims| - 1];
      if product < U64_LIMIT then product else U64_LIMIT - 1
  }

  /** The strides of `row_major_to_stored`. */
  method StoredStrides(dims: seq<nat>) returns (strides: seq<nat>)
    ensures |strides| == |dims|
    ensures forall j :: 0 <= j < |dims| ==> strides[j] == Sticking(dims[..j])
  {
    strides := [];
    var acc: nat := 1;
    for j := 0 to |dims|
      invariant |strides| == j && acc == Sticking(dims[..j])
      invariant forall i :: 0 <= i < j ==> strides[i] == Sticking(dims[..i])
    {
      strides := strides + [acc];
      assert dims[..j + 1][..j] == dims[..j];
      acc := if acc * dims[j] < U64_LIMIT then acc * dims[j] else U64_LIMIT - 1;
    }
  }

  /** No product of the first dimensions, up to `n` of them, runs over 64 bits. */
  ghost predicate PrefixesFit(dims: seq<nat>, n: nat)
    requires n <= |dims|
  {
    forall j :: 0 <= j <= n ==> Product(dims[..j]) < U64_LIMIT
  }

  lemma {:induction false} FitsBefore(dims: seq<nat>)
    requires dims != [] && PrefixesFit(dims, |dims|)
    ensures PrefixesFit(dims[..|dims| - 1], |dims| - 1) && Product(dims) < U64_LIMIT
  {
    var before := dims[..|dims| - 1];
    assert dims[..|dims|] == dims;
    forall j | 0 <= j <= |dims| - 1 ensures Product(before[..j]) < U64_LIMIT { assert before[..j] == dims[..j]; }
  }

  lemma {:induction false} StickingIsProduct(dims: seq<nat>)
    requires PrefixesFit(dims, |dims|)
    ensures Sticking(dims) == Product(dims)
  {
    if dims != [] {
      FitsBefore(dims);
      StickingIsProduct(dims[..|dims| - 1]);
    }
  }

  /** The position as the loop adds it up from the last dimension on, in 64 bits. */
  function StoredFrom(dims: seq<nat>, rem: nat, at: nat): nat {
    if dims == [] then at else
      var n := |dims| - 1;
      var d := AtLeastOne(dims[n]);
      StoredFrom(dims[..n], rem / d, Wrap(at + rem % d * Sticking(dims[..n])))
  }

  /** `row_major_to_stored`. */
  method RowMajorToStored(dims: seq<nat>, count: nat) returns (out: seq<nat>)
    ensures |out| == count && forall k :: 0 <= k < count ==> out[k] == StoredFrom(dims, k, 0)
    ensures PrefixesFit(dims, |dims|) ==> forall k :: 0 <= k < count ==> out[k] == Stored(dims, k)
  {
    hide StoredFrom;
    var strides := StoredStrides(dims);
    out := [];
    for k := 0 to count
      invariant |out| == k
      invariant forall i :: 0 <= i < k ==> out[i] == StoredFrom(dims, i, 0)
    {
      var at := StoredPosition(dims, strides, k);
      out := out + [at];
    }
    if PrefixesFit(dims, |dims|) {
      forall k | 0 <= k < count ensures out[k] == Stored(dims, k) { StoredWithoutWrap(dims, k); }
    }
  }

  method StoredPosition(dims: seq<nat>, strides: seq<nat>, k: nat) returns (at: nat)
    requires |strides| == |dims| && forall j :: 0 <= j < |dims| ==> strides[j] == Sticking(dims[..j])
    ensures at == StoredFrom(dims, k, 0)
  {
    hide StoredFrom, Wrap, Sticking, AtLeastOne;
    var rem := k;
    at := 0;
    assert dims[..|dims|] == dims;
    for j := |dims| downto 0
      invariant StoredFrom(dims[..j], rem, at) == StoredFrom(dims, k, 0)
    {
      assert dims[..j + 1][..j] == dims[..j];
      StoredStep(dims[..j + 1], rem, at);
      var d := AtLeastOne(dims[j]);
      at := Wrap(at + rem % d * strides[j]);
      rem := rem / d;
    }
    NothingStored(rem, at);
  }

  lemma {:induction false} StoredStep(dims: seq<nat>, rem: nat, at: nat)
    requires dims != []
    ensures var n := |dims| - 1;
            var d := AtLeastOne(dims[n]);
            StoredFrom(dims, rem, at) == StoredFrom(dims[..n], rem / d, Wrap(at + rem % d * Sticking(dims[..n])))
  {
  }

  lemma {:induction false} NothingStored(rem: nat, at: nat)
    ensures StoredFrom([], rem, at) == at
  {
  }

  /** A stored position is below the element count, or is a 64-bit number where there are no elements. */
  lemma {:induction false} StoredBound(dims: seq<nat>, k: nat)
    requires PrefixesFit(dims, |dims|)
    ensures Stored(dims, k) < U64_LIMIT && (Product(dims) > 0 ==> Stored(dims, k) < Product(dims))
  {
    if dims != [] {
      var n := |dims| - 1;
      var before, d, p := dims[..n], AtLeastOne(dims[n]), Product(dims[..n]);
      FitsBefore(dims);
      StoredBound(before, k / d);
      var digit := k % d;
      if p == 0 {
        assert digit * p == 0 && p * dims[n] == 0;
      } else if dims[n] == 0 {
        assert digit == 0 && digit * p == 0;
      } else {
        assert digit * p + p == (digit + 1) * p;
        if digit + 1 < d { MulLess(digit + 1, d, p); }
        assert d * p == p * dims[n];
      }
    }
  }

  lemma {:induction false} StoredFromAdds(dims: seq<nat>, rem: nat, at: nat)
    requires PrefixesFit(dims, |dims|)
    ensures StoredFrom(dims, rem, Wrap(at)) == Wrap(at + Stored(dims, rem))
  {
    hide Wrap, Sticking;
    if dims != [] {
      var n := |dims| - 1;
      var d := AtLeastOne(dims[n]);
      FitsBefore(dims);
      StickingIsProduct(dims[..n]);
      WrapAdds(at, rem % d * Product(dims[..n]));
      StoredFromAdds(dims[..n], rem / d, at + rem % d * Product(dims[..n]));
    }
  }

  lemma {:induction false} StoredWithoutWrap(dims: seq<nat>, k: nat)
    requires PrefixesFit(dims, |dims|)
    ensures StoredFrom(dims, k, 0) == Stored(dims, k)
  {
    StoredFromAdds(dims, k, 0);
    StoredBound(dims, k);
    WrapSmall(0);
    WrapSmall(Stored(dims, k));
  }

  // ---------------------------------------------------------------- 64-bit arithmetic

  /** What a `usize` keeps of a number. */
  function Wrap(n: nat): (r: nat)
    ensures r < U64_LIMIT
  {
    n % U64_LIMIT
  }

  lemma {:induction false} WrapSmall(n: nat)
    requires n < U64_LIMIT
    ensures Wrap(n) == n
  {
  }

  lemma {:induction false} WrapAdds(a: nat, b: nat)
    ensures Wrap(Wrap(a) + b) == Wrap(a + b) && Wrap(a + Wrap(b)) == Wrap(a + b)
  {
    LowPart(a, b);
    LowPart(b, a);
  }

  lemma {:induction false} LowPart(a: nat, b: nat)
    ensures (a % U64_LIMIT + b) % U64_LIMIT == (a + b) % U64_LIMIT
  {
    var m, q := U64_LIMIT, a / U64_LIMIT;
    var rest := a % m + b;
    assert a == q * m + a % m && rest == rest / m * m + rest % m;
    assert a + b == (q + rest / m) * m + rest % m;
    DivUnique(a + b, m, q + rest / m, rest % m);
  }

  // ---------------------------------------------------------------- levels of composition

  /** One array block of the chain: its dimensions, the stride it states, and whether it stores columns first. */
  datatype Level = Level(dims: seq<nat>, rawStride: int, inverse: bool)

  function LevelTotal(l: Level): nat {
    Product(l.dims)
  }

  function Stride(l: Level, elemWidth: nat): nat {
    if l.rawStride > 0 then l.rawStride else elemWidth
  }

  function StoredIn(l: Level, k: nat): nat {
    if l.inverse && |l.dims| > 1 then Stored(l.dims, k) else k
  }

  function Shape(levels: seq<Level>): seq<nat> {
    if levels == [] then [] else Shape(levels[..|levels| - 1]) + levels[|levels| - 1].dims
  }

  function StoredOffset(l: Level, elemWidth: nat, k: nat): nat {
    StoredIn(l, k) * Stride(l, elemWidth)
  }

  /** The byte offset of the element at row-major position `p` of the combined shape. */
  function OffsetAt(levels: seq<Level>, elemWidth: nat, p: nat): nat {
    if levels == [] then 0 else
      var before, last := levels[..|levels| - 1], levels[|levels| - 1];
      var n := AtLeastOne(LevelTotal(last));
      OffsetAt(before, elemWidth, p / n) + StoredOffset(last, elemWidth, p % n)
  }

  /** An index into every level, outermost first. */
  ghost predicate IndicesOf(indices: seq<seq<nat>>, levels: seq<Level>) {
    |indices| == |levels| && forall l :: 0 <= l < |levels| ==> IndexOf(indices[l], levels[l].dims)
  }

  function Joined(indices: seq<seq<nat>>): seq<nat> {
    if indices == [] then [] else Joined(indices[..|indices| - 1]) + indices[|indices| - 1]
  }

  /** Where a level holds one of its elements: by rows, or by columns when it says so. */
  function PositionIn(l: Level, index: seq<nat>): nat
    requires |index| == |l.dims|
  {
    if l.inverse then ColumnMajor(l.dims, index) else RowMajor(l.dims, index)
  }

  /** An element's place in its level, by the distance the block gives or, where it gives none, the element's width. */
  function OffsetIn(l: Level, elemWidth: nat, index: seq<nat>): nat
    requires |index| == |l.dims|
  {
    if l.rawStride <= 0 then PositionIn(l, index) * elemWidth else PositionIn(l, index) * l.rawStride
  }

  /** The sum, over the levels, of the stored position of the level's own index times the level's stride. */
  ghost function OffsetSum(levels: seq<Level>, elemWidth: nat, indices: seq<seq<nat>>): nat
    requires IndicesOf(indices, levels)
  {
    if levels == [] then 0 else
      var n := |levels| - 1;
      OffsetSum(levels[..n], elemWidth, indices[..n]) + OffsetIn(levels[n], elemWidth, indices[n])
  }

  lemma {:induction false} JoinedIndex(levels: seq<Level>, indices: seq<seq<nat>>)
    requires IndicesOf(indices, levels)
    ensures IndexOf(Joined(indices), Shape(levels))
  {
    if levels != [] { JoinedIndex(levels[..|levels| - 1], indices[..|levels| - 1]); }
  }

  lemma {:induction false} StoredInIsPosition(l: Level, index: seq<nat>)
    requires IndexOf(index, l.dims)
    ensures StoredIn(l, RowMajor(l.dims, index)) == PositionIn(l, index)
  {
    if l.inverse && |l.dims| > 1 {
      StoredIsColumnMajor(l.dims, index);
    } else if l.inverse {
      OneDimension(l.dims, index);
    }
  }

  lemma {:induction false} OneDimension(dims: seq<nat>, index: seq<nat>)
    requires |dims| <= 1 && |index| == |dims|
    ensures ColumnMajor(dims, index) == RowMajor(dims, index)
  {
    if |dims| == 1 {
      assert dims[..0] == [] && index[..0] == [];
      assert Product(dims[..0]) == 1;
      assert ColumnMajor(dims, index) == 0 + index[0] * 1;
      assert RowMajor(dims, index) == 0 * dims[0] + index[0];
    }
  }

  /** An element of the nested array, at its row-major place in the combined shape, lies at the sum over the levels of
      its stored place in the level times the level's stride. */
  lemma {:induction false} ElementOffset(levels: seq<Level>, elemWidth: nat, indices: seq<seq<nat>>)
    requires IndicesOf(indices, levels)
    ensures |Joined(indices)| == |Shape(levels)|
    ensures RowMajor(Shape(levels), Joined(indices)) < Product(Shape(levels))
    ensures OffsetAt(levels, elemWidth, RowMajor(Shape(levels), Joined(indices))) == OffsetSum(levels, elemWidth, indices)
  {
    JoinedIndex(levels, indices);
    RowMajorBound(Shape(levels), Joined(indices));
    if levels != [] {
      var n := |levels| - 1;
      var last := levels[n];
      ElementOffset(levels[..n], elemWidth, indices[..n]);
      JoinedIndex(levels[..n], indices[..n]);
      RowMajorAppend(Shape(levels[..n]), last.dims, Joined(indices[..n]), indices[n]);
      RowMajorBound(last.dims, indices[n]);
      DivUnique(RowMajor(Shape(levels), Joined(indices)), LevelTotal(last),
                RowMajor(Shape(levels[..n]), Joined(indices[..n])), RowMajor(last.dims, indices[n]));
      StoredInIsPosition(last, indices[n]);
    }
  }

  // ---------------------------------------------------------------- the loops

  datatype ArrayError = SizeOverflow | ReadFailed

  /** The element count, multiplied up with a check. */
  method CheckedTotal(dims: seq<nat>) returns (r: Result<nat, ArrayError>)
    ensures r.Ok? <==> PrefixesFit(dims, |dims|)
    ensures r.Ok? ==> r.value == Product(dims)
    ensures r.Err? ==> r.error == SizeOverflow
  {
    var acc := 1;
    for j := 0 to |dims|
      invariant acc == Product(dims[..j]) && PrefixesFit(dims, j)
    {
      assert dims[..j + 1][..j] == dims[..j];
      if acc * dims[j] >= U64_LIMIT {
        assert Product(dims[..j + 1]) >= U64_LIMIT;
        return Err(SizeOverflow);
      }
      acc := acc * dims[j];
    }
    assert dims[..|dims|] == dims;
    r := Ok(acc);
  }

  /** A level's element count as the loop multiplies it up, in 64 bits. */
  function Counted(dims: seq<nat>): nat {
    if dims == [] then 1 else Wrap(Counted(dims[..|dims| - 1]) * dims[|dims| - 1])
  }

  lemma {:induction false} CountedIsProduct(dims: seq<nat>)
    requires PrefixesFit(dims, |dims|)
    ensures Counted(dims) == Product(dims)
  {
    if dims != [] {
      FitsBefore(dims);
      CountedIsProduct(dims[..|dims| - 1]);
    }
  }

  /** The offsets built for one level: as many as its count comes to, whatever the other levels are. */
  method LevelOffsets(l: Level, elemWidth: nat) returns (offsets: seq<nat>)
    ensures |offsets| == Counted(l.dims)
    ensures forall k :: 0 <= k < |offsets| ==>
      offsets[k] == Wrap((if l.inverse && |l.dims| > 1 then StoredFrom(l.dims, k, 0) else k) * Stride(l, elemWidth))
    ensures PrefixesFit(l.dims, |l.dims|) ==>
      |offsets| == LevelTotal(l) && forall k :: 0 <= k < |offsets| ==> offsets[k] == Wrap(StoredOffset(l, elemWidth, k))
  {
    hide Wrap, StoredFrom, Stored, PrefixesFit;
    var stride, total := Stride(l, elemWidth), Counted(l.dims);
    if PrefixesFit(l.dims, |l.dims|) { CountedIsProduct(l.dims); }
    if l.inverse && |l.dims| > 1 {
      var stored := RowMajorToStored(l.dims, total);
      offsets := seq(total, k requires 0 <= k < total => Wrap(stored[k] * stride));
    } else {
      offsets := seq(total, k requires 0 <= k < total => Wrap(k * stride));
    }
  }

  /** The offsets of one level's elements under each of the elements so far. */
  method Nest(offsets: seq<nat>, inner: seq<nat>) returns (next: seq<nat>)
    ensures |next| == |offsets| * |inner| && NestedOffsets(next, offsets, inner)
  {
    hide Wrap;
    next := [];
    for i := 0 to |offsets|
      invariant |next| == i * |inner|
      invariant NestedOffsets(next, offsets, inner)
    {
      ghost var start := |next|;
      for j := 0 to |inner|
        invariant |next| == start + j
        invariant NestedOffsets(next, offsets, inner)
      {
        DivUnique(|next|, |inner|, i, j);
        next := next + [Wrap(offsets[i] + inner[j])];
      }
      assert (i + 1) * |inner| == i * |inner| + |inner|;
    }
  }

  ghost predicate NestedOffsets(next: seq<nat>, offsets: seq<nat>, inner: seq<nat>) {
    forall p :: 0 <= p < |next| ==>
      |inner| > 0 && p / |inner| < |offsets| && next[p] == Wrap(offsets[p / |inner|] + inner[p % |inner|])
  }

  lemma {:induction false} LevelFits(levels: seq<Level>, n: nat)
    requires n < |levels| && PrefixesFit(Shape(levels), |Shape(levels)|) && Product(Shape(levels[..n])) > 0
    ensures PrefixesFit(levels[n].dims, |levels[n].dims|)
  {
    var dims := levels[n].dims;
    var before := Shape(levels[..n]);
    ShapePrefix(levels, n);
    forall j | 0 <= j <= |dims| ensures Product(dims[..j]) < U64_LIMIT {
      assert Shape(levels)[..|before| + j] == before + dims[..j];
      ProductAppend(before, dims[..j]);
      AtLeastFactor(Product(before), Product(dims[..j]));
    }
  }

  lemma {:induction false} AtLeastFactor(a: nat, b: nat)
    requires a > 0
    ensures b <= a * b
  {
    if b > 0 { MulLess(0, a, b); }
  }

  lemma {:induction false} ShapePrefix(levels: seq<Level>, n: nat)
    requires n < |levels|
    ensures |Shape(levels[..n])| + |levels[n].dims| <= |Shape(levels)|
    ensures Shape(levels)[..|Shape(levels[..n])|] == Shape(levels[..n])
    ensures Shape(levels)[|Shape(levels[..n])|..|Shape(levels[..n])| + |levels[n].dims|] == levels[n].dims
  {
    var last := |levels| - 1;
    if n < last {
      ShapePrefix(levels[..last], n);
      assert levels[..last][..n] == levels[..n];
    }
  }

  /** The offset at every position of the combined shape, as far as 64 bits hold it. */
  ghost predicate OffsetsHold(offsets: seq<nat>, levels: seq<Level>, elemWidth: nat) {
    && |offsets| == Product(Shape(levels))
    && forall p :: 0 <= p < |offsets| ==> offsets[p] == Wrap(OffsetAt(levels, elemWidth, p))
  }

  lemma {:induction false} WrapBoth(a: nat, b: nat)
    ensures Wrap(Wrap(a) + Wrap(b)) == Wrap(a + b)
  {
    hide Wrap;
    WrapAdds(a, b);
    WrapAdds(Wrap(a), b);
  }

  lemma {:induction false} NestHolds(offsets: seq<nat>, inner: seq<nat>, next: seq<nat>, levels: seq<Level>, n: nat, elemWidth: nat)
    requires n < |levels| && OffsetsHold(offsets, levels[..n], elemWidth)
    requires offsets != [] ==>
      |inner| == LevelTotal(levels[n]) && forall k :: 0 <= k < |inner| ==> inner[k] == Wrap(StoredOffset(levels[n], elemWidth, k))
    requires |next| == |offsets| * |inner| && NestedOffsets(next, offsets, inner)
    ensures OffsetsHold(next, levels[..n + 1], elemWidth)
  {
    hide StoredOffset, Wrap;
    assert levels[..n + 1][..n] == levels[..n];
    ProductAppend(Shape(levels[..n]), levels[n].dims);
    if offsets == [] {
      assert 0 * |inner| == 0 && 0 * LevelTotal(levels[n]) == 0;
    } else {
      forall p | 0 <= p < |next| ensures next[p] == Wrap(OffsetAt(levels[..n + 1], elemWidth, p)) {
        WrapBoth(OffsetAt(levels[..n], elemWidth, p / |inner|), StoredOffset(levels[n], elemWidth, p % |inner|));
      }
    }
  }

  lemma {:induction false} OffsetsCount(offsets: seq<nat>, levels: seq<Level>, elemWidth: nat)
    requires OffsetsHold(offsets, levels, elemWidth)
    ensures |offsets| == Product(Shape(levels))
  {
  }

  lemma {:induction false} NoLevels(elemWidth: nat)
    ensures OffsetsHold([0], [], elemWidth)
  {
  }

  /** How many offsets the loop builds for each level. */
  function Counts(levels: seq<Level>): (counts: seq<nat>)
    ensures |counts| == |levels|
  {
    seq(|levels|, n requires 0 <= n < |levels| => Counted(levels[n].dims))
  }

  /** The part of `resolve_ca_chain` behind the walk: nothing when the element count is over the cap; otherwise an
      offset for each element, in row-major order of the combined shape. `built` is what it allocates for on the way. */
  method ResolveOffsets(levels: seq<Level>, elemWidth: nat, elemCap: nat)
    returns (r: Result<Option<seq<nat>>, ArrayError>, built: seq<nat>)
    ensures r.Err? <==> !PrefixesFit(Shape(levels), |Shape(levels)|)
    ensures r.Err? ==> r.error == SizeOverflow
    ensures r.Ok? ==> (r.value.Some? <==> Product(Shape(levels)) <= elemCap)
    ensures r.Ok? && r.value.Some? ==> OffsetsHold(r.value.value, levels, elemWidth)
    ensures built == if r.Ok? && r.value.Some? then Counts(levels) else []
  {
    hide OffsetsHold, NestedOffsets, PrefixesFit, Wrap, Counted, StoredFrom;
    built := [];
    var total := CheckedTotal(Shape(levels));
    if total.Err? { return Err(total.error), built; }
    if total.value > elemCap { return Ok(None), built; }
    var offsets: seq<nat> := [0];
    NoLevels(elemWidth);
    assert levels[..0] == [];
    for n := 0 to |levels|
      invariant OffsetsHold(offsets, levels[..n], elemWidth)
      invariant built == Counts(levels)[..n]
    {
      if offsets != [] {
        OffsetsCount(offsets, levels[..n], elemWidth);
        LevelFits(levels, n);
      }
      var inner := LevelOffsets(levels[n], elemWidth);
      built := built + [|inner|];
      var next := Nest(offsets, inner);
      NestHolds(offsets, inner, next, levels, n, elemWidth);
      offsets := next;
    }
    assert levels[..|levels|] == levels;
    r := Ok(Some(offsets));
  }

  // ---------------------------------------------------------------- what the check bounds

  /** The check that `resolve_ca_chain` makes before it builds anything. */
  ghost predicate Passes(levels: seq<Level>, cap: nat) {
    PrefixesFit(Shape(levels), |Shape(levels)|) && Product(Shape(levels)) <= cap
  }

  ghost predicate AllWithin(levels: seq<Level>, cap: nat) {
    forall n :: 0 <= n < |levels| ==> Counts(levels)[n] <= cap
  }

  /** A combined count that passes and is not zero bounds what is built for each level. */
  lemma {:induction false} LevelWithinCap(levels: seq<Level>, n: nat, cap: nat)
    requires n < |levels| && Passes(levels, cap) && Product(Shape(levels)) > 0
    ensures Counts(levels)[n] <= cap
  {
    var before, dims := Shape(levels[..n]), levels[n].dims;
    hide Product, Shape, PrefixesFit, Counted;
    ShapePrefix(levels, n);
    var behind := Shape(levels)[|before| + |dims|..];
    assert Shape(levels) == before + dims + behind;
    ProductAppend(before + dims, behind);
    ProductAppend(before, dims);
    MiddleFactor(Product(before), Product(dims), Product(behind));
    LevelFits(levels, n);
    CountedIsProduct(dims);
  }

  lemma {:induction false} PositiveFactors(a: nat, b: nat)
    requires a * b > 0
    ensures a > 0 && b > 0
  {
  }

  lemma {:induction false} MiddleFactor(a: nat, b: nat, c: nat)
    requires a * b * c > 0
    ensures a > 0 && b <= a * b * c
  {
    var ab := a * b;
    PositiveFactors(ab, c);
    PositiveFactors(a, b);
    AtLeastFactor(a, b);
    assert ab * c == c * ab;
    AtLeastFactor(c, ab);
  }

  /** Whatever the cap, passing the check bounds what is built for every level: exactly when the combined count is not
      zero, or none of the levels has any elements, or the check never passes. */
  lemma {:induction false} CheckBoundsLevelsExactly(levels: seq<Level>)
    ensures (forall cap: nat :: Passes(levels, cap) ==> AllWithin(levels, cap))
       <==> (PrefixesFit(Shape(levels), |Shape(levels)|) ==> Product(Shape(levels)) > 0 || AllWithin(levels, 0))
  {
    hide Product, Shape, PrefixesFit, Counts;
    if PrefixesFit(Shape(levels), |Shape(levels)|) && Product(Shape(levels)) == 0 {
      assert Passes(levels, 0);
      if AllWithin(levels, 0) {
        forall cap: nat | Passes(levels, cap) ensures AllWithin(levels, cap) {
        }
      }
    } else {
      forall cap: nat | Passes(levels, cap) ensures AllWithin(levels, cap) {
        forall n | 0 <= n < |levels| ensures Counts(levels)[n] <= cap { LevelWithinCap(levels, n, cap); }
      }
    }
  }

  /** A level of no elements before one of 2^40. */
  function HiddenLevels(): seq<Level> {
    [Level([0], 0, false), Level([0x100_0000_0000], 0, false)]
  }

  lemma {:induction false} HiddenCounts()
    ensures Shape(HiddenLevels()) == [0, 0x100_0000_0000] && Product(Shape(HiddenLevels())) == 0
    ensures PrefixesFit(Shape(HiddenLevels()), 2) && Counts(HiddenLevels()) == [0, 0x100_0000_0000]
  {
    hide Product, Counted, Shape;
    var levels := HiddenLevels();
    assert levels == [Level([0], 0, false)] + [Level([0x100_0000_0000], 0, false)];
    TwoLevels(Level([0], 0, false), Level([0x100_0000_0000], 0, false));
    assert [0] + [0x100_0000_0000] == [0, 0x100_0000_0000];
    OneLength(0);
    OneLength(0x100_0000_0000);
    NothingBeside(0x100_0000_0000);
  }

  lemma {:induction false} TwoLevels(a: Level, b: Level)
    ensures Shape([a, b]) == a.dims + b.dims
  {
    assert [a, b][..1] == [a] && [a][..0] == [];
    assert Shape([a]) == Shape([]) + a.dims == a.dims;
  }

  lemma {:induction false} NothingBeside(d: nat)
    ensures Product([0, d]) == 0 && PrefixesFit([0, d], 2)
  {
    var dims := [0, d];
    assert dims[..1] == [0] && [0][..0] == [] && dims[..0] == [] && dims[..2] == dims;
    forall j | 0 <= j <= 2 ensures Product(dims[..j]) < U64_LIMIT {
      assert j == 0 || j == 1 || j == 2;
    }
  }

  lemma {:induction false} OneLength(d: nat)
    requires d < U64_LIMIT
    ensures Product([d]) == d && Counted([d]) == d
  {
    assert [d][..0] == [];
    assert Product([]) == 1 && Counted([]) == 1;
  }

  /** With no memory allowed for at all, the loop builds 2^40 offsets for the second level and returns none. */
  method BuildHiddenLevel() returns (r: Result<Option<seq<nat>>, ArrayError>, built: seq<nat>)
    ensures r == Ok(Some([])) && built == [0, 0x100_0000_0000]
    ensures !AllWithin(HiddenLevels(), 0)
  {
    HiddenCounts();
    r, built := ResolveOffsets(HiddenLevels(), 1, 0);
    assert r.value.value == [];
    assert Counts(HiddenLevels())[1] == 0x100_0000_0000;
  }

  // ---------------------------------------------------------------- the chain of blocks

  /** What a channel block says of an element: its type, width in bits, and place. */
  datatype ElementType = ElementType(dataType: nat, bitCount: nat, bitOffset: nat, byteOffset: nat)

  datatype CaBlock = CaBlock(level: Level, composition: nat, cnTemplate: bool, dynamicSize: bool)

  /** What stands at a composition link: an element's channel block, a further array block, something else, or nothing
      that can be read. */
  datatype Composed = Element(element: ElementType) | Nested(block: CaBlock) | Unknown | Unreadable

  datatype Chain = Chain(levels: seq<Level>, element: ElementType)

  type Walked = Result<Option<Chain>, ArrayError>

  /** The levels from a block on, and the element they end in, when the chain ends within `left` blocks. */
  function ChainFrom(read: nat -> Composed, block: CaBlock, parent: ElementType, left: nat): Walked
    decreases left
  {
    if left == 0 then Ok(None)
    else if block.composition == 0 then Ok(Some(Chain([block.level], parent.(byteOffset := 0))))
    else
      match read(block.composition)
      case Unreadable => Err(ReadFailed)
      case Element(element) => Ok(Some(Chain([block.level], element)))
      case Unknown => Ok(None)
      case Nested(next) =>
        if !next.cnTemplate || next.dynamicSize then Ok(None) else Behind([block.level], ChainFrom(read, next, parent, left - 1))
  }

  function Behind(levels: seq<Level>, rest: Walked): Walked {
    match rest
    case Err(e) => Err(e)
    case Ok(None) => Ok(None)
    case Ok(Some(c)) => Ok(Some(Chain(levels + c.levels, c.element)))
  }

  lemma {:induction false} BehindNothing(rest: Walked)
    ensures Behind([], rest) == rest
  {
    if rest.Ok? && rest.value.Some? { assert [] + rest.value.value.levels == rest.value.value.levels; }
  }

  lemma {:induction false} BehindOne(levels: seq<Level>, l: Level, rest: Walked)
    ensures Behind(levels, Behind([l], rest)) == Behind(levels + [l], rest)
  {
    if rest.Ok? && rest.value.Some? { Assoc(levels, [l], rest.value.value.levels); }
  }

  /** The block at the composition link of `a`, if it is one that may stand there. */
  predicate LeadsTo(read: nat -> Composed, a: CaBlock, b: CaBlock) {
    a.composition != 0 && read(a.composition) == Nested(b) && b.cnTemplate && !b.dynamicSize
  }

  /** Blocks of nested arrays, each standing at the composition link of the one before it. */
  predicate Nesting(read: nat -> Composed, blocks: seq<CaBlock>) {
    blocks != [] && (|blocks| > 1 ==> LeadsTo(read, blocks[0], blocks[1]) && Nesting(read, blocks[1..]))
  }

  function LevelsOf(blocks: seq<CaBlock>): (levels: seq<Level>)
    ensures |levels| == |blocks|
  {
    seq(|blocks|, i requires 0 <= i < |blocks| => blocks[i].level)
  }

  /** What the innermost array is made of: what its link leads to, or the parent's own elements where it has no link. */
  ghost predicate MadeOf(read: nat -> Composed, last: CaBlock, parent: ElementType, e: ElementType) {
    if last.composition == 0 then e == ElementType(parent.dataType, parent.bitCount, parent.bitOffset, 0)
    else read(last.composition) == Element(e)
  }

  ghost predicate IsChain(read: nat -> Composed, first: CaBlock, parent: ElementType, left: nat, c: Chain, blocks: seq<CaBlock>) {
    && Nesting(read, blocks) && blocks[0] == first && |blocks| <= left
    && MadeOf(read, blocks[|blocks| - 1], parent, c.element) && c.levels == LevelsOf(blocks)
  }

  /** A chain is found exactly when one stands in the file and is no longer than allowed, and it is that one. */
  lemma {:induction false} ChainIsFollowed(read: nat -> Composed, first: CaBlock, parent: ElementType, left: nat, c: Chain)
    ensures ChainFrom(read, first, parent, left) == Ok(Some(c)) <==> exists blocks :: IsChain(read, first, parent, left, c, blocks)
    decreases left
  {
    if ChainFrom(read, first, parent, left) == Ok(Some(c)) {
      var blocks := ChainFound(read, first, parent, left, c);
    }
    if blocks :| IsChain(read, first, parent, left, c, blocks) { ChainKept(read, first, parent, left, c, blocks); }
  }

  lemma {:induction false} ChainFound(read: nat -> Composed, first: CaBlock, parent: ElementType, left: nat, c: Chain) returns (blocks: seq<CaBlock>)
    requires ChainFrom(read, first, parent, left) == Ok(Some(c))
    ensures IsChain(read, first, parent, left, c, blocks)
    decreases left
  {
    blocks := [first];
    if first.composition != 0 && read(first.composition).Nested? {
      var next := read(first.composition).block;
      var rest := ChainFrom(read, next, parent, left - 1).value.value;
      var behind := ChainFound(read, next, parent, left - 1, rest);
      blocks := [first] + behind;
      assert blocks[1..] == behind && LeadsTo(read, first, next);
      FirstLevel(blocks);
    } else {
      assert LevelsOf(blocks) == [first.level];
    }
  }

  lemma {:induction false} FirstLevel(blocks: seq<CaBlock>)
    requires blocks != []
    ensures LevelsOf(blocks) == [blocks[0].level] + LevelsOf(blocks[1..])
  {
  }

  lemma {:induction false} ChainKept(read: nat -> Composed, first: CaBlock, parent: ElementType, left: nat, c: Chain, blocks: seq<CaBlock>)
    requires IsChain(read, first, parent, left, c, blocks)
    ensures ChainFrom(read, first, parent, left) == Ok(Some(c))
    decreases left
  {
    if |blocks| == 1 {
      assert LevelsOf(blocks) == [first.level];
    } else {
      FirstLevel(blocks);
      ChainKept(read, blocks[1], parent, left - 1, Chain(LevelsOf(blocks[1..]), c.element), blocks[1..]);
    }
  }

  /** The loop that walks the composition links. */
  method WalkChain(read: nat -> Composed, first: CaBlock, parent: ElementType) returns (r: Walked)
    ensures r == ChainFrom(read, first, parent, 32)
  {
    var levels, current := [], first;
    BehindNothing(ChainFrom(read, first, parent, MAX_COMPOSITION_DEPTH));
    while true
      invariant |levels| <= MAX_COMPOSITION_DEPTH
      invariant ChainFrom(read, first, parent, MAX_COMPOSITION_DEPTH)
             == Behind(levels, ChainFrom(read, current, parent, MAX_COMPOSITION_DEPTH - |levels|))
      decreases MAX_COMPOSITION_DEPTH - |levels|
    {
      if |levels| >= MAX_COMPOSITION_DEPTH { return Ok(None); }
      levels := levels + [current.level];
      if current.composition == 0 { return Ok(Some(Chain(levels, parent.(byteOffset := 0)))); }
      match read(current.composition)
      case Unreadable => return Err(ReadFailed);
      case Element(element) => return Ok(Some(Chain(levels, element)));
      case Unknown => return Ok(None);
      case Nested(next) =>
        if !next.cnTemplate || next.dynamicSize { return Ok(None); }
        BehindOne(levels[..|levels| - 1], current.level, ChainFrom(read, next, parent, MAX_COMPOSITION_DEPTH - |levels|));
        current := next;
    }
  }

  /** Where the elements of a nested array are, and what they are. */
  datatype Resolution = Resolution(shape: seq<nat>, element: ElementType, offsets: seq<nat>)

  /** Bytes an element takes. */
  function ElementWidth(e: ElementType): (width: nat)
    ensures width > 0 && 8 * width >= e.bitCount && (width > 1 ==> 8 * (width - 1) < e.bitCount)
  {
    AtLeastOne((e.bitCount + 7) / 8)
  }

  /** `resolve_ca_chain`. */
  method ResolveCaChain(read: nat -> Composed, first: CaBlock, parent: ElementType, maxAlloc: nat)
    returns (r: Result<Option<Resolution>, ArrayError>)
    ensures match ChainFrom(read, first, parent, 32)
      case Err(e) => r == Err(e)
      case Ok(None) => r == Ok(None)
      case Ok(Some(c)) =>
        var shape := Shape(c.levels);
        && (r.Err? <==> !PrefixesFit(shape, |shape|)) && (r.Err? ==> r.error == SizeOverflow)
        && (r.Ok? ==> (r.value.Some? <==> Product(shape) <= maxAlloc / 8))
        && (r.Ok? && r.value.Some? ==>
            && r.value.value.shape == shape && r.value.value.element == c.element
            && OffsetsHold(r.value.value.offsets, c.levels, ElementWidth(c.element)))
  {
    var chain := WalkChain(read, first, parent);
    if chain.Err? { return Err(chain.error); }
    if chain.value.None? { return Ok(None); }
    var c := chain.value.value;
    var offsets, built := ResolveOffsets(c.levels, ElementWidth(c.element), maxAlloc / 8);
    if offsets.Err? { return Err(offsets.error); }
    r := if offsets.value.None? then Ok(None) else Ok(Some(Resolution(Shape(c.levels), c.element, offsets.value.value)));
  }
}
