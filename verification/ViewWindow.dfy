/** Bounded viewer reads: `Bucket`, `visit_samples` and `view_window` of src/view.rs. */
module ViewWindow {
  import opened Options
  import opened TimeAxis
  import opened Decimation

  /** The samples one chunk brings: its master's timestamps with their validity, and the channel's values. */
  datatype Chunk = Chunk(stamps: seq<Stamp>, valid: seq<bool>, values: seq<Value>)

  datatype ViewError = PointBudget | BadAxis(fault: AxisError) | SampleMismatch

  // ---------------------------------------------------------------- all the chunks together

  function AllStamps(chunks: seq<Chunk>): seq<Stamp> {
    if chunks == [] then [] else AllStamps(chunks[..|chunks| - 1]) + chunks[|chunks| - 1].stamps
  }

  function AllValid(chunks: seq<Chunk>): seq<bool> {
    if chunks == [] then [] else AllValid(chunks[..|chunks| - 1]) + chunks[|chunks| - 1].valid
  }

  function AllValues(chunks: seq<Chunk>): seq<Value> {
    if chunks == [] then [] else AllValues(chunks[..|chunks| - 1]) + chunks[|chunks| - 1].values
  }

  predicate Matched(c: Chunk) {
    |c.valid| == |c.stamps| == |c.values|
  }

  ghost predicate AllMatched(chunks: seq<Chunk>) {
    forall k :: 0 <= k < |chunks| ==> Matched(chunks[k])
  }

  lemma {:induction false} MatchedLengths(chunks: seq<Chunk>)
    requires AllMatched(chunks)
    ensures |AllValid(chunks)| == |AllStamps(chunks)| == |AllValues(chunks)|
  {
    if chunks != [] { MatchedLengths(chunks[..|chunks| - 1]); }
  }

  lemma {:induction false} NextChunk(chunks: seq<Chunk>, n: nat)
    requires n < |chunks|
    ensures AllStamps(chunks[..n + 1]) == AllStamps(chunks[..n]) + chunks[n].stamps
    ensures AllValid(chunks[..n + 1]) == AllValid(chunks[..n]) + chunks[n].valid
    ensures AllValues(chunks[..n + 1]) == AllValues(chunks[..n]) + chunks[n].values
  {
    assert chunks[..n + 1][..n] == chunks[..n];
  }

  /** Every chunk has a value and a validity for each timestamp, and the whole axis is sound. */
  ghost predicate Sound(chunks: seq<Chunk>) {
    AllMatched(chunks) && (MatchedLengths(chunks); SoundAxis(AllStamps(chunks), AllValid(chunks), None))
  }

  function TimeOf(s: Stamp): real {
    if s.Finite? then s.t else 0.0
  }

  /** The samples, numbered in file order. */
  function PointsOf(stamps: seq<Stamp>, values: seq<Value>): (points: seq<Point>)
    requires |values| == |stamps|
    ensures |points| == |stamps|
  {
    seq(|stamps|, i requires 0 <= i < |stamps| => Point(i, TimeOf(stamps[i]), values[i]))
  }

  ghost function Points(chunks: seq<Chunk>): (points: seq<Point>)
    requires AllMatched(chunks)
    ensures |points| == |AllStamps(chunks)|
  {
    MatchedLengths(chunks);
    PointsOf(AllStamps(chunks), AllValues(chunks))
  }

  lemma {:induction false} SoundOrdered(chunks: seq<Chunk>)
    requires Sound(chunks)
    ensures Ordered(Points(chunks))
  {
    MatchedLengths(chunks);
  }

  // ---------------------------------------------------------------- the window

  /** A requested end of the window, as an f64 can give it. */
  datatype Bound = At(t: real) | NegInf | PosInf | NaN

  /** `a > b` on f64. */
  predicate Above(a: Bound, b: Bound) {
    match (a, b)
    case (NaN, _) => false
    case (_, NaN) => false
    case (PosInf, _) => !b.PosInf?
    case (NegInf, _) => false
    case (At(_), PosInf) => false
    case (At(_), NegInf) => true
    case (At(x), At(y)) => x > y
  }

  /** The part of the extent from `a` to `b` that is shown, when any is. */
  function Window(t0: Bound, t1: Bound, a: real, b: real): Option<(real, real)> {
    if t0.NaN? || t1.NaN? || Above(t0, t1) then None
    else
      var lo := if t0.At? && t0.t > a then t0.t else a;
      var hi := if t1.At? && t1.t < b then t1.t else b;
      if lo > hi then None else Some((lo, hi))
  }

  /** `t` lies in the window that was asked for. */
  predicate Requested(t0: Bound, t: real, t1: Bound) {
    !t0.NaN? && !t1.NaN? && !Above(t0, At(t)) && !Above(At(t), t1)
  }

  predicate InWindow(w: Option<(real, real)>, t: real) {
    w.Some? && w.value.0 <= t <= w.value.1
  }

  /** What is shown of the extent is what was asked for, exactly when the window is not the single point at one of the
      infinities: for that the whole extent is shown. */
  lemma {:induction false} WindowIsRequestedExactly(t0: Bound, t1: Bound, a: real, b: real)
    requires a <= b
    ensures (forall t :: a <= t <= b ==> (InWindow(Window(t0, t1, a, b), t) <==> Requested(t0, t, t1)))
       <==> !(t0.PosInf? && t1.PosInf?) && !(t0.NegInf? && t1.NegInf?)
    ensures (t0.PosInf? && t1.PosInf?) || (t0.NegInf? && t1.NegInf?) ==> Window(t0, t1, a, b) == Some((a, b))
    ensures Window(t0, t1, a, b).Some? ==> a <= Window(t0, t1, a, b).value.0 <= Window(t0, t1, a, b).value.1 <= b
  {
    if (t0.PosInf? && t1.PosInf?) || (t0.NegInf? && t1.NegInf?) {
      assert InWindow(Window(t0, t1, a, b), a) && !Requested(t0, a, t1);
    }
  }

  // ---------------------------------------------------------------- buckets

  class Bucket {
    var first: Option<Point>
    var last: Option<Point>
    var min: Option<Point>
    var max: Option<Point>
    var gap: Option<Point>
    ghost var pushed: seq<Point>

    ghost predicate Valid()
      reads this
    {
      && first == FirstOf(pushed) && last == LastOf(pushed)
      && min == MinOf(pushed) && max == MaxOf(pushed) && gap == GapOf(pushed)
    }

    constructor ()
      ensures Valid() && pushed == []
    {
      first, last, min, max, gap, pushed := None, None, None, None, None, [];
    }

    /** `Bucket::push`. */
    method Push(p: Point)
      requires Valid()
      modifies this
      ensures Valid() && pushed == old(pushed) + [p]
    {
      assert (pushed + [p])[..|pushed|] == pushed;
      if first.None? { first := Some(p); }
      last := Some(p);
      if p.value.Number? {
        if min.None? || p.value.v < min.value.value.v { min := Some(p); }
        if max.None? || p.value.v > max.value.value.v { max := Some(p); }
      } else if gap.None? {
        gap := Some(p);
      }
      pushed := pushed + [p];
    }
  }

  /** The buckets are different objects, each holding what its column has of the points. */
  ghost predicate Filled(buckets: seq<Bucket>, points: seq<Point>, lo: real, hi: real)
    reads buckets
  {
    && buckets != []
    && (forall c, d :: 0 <= c < d < |buckets| ==> buckets[c] != buckets[d])
    && (forall c :: 0 <= c < |buckets| ==> buckets[c].Valid() && buckets[c].pushed == InColumn(points, lo, hi, |buckets|, c))
  }

  lemma {:induction false} OneMorePoint(points: seq<Point>, p: Point, lo: real, hi: real, columns: nat, c: nat)
    requires columns > 0
    ensures InColumn(points + [p], lo, hi, columns, c)
         == InColumn(points, lo, hi, columns, c) + if Lands(p, lo, hi, columns, c) then [p] else []
  {
    assert (points + [p])[..|points|] == points;
  }

  method NewBuckets(columns: nat, lo: real, hi: real) returns (buckets: seq<Bucket>)
    requires columns > 0
    ensures fresh(buckets) && |buckets| == columns && Filled(buckets, [], lo, hi)
  {
    buckets := [];
    for c := 0 to columns
      invariant fresh(buckets) && |buckets| == c
      invariant forall d, e :: 0 <= d < e < c ==> buckets[d] != buckets[e]
      invariant forall d :: 0 <= d < c ==> buckets[d].Valid() && buckets[d].pushed == []
    {
      var bucket := new Bucket();
      buckets := buckets + [bucket];
    }
  }

  /** One sample of the second pass. */
  method Place(buckets: seq<Bucket>, p: Point, lo: real, hi: real, ghost points: seq<Point>)
    requires Filled(buckets, points, lo, hi)
    modifies buckets
    ensures Filled(buckets, points + [p], lo, hi)
  {
    hide InColumn, Column;
    forall c | 0 <= c < |buckets|
      ensures InColumn(points + [p], lo, hi, |buckets|, c)
           == InColumn(points, lo, hi, |buckets|, c) + if Lands(p, lo, hi, |buckets|, c) then [p] else []
    {
      OneMorePoint(points, p, lo, hi, |buckets|, c);
    }
    if Visible(p, lo, hi) {
      var column := Column(p.time, lo, hi, |buckets|);
      buckets[column].Push(p);
    }
  }

  // ---------------------------------------------------------------- `visit_samples`

  /** The first `n` chunks have passed; `offset` and `previous` are what the next one is checked with. */
  ghost predicate Visited(chunks: seq<Chunk>, n: nat, offset: nat, previous: Option<real>) {
    && n <= |chunks| && AllMatched(chunks[..n])
    && (MatchedLengths(chunks[..n]); FirstFault(AllStamps(chunks[..n]), AllValid(chunks[..n]), None, 0).None?)
    && offset == |AllStamps(chunks[..n])| && previous == LastStamp(AllStamps(chunks[..n]), None)
  }

  lemma {:induction false} LastStampAppend(a: seq<Stamp>, b: seq<Stamp>, previous: Option<real>)
    ensures LastStamp(a + b, previous) == LastStamp(b, LastStamp(a, previous))
    decreases |a|
  {
    if a == [] {
      assert a + b == b;
    } else {
      assert (a + b)[1..] == a[1..] + b;
      LastStampAppend(a[1..], b, if a[0].Finite? then Some(a[0].t) else previous);
    }
  }

  lemma {:induction false} OneMoreMatched(chunks: seq<Chunk>, n: nat)
    requires n < |chunks| && AllMatched(chunks[..n]) && Matched(chunks[n])
    ensures AllMatched(chunks[..n + 1])
  {
    var all := chunks[..n + 1];
    forall k | 0 <= k < |all| ensures Matched(all[k]) {
      if k < n { assert chunks[..n][k] == all[k]; }
    }
  }

  lemma {:induction false} VisitedNext(chunks: seq<Chunk>, n: nat, offset: nat, previous: Option<real>)
    requires Visited(chunks, n, offset, previous) && n < |chunks| && Matched(chunks[n])
    requires FirstFault(chunks[n].stamps, chunks[n].valid, previous, offset).None?
    ensures Visited(chunks, n + 1, offset + |chunks[n].stamps|, LastStamp(chunks[n].stamps, previous))
  {
    hide FirstFault, LastStamp, AllMatched, AllStamps, AllValid, AllValues;
    OneMoreMatched(chunks, n);
    NextChunk(chunks, n);
    MatchedLengths(chunks[..n]);
    ChunksCheckTheWhole(AllStamps(chunks[..n]), AllValid(chunks[..n]), chunks[n].stamps, chunks[n].valid, None, 0);
    LastStampAppend(AllStamps(chunks[..n]), chunks[n].stamps, None);
  }

  /** A chunk that fails shows that the chunks are not sound. */
  lemma {:induction false} FaultIsUnsound(chunks: seq<Chunk>, n: nat, offset: nat, previous: Option<real>)
    requires Visited(chunks, n, offset, previous) && n < |chunks|
    requires !Matched(chunks[n]) || FirstFault(chunks[n].stamps, chunks[n].valid, previous, offset).Some?
    ensures !Sound(chunks)
  {
    hide FirstFault, LastStamp, AllStamps, AllValid, AllValues, SoundAxis;
    if Sound(chunks) {
      MatchedLengths(chunks[..n]);
      NextChunk(chunks, n);
      ChunksCheckTheWhole(AllStamps(chunks[..n]), AllValid(chunks[..n]), chunks[n].stamps, chunks[n].valid, None, 0);
      PrefixFault(chunks, n + 1);
      MatchedLengths(chunks);
      PassesExactly(AllStamps(chunks), AllValid(chunks), None, 0);
      assert false;
    }
  }

  lemma {:induction false} PrefixFault(chunks: seq<Chunk>, n: nat)
    requires n <= |chunks| && AllMatched(chunks)
    requires (MatchedLengths(chunks[..n]); FirstFault(AllStamps(chunks[..n]), AllValid(chunks[..n]), None, 0).Some?)
    ensures (MatchedLengths(chunks); FirstFault(AllStamps(chunks), AllValid(chunks), None, 0).Some?)
    decreases |chunks| - n
  {
    hide FirstFault, AllStamps, AllValid, AllValues;
    MatchedLengths(chunks[..n]);
    if n == |chunks| {
      assert chunks[..n] == chunks;
    } else {
      NextChunk(chunks, n);
      ChunksCheckTheWhole(AllStamps(chunks[..n]), AllValid(chunks[..n]), chunks[n].stamps, chunks[n].valid, None, 0);
      PrefixFault(chunks, n + 1);
    }
  }

  lemma {:induction false} AllVisited(chunks: seq<Chunk>, offset: nat, previous: Option<real>)
    requires Visited(chunks, |chunks|, offset, previous)
    ensures Sound(chunks) && offset == |AllStamps(chunks)|
  {
    assert chunks[..|chunks|] == chunks;
    MatchedLengths(chunks);
    PassesExactly(AllStamps(chunks), AllValid(chunks), None, 0);
  }

  /** The checks `visit_samples` makes of one chunk. */
  method CheckChunk(chunk: Chunk, offset: nat, previous: Option<real>) returns (error: Option<ViewError>)
    ensures error.None? <==> Matched(chunk) && FirstFault(chunk.stamps, chunk.valid, previous, offset).None?
    ensures error != Some(PointBudget)
  {
    var fault := ValidateAxis(chunk.stamps, Some(chunk.valid), offset, previous);
    if fault.Some? { return Some(BadAxis(fault.value)); }
    error := if |chunk.stamps| != |chunk.values| then Some(SampleMismatch) else None;
  }

  function ExtentOf(stamps: seq<Stamp>): Option<(real, real)> {
    if stamps == [] then None else Some((TimeOf(stamps[0]), TimeOf(stamps[|stamps| - 1])))
  }

  /** The first pass: the full extent and the number of samples. */
  method ScanExtent(chunks: seq<Chunk>) returns (r: Result<(Option<(real, real)>, nat), ViewError>)
    ensures r.Ok? <==> Sound(chunks)
    ensures r != Err(PointBudget)
    ensures r.Ok? ==> r.value == (ExtentOf(AllStamps(chunks)), |AllStamps(chunks)|)
  {
    hide Sound, Visited, FirstFault, LastStamp;
    hide AllStamps, AllMatched;
    var offset: nat, total: nat, previous: Option<real>, extent: Option<(real, real)> := 0, 0, None, None;
    NoneVisited(chunks);
    for n := 0 to |chunks|
      invariant Visited(chunks, n, offset, previous) && total == |AllStamps(chunks[..n])|
      invariant extent == ExtentOf(AllStamps(chunks[..n]))
    {
      var chunk := chunks[n];
      var error := CheckChunk(chunk, offset, previous);
      if error.Some? {
        FaultIsUnsound(chunks, n, offset, previous);
        return Err(error.value);
      }
      VisitedNext(chunks, n, offset, previous);
      NextChunk(chunks, n);
      if chunk.stamps != [] {
        var a, b := TimeOf(chunk.stamps[0]), TimeOf(chunk.stamps[|chunk.stamps| - 1]);
        extent := Some((if extent.Some? then extent.value.0 else a, b));
      }
      total := total + |chunk.stamps|;
      if chunk.stamps != [] { LastOfChunk(chunk, previous, offset); } else { NoStamps(previous); }
      previous := if chunk.stamps == [] then previous else Some(chunk.stamps[|chunk.stamps| - 1].t);
      offset := offset + |chunk.stamps|;
    }
    AllVisited(chunks, offset, previous);
    assert chunks[..|chunks|] == chunks;
    r := Ok((extent, total));
  }

  lemma {:induction false} NoStamps(previous: Option<real>)
    ensures LastStamp([], previous) == previous
  {
  }

  lemma {:induction false} NoneVisited(chunks: seq<Chunk>)
    ensures Visited(chunks, 0, 0, None)
  {
  }

  lemma {:induction false} LastOfChunk(chunk: Chunk, previous: Option<real>, offset: nat)
    requires Matched(chunk) && FirstFault(chunk.stamps, chunk.valid, previous, offset).None? && chunk.stamps != []
    ensures chunk.stamps[|chunk.stamps| - 1].Finite?
    ensures LastStamp(chunk.stamps, previous) == Some(chunk.stamps[|chunk.stamps| - 1].t)
  {
    PassesExactly(chunk.stamps, chunk.valid, previous, offset);
    LastIsLast(chunk.stamps, previous);
  }

  lemma {:induction false} LastIsLast(stamps: seq<Stamp>, previous: Option<real>)
    requires stamps != [] && stamps[|stamps| - 1].Finite?
    ensures LastStamp(stamps, previous) == Some(stamps[|stamps| - 1].t)
  {
    if |stamps| > 1 { LastIsLast(stamps[1..], if stamps[0].Finite? then Some(stamps[0].t) else previous); }
  }

  // ---------------------------------------------------------------- `view_window`

  lemma {:induction false} PointsNext(chunks: seq<Chunk>, n: nat)
    requires n < |chunks| && AllMatched(chunks)
    ensures AllMatched(chunks[..n]) && AllMatched(chunks[..n + 1])
    ensures |Points(chunks[..n])| == |AllStamps(chunks[..n])|
    ensures Points(chunks[..n + 1]) == Points(chunks[..n]) + ChunkPoints(chunks[n], |AllStamps(chunks[..n])|)
  {
    NextChunk(chunks, n);
    MatchedLengths(chunks[..n]);
    MatchedLengths(chunks[..n + 1]);
  }

  /** A chunk's samples, the first of them being number `offset`. */
  function ChunkPoints(chunk: Chunk, offset: nat): (points: seq<Point>)
    requires Matched(chunk)
    ensures |points| == |chunk.stamps|
  {
    seq(|chunk.stamps|, i requires 0 <= i < |chunk.stamps| => Point(offset + i, TimeOf(chunk.stamps[i]), chunk.values[i]))
  }

  method PlaceChunk(buckets: seq<Bucket>, chunk: Chunk, offset: nat, lo: real, hi: real, ghost points: seq<Point>)
    requires Matched(chunk) && Filled(buckets, points, lo, hi)
    modifies buckets
    ensures Filled(buckets, points + ChunkPoints(chunk, offset), lo, hi)
  {
    hide Filled;
    ghost var more := ChunkPoints(chunk, offset);
    assert points + more[..0] == points;
    for i := 0 to |chunk.stamps|
      invariant Filled(buckets, points + more[..i], lo, hi)
    {
      var p := Point(offset + i, TimeOf(chunk.stamps[i]), chunk.values[i]);
      assert points + more[..i] + [p] == points + more[..i + 1];
      Place(buckets, p, lo, hi, points + more[..i]);
    }
    assert more[..|chunk.stamps|] == more;
  }

  /** The second pass. */
  method Distribute(chunks: seq<Chunk>, columns: nat, lo: real, hi: real) returns (buckets: seq<Bucket>)
    requires AllMatched(chunks) && columns > 0
    ensures fresh(buckets) && |buckets| == columns && Filled(buckets, Points(chunks), lo, hi)
  {
    hide Filled, AllMatched, Points, AllStamps;
    NoPoints(chunks);
    buckets := NewBuckets(columns, lo, hi);
    var offset := 0;
    for n := 0 to |chunks|
      invariant fresh(buckets) && |buckets| == columns && AllMatched(chunks[..n])
      invariant offset == |AllStamps(chunks[..n])| && Filled(buckets, Points(chunks[..n]), lo, hi)
    {
      PointsNext(chunks, n);
      NextChunk(chunks, n);
      ChunkMatched(chunks, n);
      PlaceChunk(buckets, chunks[n], offset, lo, hi, Points(chunks[..n]));
      offset := offset + |chunks[n].stamps|;
    }
    assert chunks[..|chunks|] == chunks;
  }

  lemma {:induction false} ChunkMatched(chunks: seq<Chunk>, n: nat)
    requires n < |chunks| && AllMatched(chunks)
    ensures Matched(chunks[n])
  {
  }

  lemma {:induction false} NoPoints(chunks: seq<Chunk>)
    ensures AllMatched(chunks[..0]) && Points(chunks[..0]) == [] && AllStamps(chunks[..0]) == []
  {
  }

  /** The loop that turns buckets into points. */
  method ShowAll(buckets: seq<Bucket>, ghost points: seq<Point>, lo: real, hi: real) returns (out: seq<Point>)
    requires Filled(buckets, points, lo, hi)
    ensures out == ViewUpTo(points, lo, hi, |buckets|, |buckets|)
  {
    hide InColumn, Shown;
    out := [];
    for c := 0 to |buckets|
      invariant out == ViewUpTo(points, lo, hi, |buckets|, c)
    {
      var b := buckets[c];
      out := out + Shown(b.first, b.min, b.max, b.gap, b.last);
    }
  }

  datatype View = View(points: seq<Point>, extent: Option<(real, real)>, total: nat)

  /** What a view of these samples shows: it does not depend on the chunks they arrive in. */
  ghost function ViewOf(points: seq<Point>, t0: Bound, t1: Bound, extent: (real, real), maxPoints: nat): seq<Point>
    requires maxPoints >= 5
  {
    match Window(t0, t1, extent.0, extent.1)
    case None => []
    case Some(w) => ViewUpTo(points, w.0, w.1, maxPoints / 5, maxPoints / 5)
  }

  /** What is promised of a view: in strictly increasing order of index, exactly the samples that stand out in one of the
      slices of the window. */
  ghost predicate ShowsExactly(points: seq<Point>, view: seq<Point>, w: Option<(real, real)>, slices: nat) {
    && Rising(view)
    && forall p :: p in view <==> w.Some? && exists c: nat :: c < slices && StandsOut(points, w.value.0, w.value.1, slices, c, p)
  }

  /** The view of any sound signal keeps that promise. */
  lemma {:induction false} SoundViewShows(chunks: seq<Chunk>, t0: Bound, t1: Bound, extent: (real, real), maxPoints: nat)
    requires maxPoints >= 5 && Sound(chunks)
    ensures AllMatched(chunks)
    ensures var view := ViewOf(Points(chunks), t0, t1, extent, maxPoints);
      |view| <= maxPoints && ShowsExactly(Points(chunks), view, Window(t0, t1, extent.0, extent.1), maxPoints / 5)
  {
    hide Points, Ordered, Window, StandsOut, ViewUpTo;
    SoundOrdered(chunks);
    var points, w, slices := Points(chunks), Window(t0, t1, extent.0, extent.1), maxPoints / 5;
    if w.Some? {
      ViewRises(points, w.value.0, w.value.1, slices, slices);
      forall p ensures p in ViewUpTo(points, w.value.0, w.value.1, slices, slices)
                 <==> exists c: nat :: c < slices && StandsOut(points, w.value.0, w.value.1, slices, c, p) {
        ViewExactly(points, w.value.0, w.value.1, slices, p);
      }
    }
  }

  /** The samples are those of the chunks, one after another: each with the index it has in the file, its time and value. */
  lemma {:induction false} PointsAre(chunks: seq<Chunk>, n: nat, i: nat)
    requires AllMatched(chunks) && n < |chunks| && i < |chunks[n].stamps|
    ensures i < |chunks[n].values|
    ensures var k := |AllStamps(chunks[..n])| + i;
      && k < |Points(chunks)| && Points(chunks)[k].index == k && Points(chunks)[k].value == chunks[n].values[i]
      && (chunks[n].stamps[i].Finite? ==> Points(chunks)[k].time == chunks[n].stamps[i].t)
    ensures |AllStamps(chunks[..n + 1])| == |AllStamps(chunks[..n])| + |chunks[n].stamps|
    decreases |chunks| - n
  {
    hide AllStamps, AllValues, AllValid, AllMatched;
    ChunkMatched(chunks, n);
    var last := |chunks| - 1;
    assert chunks[..last + 1] == chunks;
    PointsNext(chunks, n);
    NextChunk(chunks, n);
    PointsStay(chunks, n + 1);
    assert Points(chunks[..n + 1])[|AllStamps(chunks[..n])| + i] == ChunkPoints(chunks[n], |AllStamps(chunks[..n])|)[i];
  }

  lemma {:induction false} PointsStay(chunks: seq<Chunk>, n: nat)
    requires AllMatched(chunks) && n <= |chunks|
    ensures AllMatched(chunks[..n]) && Points(chunks[..n]) <= Points(chunks)
    decreases |chunks| - n
  {
    hide AllStamps, AllValues, AllValid, AllMatched, Points;
    if n == |chunks| {
      assert chunks[..n] == chunks;
    } else {
      PointsNext(chunks, n);
      PointsStay(chunks, n + 1);
    }
  }

  lemma {:induction false} ExtentIs(chunks: seq<Chunk>)
    requires Sound(chunks)
    ensures AllMatched(chunks)
    ensures var points := Points(chunks);
      && |points| == |AllStamps(chunks)|
      && ExtentOf(AllStamps(chunks)) == if points == [] then None else Some((points[0].time, points[|points| - 1].time))
  {
    hide AllStamps;
    MatchedLengths(chunks);
  }

  /** `view_window`. */
  method ReadView(chunks: seq<Chunk>, t0: Bound, t1: Bound, maxPoints: nat) returns (r: Result<View, ViewError>)
    ensures r.Ok? <==> 5 <= maxPoints <= 1_000_000 && Sound(chunks)
    ensures r == Err(PointBudget) <==> !(5 <= maxPoints <= 1_000_000)
    ensures r.Ok? ==>
      var points := Points(chunks);
      && r.value.total == |points|
      && r.value.extent == (if points == [] then None else Some((points[0].time, points[|points| - 1].time)))
      && |r.value.points| <= maxPoints
      && (points == [] ==> r.value.points == [])
      && (points != [] ==>
            ShowsExactly(points, r.value.points, Window(t0, t1, points[0].time, points[|points| - 1].time), maxPoints / 5))
  {
    hide Filled, Points, AllStamps, ViewUpTo, ShowsExactly, Sound, ExtentOf;
    if !(5 <= maxPoints <= 1_000_000) { return Err(PointBudget); }
    var scan := ScanExtent(chunks);
    if scan.Err? { return Err(scan.error); }
    var extent, total := scan.value.0, scan.value.1;
    ExtentIs(chunks);
    if extent.None? { return Ok(View([], extent, total)); }
    var window := Window(t0, t1, extent.value.0, extent.value.1);
    SoundViewShows(chunks, t0, t1, extent.value, maxPoints);
    if window.None? { return Ok(View([], extent, total)); }
    var buckets := Distribute(chunks, maxPoints / 5, window.value.0, window.value.1);
    var out := ShowAll(buckets, Points(chunks), window.value.0, window.value.1);
    r := Ok(View(out, extent, total));
  }

  /** Every view of a sound signal: no more points than the budget; samples of the window, in strictly increasing order
      of index; the window's first and last sample among them, one at its least finite value and one at its greatest, and
      for every gap in the window a gap of the same slice. */
  lemma {:induction false} ViewKeepsPeaks(points: seq<Point>, t0: Bound, t1: Bound, extent: (real, real), maxPoints: nat, p: Point)
    returns (low: Point, high: Point, gap: Point)
    requires maxPoints >= 5 && Ordered(points) && p in points && InWindow(Window(t0, t1, extent.0, extent.1), p.time)
    ensures var view, w := ViewOf(points, t0, t1, extent, maxPoints), Window(t0, t1, extent.0, extent.1);
      && |view| <= maxPoints && Rising(view)
      && (forall q :: q in view ==> q in points && InWindow(w, q.time))
      && ((forall q :: q in points && InWindow(w, q.time) ==> p.index <= q.index) ==> p in view)
      && ((forall q :: q in points && InWindow(w, q.time) ==> q.index <= p.index) ==> p in view)
      && (p.value.Number? ==>
          && low in view && high in view && low.value.Number? && high.value.Number?
          && forall q :: q in points && InWindow(w, q.time) && q.value.Number? ==> low.value.v <= q.value.v <= high.value.v)
      && (p.value.Gap? ==>
          && gap in view && gap.value.Gap? && SameSlice(gap.time, p.time, w.value.0, w.value.1, maxPoints / 5))
  {
    hide ViewUpTo, Column, Ordered, Rising, InSlice, SameSlice;
    var w := Window(t0, t1, extent.0, extent.1).value;
    var columns := maxPoints / 5;
    ViewRises(points, w.0, w.1, columns, columns);
    if forall q :: q in points && Visible(q, w.0, w.1) ==> p.index <= q.index { FirstShown(points, w.0, w.1, columns, p); }
    if forall q :: q in points && Visible(q, w.0, w.1) ==> q.index <= p.index { LastShown(points, w.0, w.1, columns, p); }
    var l, h;
    l, h, gap := ColumnPeaksShown(points, w.0, w.1, columns, p);
    low, high := p, p;
    if p.value.Number? { low, high := PeaksShown(points, w.0, w.1, columns, p); }
  }

  /** One chunk with a sample at either end of a second. */
  function TwoSamples(): seq<Chunk> {
    [Chunk([Finite(0.0), Finite(1.0)], [true, true], [Number(1.0), Number(2.0)])]
  }

  lemma {:induction false} TwoPoints()
    ensures Sound(TwoSamples()) && ExtentOf(AllStamps(TwoSamples())) == Some((0.0, 1.0))
    ensures Points(TwoSamples()) == [Point(0, 0.0, Number(1.0)), Point(1, 1.0, Number(2.0))]
  {
    hide SoundAxis, PointsOf;
    OneChunk(TwoSamples()[0]);
    SoundPair(0.0, 1.0);
    PointsOfPair(0.0, 1.0, Number(1.0), Number(2.0));
  }

  lemma {:induction false} OneChunk(c: Chunk)
    ensures AllStamps([c]) == c.stamps && AllValid([c]) == c.valid && AllValues([c]) == c.values
  {
    var chunks := [c];
    assert AllStamps(chunks[..0]) == [] && AllValid(chunks[..0]) == [] && AllValues(chunks[..0]) == [];
  }

  lemma {:induction false} SoundPair(a: real, b: real)
    requires a <= b
    ensures SoundAxis([Finite(a), Finite(b)], [true, true], None)
  {
  }

  lemma {:induction false} PointsOfPair(a: real, b: real, v: Value, w: Value)
    ensures PointsOf([Finite(a), Finite(b)], [v, w]) == [Point(0, a, v), Point(1, b, w)]
  {
  }

  /** With one slice, the first sample and the last stand out. */
  lemma {:induction false} BothEndsShown(points: seq<Point>, view: seq<Point>, p: Point, q: Point)
    requires points == [p, q] && p.index < q.index && p.time == 0.0 && q.time == 1.0
    requires ShowsExactly(points, view, Some((0.0, 1.0)), 1)
    ensures p in view && q in view
  {
    hide Rising;
    assert points[0] == p && points[1] == q;
    OneSlice(p.time);
    OneSlice(q.time);
    assert StandsOut(points, 0.0, 1.0, 1, 0, p) && StandsOut(points, 0.0, 1.0, 1, 0, q);
  }

  lemma {:induction false} OneSlice(t: real)
    requires 0.0 <= t <= 1.0
    ensures InSlice(t, 0.0, 1.0, 1, 0)
  {
  }

  /** Asked for the single instant +infinity, the view of a second's two samples shows both. */
  method ViewAtInfinity() returns (r: Result<View, ViewError>)
    ensures r.Ok? && r.value.extent == Some((0.0, 1.0))
    ensures Point(0, 0.0, Number(1.0)) in r.value.points && Point(1, 1.0, Number(2.0)) in r.value.points
    ensures forall t: real :: !Requested(PosInf, t, PosInf)
  {
    hide Points, ShowsExactly, Sound;
    TwoPoints();
    r := ReadView(TwoSamples(), PosInf, PosInf, 5);
    BothEndsShown(Points(TwoSamples()), r.value.points, Point(0, 0.0, Number(1.0)), Point(1, 1.0, Number(2.0)));
  }
}
