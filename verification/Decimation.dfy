/** What a decimated view keeps of a signal (src/view.rs): the points of each column, and why peaks survive. */
module Decimation {
  import opened Options
  import opened Sorting

  /** A sample's value; what is invalid, missing or not finite is a gap. */
  datatype Value = Number(v: real) | Gap

  datatype Point = Point(index: nat, time: real, value: Value)

  /** Samples in file order, on an axis that does not decrease. */
  ghost predicate Ordered(points: seq<Point>) {
    forall i, j :: 0 <= i < j < |points| ==> points[i].index < points[j].index && points[i].time <= points[j].time
  }

  // ---------------------------------------------------------------- columns

  /** The column a time falls in. */
  function Column(time: real, lo: real, hi: real, columns: nat): (c: nat)
    requires lo <= time <= hi && columns > 0
    ensures c < columns
  {
    if hi > lo then
      ShareBounds(time - lo, hi - lo, columns as real);
      var c := Share(time, lo, hi, columns).Floor;
      if c < columns then c else columns - 1
    else 0
  }

  /** How many columns' worth of the window lies before `time`. */
  function Share(time: real, lo: real, hi: real, columns: nat): real
    requires hi > lo
  {
    (time - lo) / (hi - lo) * columns as real
  }

  lemma {:induction false} ShareBounds(x: real, width: real, n: real)
    requires 0.0 <= x && width > 0.0 && n >= 0.0
    ensures x / width >= 0.0 && x / width * n >= 0.0
  {
    assert x / width * width == x;
  }

  lemma {:induction false} ShareGrows(x: real, y: real, width: real, n: real)
    requires 0.0 <= x <= y && width > 0.0 && n >= 0.0
    ensures x / width * n <= y / width * n
  {
    ShareBounds(y - x, width, n);
    assert y / width == x / width + (y - x) / width;
  }

  /** Columns follow time. */
  lemma {:induction false} ColumnGrows(s: real, t: real, lo: real, hi: real, columns: nat)
    requires lo <= s <= t <= hi && columns > 0
    ensures Column(s, lo, hi, columns) <= Column(t, lo, hi, columns)
  {
    if hi > lo {
      ShareGrows(s - lo, t - lo, hi - lo, columns as real);
      FloorGrows((s - lo) / (hi - lo) * columns as real, (t - lo) / (hi - lo) * columns as real);
    }
  }

  lemma {:induction false} FloorGrows(x: real, y: real)
    requires x <= y
    ensures x.Floor <= y.Floor
  {
  }

  /** Where slice `c` of `columns` equal slices of the window begins. */
  function Edge(lo: real, hi: real, columns: nat, c: nat): real
    requires columns > 0
  {
    lo + c as real * (hi - lo) / columns as real
  }

  /** Slice `c` of `columns` holds time `t`: from its left edge on and before its right edge, which for the last slice is
      the window's end. A window that is one instant is one slice. */
  predicate InSlice(t: real, lo: real, hi: real, columns: nat, c: nat) {
    lo <= t <= hi && c < columns &&
    if lo == hi then c == 0
    else Edge(lo, hi, columns, c) <= t && (c + 1 < columns ==> t < Edge(lo, hi, columns, c + 1))
  }

  /** `c` slices' worth of time has passed exactly when slice `c` has begun. */
  lemma {:induction false} ShareReaches(t: real, lo: real, hi: real, columns: nat, c: nat)
    requires hi > lo && columns > 0
    ensures Share(t, lo, hi, columns) >= c as real <==> Edge(lo, hi, columns, c) <= t
  {
    var w, n, x := hi - lo, columns as real, c as real;
    var share, edge := (t - lo) / w, x * w / n;
    Scaled(t - lo, w);
    Scaled(x * w, n);
    Reaches(t - lo, w, n, x, share, edge);
  }

  lemma {:induction false} Scaled(a: real, m: real)
    requires m > 0.0
    ensures a / m * m == a
  {
  }

  lemma {:induction false} Reaches(d: real, w: real, n: real, x: real, share: real, edge: real)
    requires w > 0.0 && n > 0.0 && share * w == d && edge * n == x * w
    ensures share * n >= x <==> edge <= d
  {
    assert share * n * w == d * n by { assert share * n * w == share * w * n; }
    if share * n >= x {
      TimesBoth(x, share * n, w);
      DivideBoth(edge, d, n);
    } else {
      TimesBothStrictly(share * n, x, w);
      if edge <= d { TimesBoth(edge, d, n); }
    }
  }

  lemma {:induction false} TimesBoth(a: real, b: real, m: real)
    requires a <= b && m > 0.0
    ensures a * m <= b * m
  {
  }

  lemma {:induction false} TimesBothStrictly(a: real, b: real, m: real)
    requires a < b && m > 0.0
    ensures a * m < b * m
  {
  }

  lemma {:induction false} DivideBoth(a: real, b: real, m: real)
    requires a * m <= b * m && m > 0.0
    ensures a <= b
  {
    if a > b { TimesBothStrictly(b, a, m); }
  }

  /** The columns are the slices. */
  lemma {:induction false} ColumnIsSlice(t: real, lo: real, hi: real, columns: nat, c: nat)
    requires lo <= t <= hi && columns > 0
    ensures Column(t, lo, hi, columns) == c <==> InSlice(t, lo, hi, columns, c)
  {
    hide Share, Edge;
    if hi > lo {
      ShareIsPositive(t, lo, hi, columns);
      ShareReaches(t, lo, hi, columns, c);
      ShareReaches(t, lo, hi, columns, c + 1);
      FloorBetween(Share(t, lo, hi, columns), columns, c, t, Edge(lo, hi, columns, c), Edge(lo, hi, columns, c + 1));
    }
  }

  lemma {:induction false} ShareIsPositive(t: real, lo: real, hi: real, columns: nat)
    requires hi > lo && lo <= t
    ensures Share(t, lo, hi, columns) >= 0.0
  {
    ShareBounds(t - lo, hi - lo, columns as real);
  }

  /** A share rounded down and cut to the last column, by the two edges it is between. */
  lemma {:induction false} FloorBetween(share: real, columns: nat, c: nat, t: real, left: real, right: real)
    requires share >= 0.0 && columns > 0
    requires share >= c as real <==> left <= t
    requires share >= (c + 1) as real <==> right <= t
    ensures (if share.Floor < columns then share.Floor else columns - 1) == c
       <==> c < columns && left <= t && (c + 1 < columns ==> t < right)
  {
  }

  predicate Visible(p: Point, lo: real, hi: real) {
    lo <= p.time <= hi
  }

  predicate Lands(p: Point, lo: real, hi: real, columns: nat, c: nat)
    requires columns > 0
  {
    Visible(p, lo, hi) && Column(p.time, lo, hi, columns) == c
  }

  /** The points that land in a column, in order. */
  function InColumn(points: seq<Point>, lo: real, hi: real, columns: nat, c: nat): seq<Point>
    requires columns > 0
  {
    if points == [] then [] else
      var last := points[|points| - 1];
      InColumn(points[..|points| - 1], lo, hi, columns, c) + if Lands(last, lo, hi, columns, c) then [last] else []
  }

  lemma {:induction false} InColumnMembers(points: seq<Point>, lo: real, hi: real, columns: nat, c: nat)
    requires columns > 0
    ensures forall p :: p in InColumn(points, lo, hi, columns, c) <==> p in points && Lands(p, lo, hi, columns, c)
  {
    if points != [] {
      InColumnMembers(points[..|points| - 1], lo, hi, columns, c);
      assert points == points[..|points| - 1] + [points[|points| - 1]];
    }
  }

  lemma {:induction false} InColumnOrdered(points: seq<Point>, lo: real, hi: real, columns: nat, c: nat)
    requires columns > 0 && Ordered(points)
    ensures Ordered(InColumn(points, lo, hi, columns, c))
  {
    if points != [] {
      var before := points[..|points| - 1];
      InColumnOrdered(before, lo, hi, columns, c);
      InColumnMembers(before, lo, hi, columns, c);
      var column := InColumn(before, lo, hi, columns, c);
      forall i | 0 <= i < |column|
        ensures column[i].index < points[|points| - 1].index && column[i].time <= points[|points| - 1].time
      {
        assert column[i] in before;
        var k :| 0 <= k < |before| && before[k] == column[i];
        assert points[k] == column[i];
      }
    }
  }

  // ---------------------------------------------------------------- what a bucket remembers

  function FirstOf(s: seq<Point>): Option<Point> {
    if s == [] then None else Some(s[0])
  }

  function LastOf(s: seq<Point>): Option<Point> {
    if s == [] then None else Some(s[|s| - 1])
  }

  /** The first point with the least finite value. */
  function MinOf(s: seq<Point>): (m: Option<Point>)
    ensures m.Some? ==> m.value.value.Number?
  {
    if s == [] then None else
      var before, p := MinOf(s[..|s| - 1]), s[|s| - 1];
      if p.value.Number? && (before.None? || p.value.v < before.value.value.v) then Some(p) else before
  }

  /** The first point with the greatest finite value. */
  function MaxOf(s: seq<Point>): (m: Option<Point>)
    ensures m.Some? ==> m.value.value.Number?
  {
    if s == [] then None else
      var before, p := MaxOf(s[..|s| - 1]), s[|s| - 1];
      if p.value.Number? && (before.None? || p.value.v > before.value.value.v) then Some(p) else before
  }

  /** The first gap. */
  function GapOf(s: seq<Point>): Option<Point> {
    if s == [] then None else
      var before, p := GapOf(s[..|s| - 1]), s[|s| - 1];
      if before.None? && p.value.Gap? then Some(p) else before
  }

  lemma {:induction false} MinAttained(s: seq<Point>)
    ensures MinOf(s).Some? ==> MinOf(s).value in s
    ensures forall p :: p in s && p.value.Number? ==> MinOf(s).Some? && MinOf(s).value.value.v <= p.value.v
  {
    if s != [] {
      MinAttained(s[..|s| - 1]);
      assert s == s[..|s| - 1] + [s[|s| - 1]];
    }
  }

  lemma {:induction false} MaxAttained(s: seq<Point>)
    ensures MaxOf(s).Some? ==> MaxOf(s).value in s
    ensures forall p :: p in s && p.value.Number? ==> MaxOf(s).Some? && MaxOf(s).value.value.v >= p.value.v
  {
    if s != [] {
      MaxAttained(s[..|s| - 1]);
      assert s == s[..|s| - 1] + [s[|s| - 1]];
    }
  }

  lemma {:induction false} GapFound(s: seq<Point>)
    ensures GapOf(s).Some? ==> GapOf(s).value in s && GapOf(s).value.value.Gap?
    ensures forall p :: p in s && p.value.Gap? ==> GapOf(s).Some?
  {
    if s != [] {
      GapFound(s[..|s| - 1]);
      assert s == s[..|s| - 1] + [s[|s| - 1]];
    }
  }

  // ---------------------------------------------------------------- what a column shows

  function Opt(p: Option<Point>): (s: seq<Point>)
    ensures |s| <= 1
  {
    if p.Some? then [p.value] else []
  }

  function ByIndex(): (Point, Point) -> bool {
    (a: Point, b: Point) => a.index <= b.index
  }

  /** `dedup_by_key`: of neighbours with one index, the first. */
  function Dedup(s: seq<Point>): (d: seq<Point>)
    ensures |d| <= |s|
  {
    if s == [] then [] else
      var d := Dedup(s[..|s| - 1]);
      if d != [] && d[|d| - 1].index == s[|s| - 1].index then d else d + [s[|s| - 1]]
  }

  /** The five points a bucket remembers, in order and each once. */
  function Shown(first: Option<Point>, min: Option<Point>, max: Option<Point>, gap: Option<Point>, last: Option<Point>): (d: seq<Point>)
    ensures |d| <= 5
  {
    SortElements(Opt(first) + Opt(min) + Opt(max) + Opt(gap) + Opt(last), ByIndex());
    Dedup(Sort(Opt(first) + Opt(min) + Opt(max) + Opt(gap) + Opt(last), ByIndex()))
  }

  function Kept(s: seq<Point>): (d: seq<Point>)
    ensures |d| <= 5
  {
    Shown(FirstOf(s), MinOf(s), MaxOf(s), GapOf(s), LastOf(s))
  }

  /** No two of these points share an index. */
  ghost predicate Identified(s: seq<Point>) {
    forall p, q :: p in s && q in s && p.index == q.index ==> p == q
  }

  ghost predicate Rising(s: seq<Point>) {
    forall i, j :: 0 <= i < j < |s| ==> s[i].index < s[j].index
  }

  ghost predicate SameMembers(a: seq<Point>, b: seq<Point>) {
    forall p :: p in a <==> p in b
  }

  /** One more point at the end of a list whose last kept index is the last index before it. */
  lemma {:induction false} DedupStep(before: seq<Point>, d: seq<Point>, last: Point)
    requires Rising(d) && SameMembers(d, before) && Identified(before + [last])
    requires d != [] ==> d[|d| - 1].index <= last.index
    ensures var d' := if d != [] && d[|d| - 1].index == last.index then d else d + [last];
      Rising(d') && SameMembers(d', before + [last]) && d'[|d'| - 1].index == last.index
  {
    Appended(before, last);
    if d != [] && d[|d| - 1].index == last.index {
      assert d[|d| - 1] in d && d[|d| - 1] in before + [last] && last in before + [last];
    } else {
      Appended(d, last);
    }
  }

  lemma {:induction false} Appended(s: seq<Point>, last: Point)
    ensures forall p :: p in s + [last] <==> p in s || p == last
  {
  }

  lemma {:induction false} DedupRises(s: seq<Point>)
    requires SortedBy(s, ByIndex()) && Identified(s)
    ensures Rising(Dedup(s)) && SameMembers(Dedup(s), s)
    ensures s != [] ==> Dedup(s) != [] && Dedup(s)[|Dedup(s)| - 1].index == s[|s| - 1].index
  {
    hide Rising, SortedBy, Identified, Dedup, SameMembers, ByIndex;
    if s == [] {
      NothingDeduped();
    } else {
      var before, last := s[..|s| - 1], s[|s| - 1];
      assert s == before + [last];
      LastTwo(s);
      PrefixOf(s, before);
      DedupRises(before);
      DedupStep(before, Dedup(before), last);
      DedupLast(s, before, last);
    }
  }

  lemma {:induction false} NothingDeduped()
    ensures Dedup([]) == [] && Rising([]) && SameMembers([], [])
  {
  }

  lemma {:induction false} DedupLast(s: seq<Point>, before: seq<Point>, last: Point)
    requires s != [] && before == s[..|s| - 1] && last == s[|s| - 1]
    ensures Dedup(s) == var d := Dedup(before); if d != [] && d[|d| - 1].index == last.index then d else d + [last]
  {
  }

  lemma {:induction false} LastTwo(s: seq<Point>)
    requires SortedBy(s, ByIndex())
    ensures |s| > 1 ==> s[|s| - 2].index <= s[|s| - 1].index
  {
    if |s| > 1 { assert ByIndex()(s[|s| - 2], s[|s| - 1]); }
  }

  lemma {:induction false} PrefixOf(s: seq<Point>, before: seq<Point>)
    requires s != [] && before == s[..|s| - 1] && SortedBy(s, ByIndex()) && Identified(s)
    ensures SortedBy(before, ByIndex()) && Identified(before)
  {
    assert forall p :: p in before ==> p in s;
  }

  lemma {:induction false} ByIndexIsTotal()
    ensures TotalPreorder(ByIndex())
  {
  }

  lemma {:induction false} OrderedIdentified(s: seq<Point>)
    requires Ordered(s)
    ensures Identified(s)
  {
    forall p, q | p in s && q in s && p.index == q.index ensures p == q {
      var i :| 0 <= i < |s| && s[i] == p;
      var j :| 0 <= j < |s| && s[j] == q;
    }
  }

  lemma {:induction false} SortMembers(s: seq<Point>)
    ensures forall p :: p in Sort(s, ByIndex()) <==> p in s
  {
    SortContents(s, ByIndex());
    forall p ensures p in Sort(s, ByIndex()) <==> p in s {
      assert p in multiset(s) <==> p in s;
      assert p in multiset(Sort(s, ByIndex())) <==> p in Sort(s, ByIndex());
    }
  }

  /** What a column shows of its points: in order, each once, the first and the last, an extreme each way, and a gap if
      it has one; and nothing that is not in the column. */
  lemma {:induction false} KeptPoints(s: seq<Point>)
    requires Ordered(s)
    ensures Rising(Kept(s)) && forall p :: p in Kept(s) ==> p in s
    ensures s != [] ==> s[0] in Kept(s) && s[|s| - 1] in Kept(s)
    ensures MinOf(s).Some? ==> MinOf(s).value in Kept(s)
    ensures MaxOf(s).Some? ==> MaxOf(s).value in Kept(s)
    ensures GapOf(s).Some? ==> GapOf(s).value in Kept(s)
    ensures forall p :: p in Kept(s) ==>
      (s != [] && (p == s[0] || p == s[|s| - 1])) || MinOf(s) == Some(p) || MaxOf(s) == Some(p) || GapOf(s) == Some(p)
  {
    MinAttained(s);
    MaxAttained(s);
    GapFound(s);
    hide MinOf, MaxOf, GapOf, Sort, Dedup, Ordered;
    var five := Opt(FirstOf(s)) + Opt(MinOf(s)) + Opt(MaxOf(s)) + Opt(GapOf(s)) + Opt(LastOf(s));
    forall p | p in five ensures p in s && ((s != [] && (p == s[0] || p == s[|s| - 1]))
                                            || MinOf(s) == Some(p) || MaxOf(s) == Some(p) || GapOf(s) == Some(p)) {
    }
    OrderedIdentified(s);
    SortMembers(five);
    ByIndexIsTotal();
    SortSorts(five, ByIndex());
    DedupRises(Sort(five, ByIndex()));
  }

  // ---------------------------------------------------------------- what the view shows

  /** The columns before `n`, one after another. */
  function ViewUpTo(points: seq<Point>, lo: real, hi: real, columns: nat, n: nat): (view: seq<Point>)
    requires n <= columns && columns > 0
    ensures |view| <= 5 * n
  {
    if n == 0 then [] else ViewUpTo(points, lo, hi, columns, n - 1) + Kept(InColumn(points, lo, hi, columns, n - 1))
  }

  /** Whatever a column keeps, the view shows. */
  lemma {:induction false} ViewShows(points: seq<Point>, lo: real, hi: real, columns: nat, n: nat, c: nat, p: Point)
    requires c < n <= columns && p in Kept(InColumn(points, lo, hi, columns, c))
    ensures p in ViewUpTo(points, lo, hi, columns, n)
  {
    hide Kept, InColumn;
    if c < n - 1 { ViewShows(points, lo, hi, columns, n - 1, c, p); }
  }

  lemma {:induction false} KeptLands(points: seq<Point>, lo: real, hi: real, columns: nat, c: nat, p: Point)
    requires columns > 0 && Ordered(points) && p in Kept(InColumn(points, lo, hi, columns, c))
    ensures p in points && Lands(p, lo, hi, columns, c)
  {
    hide Kept, InColumn, Ordered, Column;
    InColumnOrdered(points, lo, hi, columns, c);
    InColumnMembers(points, lo, hi, columns, c);
    KeptPoints(InColumn(points, lo, hi, columns, c));
  }

  /** A point in an earlier column is an earlier sample. */
  lemma {:induction false} ColumnsInOrder(points: seq<Point>, lo: real, hi: real, columns: nat, p: Point, q: Point)
    requires columns > 0 && Ordered(points) && p in points && q in points
    requires Visible(p, lo, hi) && Visible(q, lo, hi) && Column(p.time, lo, hi, columns) < Column(q.time, lo, hi, columns)
    ensures p.index < q.index
  {
    hide Column;
    var i :| 0 <= i < |points| && points[i] == p;
    var j :| 0 <= j < |points| && points[j] == q;
    if j <= i { ColumnGrows(q.time, p.time, lo, hi, columns); }
  }

  lemma {:induction false} RisingAppend(a: seq<Point>, b: seq<Point>)
    requires Rising(a) && Rising(b) && forall p, q :: p in a && q in b ==> p.index < q.index
    ensures Rising(a + b)
  {
    forall i, j | 0 <= i < j < |a + b| ensures (a + b)[i].index < (a + b)[j].index {
      if i < |a| <= j { assert a[i] in a && b[j - |a|] in b; }
    }
  }

  /** The view shows samples of the window, in strictly increasing order of index. */
  lemma {:induction false} ViewRises(points: seq<Point>, lo: real, hi: real, columns: nat, n: nat)
    requires n <= columns && columns > 0 && Ordered(points)
    ensures Rising(ViewUpTo(points, lo, hi, columns, n))
    ensures forall p :: p in ViewUpTo(points, lo, hi, columns, n) ==>
      p in points && Visible(p, lo, hi) && Column(p.time, lo, hi, columns) < n
  {
    hide Kept, InColumn, Ordered, Column, Rising, ViewUpTo;
    if n == 0 {
      EmptyView(points, lo, hi, columns);
    } else {
      var before, kept := ViewUpTo(points, lo, hi, columns, n - 1), Kept(InColumn(points, lo, hi, columns, n - 1));
      ViewRises(points, lo, hi, columns, n - 1);
      InColumnOrdered(points, lo, hi, columns, n - 1);
      KeptPoints(InColumn(points, lo, hi, columns, n - 1));
      forall q | q in kept ensures q in points && Lands(q, lo, hi, columns, n - 1) {
        KeptLands(points, lo, hi, columns, n - 1, q);
      }
      forall p, q | p in before && q in kept ensures p.index < q.index {
        ColumnsInOrder(points, lo, hi, columns, p, q);
      }
      RisingAppend(before, kept);
      ViewNext(points, lo, hi, columns, n - 1);
    }
  }

  lemma {:induction false} EmptyView(points: seq<Point>, lo: real, hi: real, columns: nat)
    requires columns > 0
    ensures ViewUpTo(points, lo, hi, columns, 0) == [] && Rising([])
  {
  }

  lemma {:induction false} ViewNext(points: seq<Point>, lo: real, hi: real, columns: nat, n: nat)
    requires n < columns
    ensures ViewUpTo(points, lo, hi, columns, n + 1)
         == ViewUpTo(points, lo, hi, columns, n) + Kept(InColumn(points, lo, hi, columns, n))
  {
  }

  // ---------------------------------------------------------------- peaks survive

  /** The first sample of the window is shown. */
  lemma {:induction false} FirstShown(points: seq<Point>, lo: real, hi: real, columns: nat, p: Point)
    requires columns > 0 && Ordered(points) && p in points && Visible(p, lo, hi)
    requires forall q :: q in points && Visible(q, lo, hi) ==> p.index <= q.index
    ensures p in ViewUpTo(points, lo, hi, columns, columns)
  {
    hide Kept, InColumn, Column, ViewUpTo;
    var c := Column(p.time, lo, hi, columns);
    var s := InColumn(points, lo, hi, columns, c);
    InColumnMembers(points, lo, hi, columns, c);
    InColumnOrdered(points, lo, hi, columns, c);
    var i :| 0 <= i < |s| && s[i] == p;
    assert s[0] in s;
    KeptPoints(s);
    ViewShows(points, lo, hi, columns, columns, c, p);
  }

  /** The last sample of the window is shown. */
  lemma {:induction false} LastShown(points: seq<Point>, lo: real, hi: real, columns: nat, p: Point)
    requires columns > 0 && Ordered(points) && p in points && Visible(p, lo, hi)
    requires forall q :: q in points && Visible(q, lo, hi) ==> q.index <= p.index
    ensures p in ViewUpTo(points, lo, hi, columns, columns)
  {
    hide Kept, InColumn, Column, ViewUpTo;
    var c := Column(p.time, lo, hi, columns);
    var s := InColumn(points, lo, hi, columns, c);
    InColumnMembers(points, lo, hi, columns, c);
    InColumnOrdered(points, lo, hi, columns, c);
    var i :| 0 <= i < |s| && s[i] == p;
    assert s[|s| - 1] in s;
    KeptPoints(s);
    ViewShows(points, lo, hi, columns, columns, c, p);
  }

  /** Two times of the window lie in the same slice of it. */
  ghost predicate SameSlice(t: real, u: real, lo: real, hi: real, columns: nat) {
    forall c: nat :: InSlice(t, lo, hi, columns, c) <==> InSlice(u, lo, hi, columns, c)
  }

  lemma {:induction false} SameColumn(t: real, u: real, lo: real, hi: real, columns: nat)
    requires lo <= t <= hi && lo <= u <= hi && columns > 0 && Column(t, lo, hi, columns) == Column(u, lo, hi, columns)
    ensures SameSlice(t, u, lo, hi, columns)
  {
    hide InSlice, Column;
    forall c: nat ensures InSlice(t, lo, hi, columns, c) <==> InSlice(u, lo, hi, columns, c) {
      ColumnIsSlice(t, lo, hi, columns, c);
      ColumnIsSlice(u, lo, hi, columns, c);
    }
  }

  /** For every finite sample of the window the view shows one of the same slice that is no greater, one that is no
      less; and for every gap, a gap. */
  lemma {:induction false} ColumnPeaksShown(points: seq<Point>, lo: real, hi: real, columns: nat, p: Point) returns (low: Point, high: Point, gap: Point)
    requires columns > 0 && Ordered(points) && p in points && Visible(p, lo, hi)
    ensures p.value.Number? ==>
      && low in ViewUpTo(points, lo, hi, columns, columns) && low.value.Number? && low.value.v <= p.value.v
      && high in ViewUpTo(points, lo, hi, columns, columns) && high.value.Number? && p.value.v <= high.value.v
      && SameSlice(low.time, p.time, lo, hi, columns) && SameSlice(high.time, p.time, lo, hi, columns)
    ensures p.value.Gap? ==>
      && gap in ViewUpTo(points, lo, hi, columns, columns) && gap.value.Gap? && SameSlice(gap.time, p.time, lo, hi, columns)
  {
    hide Kept, InColumn, Column, ViewUpTo, MinOf, MaxOf, GapOf, SameSlice;
    var c := Column(p.time, lo, hi, columns);
    var s := InColumn(points, lo, hi, columns, c);
    InColumnMembers(points, lo, hi, columns, c);
    InColumnOrdered(points, lo, hi, columns, c);
    KeptPoints(s);
    MinAttained(s);
    MaxAttained(s);
    GapFound(s);
    low, high, gap := p, p, p;
    if p.value.Number? {
      low, high := MinOf(s).value, MaxOf(s).value;
      ViewShows(points, lo, hi, columns, columns, c, low);
      ViewShows(points, lo, hi, columns, columns, c, high);
      SameColumn(low.time, p.time, lo, hi, columns);
      SameColumn(high.time, p.time, lo, hi, columns);
    } else {
      gap := GapOf(s).value;
      ViewShows(points, lo, hi, columns, columns, c, gap);
      SameColumn(gap.time, p.time, lo, hi, columns);
    }
  }

  /** The finite values of the window, in order. */
  function VisibleNumbers(points: seq<Point>, lo: real, hi: real): seq<Point> {
    if points == [] then [] else
      var last := points[|points| - 1];
      VisibleNumbers(points[..|points| - 1], lo, hi) + if Visible(last, lo, hi) && last.value.Number? then [last] else []
  }

  lemma {:induction false} VisibleNumbersMembers(points: seq<Point>, lo: real, hi: real)
    ensures forall p :: p in VisibleNumbers(points, lo, hi) <==> p in points && Visible(p, lo, hi) && p.value.Number?
  {
    if points != [] {
      VisibleNumbersMembers(points[..|points| - 1], lo, hi);
      assert points == points[..|points| - 1] + [points[|points| - 1]];
    }
  }

  /** A sample at the window's least finite value is shown, and one at its greatest. */
  lemma {:induction false} PeaksShown(points: seq<Point>, lo: real, hi: real, columns: nat, p: Point) returns (low: Point, high: Point)
    requires columns > 0 && Ordered(points) && p in points && Visible(p, lo, hi) && p.value.Number?
    ensures low in ViewUpTo(points, lo, hi, columns, columns) && low.value.Number?
    ensures high in ViewUpTo(points, lo, hi, columns, columns) && high.value.Number?
    ensures forall q :: q in points && Visible(q, lo, hi) && q.value.Number? ==> low.value.v <= q.value.v <= high.value.v
  {
    hide ViewUpTo, Column, MinOf, MaxOf, VisibleNumbers, Ordered;
    var all := VisibleNumbers(points, lo, hi);
    VisibleNumbersMembers(points, lo, hi);
    MinAttained(all);
    MaxAttained(all);
    var least, greatest := MinOf(all).value, MaxOf(all).value;
    var h, g;
    low, h, g := ColumnPeaksShown(points, lo, hi, columns, least);
    h, high, g := ColumnPeaksShown(points, lo, hi, columns, greatest);
  }

  // ---------------------------------------------------------------- exactly what is shown

  /** `q` is a sample of slice `c`. */
  ghost predicate Held(points: seq<Point>, lo: real, hi: real, columns: nat, c: nat, q: Point) {
    q in points && InSlice(q.time, lo, hi, columns, c)
  }

  /** `p` is the first or the last sample of slice `c`, the first at its least finite value or at its greatest, or its
      first gap. */
  ghost predicate StandsOut(points: seq<Point>, lo: real, hi: real, columns: nat, c: nat, p: Point) {
    && Held(points, lo, hi, columns, c, p)
    && (|| (forall q :: Held(points, lo, hi, columns, c, q) ==> p.index <= q.index)
        || (forall q :: Held(points, lo, hi, columns, c, q) ==> q.index <= p.index)
        || (p.value.Number? && forall q :: Held(points, lo, hi, columns, c, q) && q.value.Number? ==>
              p.value.v < q.value.v || (p.value.v == q.value.v && p.index <= q.index))
        || (p.value.Number? && forall q :: Held(points, lo, hi, columns, c, q) && q.value.Number? ==>
              p.value.v > q.value.v || (p.value.v == q.value.v && p.index <= q.index))
        || (p.value.Gap? && forall q :: Held(points, lo, hi, columns, c, q) && q.value.Gap? ==> p.index <= q.index))
  }

  /** The first sample at the least finite value. */
  ghost predicate LeastIn(s: seq<Point>, p: Point) {
    && p in s && p.value.Number?
    && forall q :: q in s && q.value.Number? ==> p.value.v < q.value.v || (p.value.v == q.value.v && p.index <= q.index)
  }

  lemma {:induction false} MinStays(s: seq<Point>, m: Point)
    requires Ordered(s) && s != [] && LeastIn(s[..|s| - 1], m)
    requires s[|s| - 1].value.Number? ==> !(s[|s| - 1].value.v < m.value.v)
    ensures LeastIn(s, m)
  {
    OrderedPrefix(s);
    assert s == s[..|s| - 1] + [s[|s| - 1]];
  }

  lemma {:induction false} MinIsFirst(s: seq<Point>)
    requires Ordered(s)
    ensures MinOf(s).Some? ==> LeastIn(s, MinOf(s).value)
  {
    if s != [] {
      var before, last := s[..|s| - 1], s[|s| - 1];
      OrderedPrefix(s);
      MinIsFirst(before);
      MinAttained(before);
      assert s == before + [last];
      if MinOf(s) == MinOf(before) && MinOf(s).Some? { MinStays(s, MinOf(s).value); }
    }
  }

  lemma {:induction false} MinExactly(s: seq<Point>, p: Point)
    requires Ordered(s)
    ensures MinOf(s) == Some(p) <==> LeastIn(s, p)
  {
    hide MinOf, Ordered;
    MinIsFirst(s);
    MinAttained(s);
    OrderedIdentified(s);
  }

  /** The first sample at the greatest finite value. */
  ghost predicate GreatestIn(s: seq<Point>, p: Point) {
    && p in s && p.value.Number?
    && forall q :: q in s && q.value.Number? ==> p.value.v > q.value.v || (p.value.v == q.value.v && p.index <= q.index)
  }

  lemma {:induction false} MaxStays(s: seq<Point>, m: Point)
    requires Ordered(s) && s != [] && GreatestIn(s[..|s| - 1], m)
    requires s[|s| - 1].value.Number? ==> !(s[|s| - 1].value.v > m.value.v)
    ensures GreatestIn(s, m)
  {
    OrderedPrefix(s);
    assert s == s[..|s| - 1] + [s[|s| - 1]];
  }

  lemma {:induction false} MaxIsFirst(s: seq<Point>)
    requires Ordered(s)
    ensures MaxOf(s).Some? ==> GreatestIn(s, MaxOf(s).value)
  {
    if s != [] {
      var before, last := s[..|s| - 1], s[|s| - 1];
      OrderedPrefix(s);
      MaxIsFirst(before);
      MaxAttained(before);
      assert s == before + [last];
      if MaxOf(s) == MaxOf(before) && MaxOf(s).Some? { MaxStays(s, MaxOf(s).value); }
    }
  }

  lemma {:induction false} MaxExactly(s: seq<Point>, p: Point)
    requires Ordered(s)
    ensures MaxOf(s) == Some(p) <==> GreatestIn(s, p)
  {
    hide MaxOf, Ordered;
    MaxIsFirst(s);
    MaxAttained(s);
    OrderedIdentified(s);
  }

  lemma {:induction false} GapIsFirst(s: seq<Point>, p: Point)
    requires Ordered(s)
    ensures GapOf(s) == Some(p) <==> p in s && p.value.Gap? && forall q :: q in s && q.value.Gap? ==> p.index <= q.index
  {
    if s != [] {
      var before, last := s[..|s| - 1], s[|s| - 1];
      assert s == before + [last];
      OrderedPrefix(s);
      GapIsFirst(before, p);
      GapFound(before);
      if GapOf(before).Some? { GapIsFirst(before, GapOf(before).value); }
      GapIsFirst(before, last);
    }
  }

  /** All but the last sample come before it. */
  lemma {:induction false} OrderedPrefix(s: seq<Point>)
    requires Ordered(s) && s != []
    ensures Ordered(s[..|s| - 1]) && forall q :: q in s[..|s| - 1] ==> q.index < s[|s| - 1].index
  {
  }

  lemma {:induction false} EndsAre(s: seq<Point>, p: Point)
    requires Ordered(s) && p in s
    ensures p == s[0] <==> forall q :: q in s ==> p.index <= q.index
    ensures p == s[|s| - 1] <==> forall q :: q in s ==> q.index <= p.index
  {
    var i :| 0 <= i < |s| && s[i] == p;
    assert s[0] in s && s[|s| - 1] in s;
  }

  /** The view shows exactly the samples that stand out in a slice of the window. */
  lemma {:induction false} ViewExactly(points: seq<Point>, lo: real, hi: real, columns: nat, p: Point)
    requires columns > 0 && Ordered(points)
    ensures p in ViewUpTo(points, lo, hi, columns, columns) <==> exists c: nat :: c < columns && StandsOut(points, lo, hi, columns, c, p)
  {
    hide ViewUpTo, Kept, InColumn, StandsOut, Ordered;
    if p in ViewUpTo(points, lo, hi, columns, columns) {
      var c := ShownByColumn(points, lo, hi, columns, columns, p);
      ColumnExactly(points, lo, hi, columns, c, p);
    }
    if c: nat :| c < columns && StandsOut(points, lo, hi, columns, c, p) {
      ColumnExactly(points, lo, hi, columns, c, p);
      ViewShows(points, lo, hi, columns, columns, c, p);
    }
  }

  lemma {:induction false} ShownByColumn(points: seq<Point>, lo: real, hi: real, columns: nat, n: nat, p: Point) returns (c: nat)
    requires n <= columns && columns > 0 && p in ViewUpTo(points, lo, hi, columns, n)
    ensures c < n && p in Kept(InColumn(points, lo, hi, columns, c))
  {
    hide Kept, InColumn;
    if p in Kept(InColumn(points, lo, hi, columns, n - 1)) { c := n - 1; } else { c := ShownByColumn(points, lo, hi, columns, n - 1, p); }
  }

  lemma {:induction false} ColumnHolds(points: seq<Point>, lo: real, hi: real, columns: nat, c: nat)
    requires columns > 0
    ensures forall q :: q in InColumn(points, lo, hi, columns, c) <==> Held(points, lo, hi, columns, c, q)
  {
    hide InColumn, Column, InSlice;
    InColumnMembers(points, lo, hi, columns, c);
    forall q ensures q in InColumn(points, lo, hi, columns, c) <==> Held(points, lo, hi, columns, c, q) {
      if Visible(q, lo, hi) { ColumnIsSlice(q.time, lo, hi, columns, c); } else { OutOfWindow(q.time, lo, hi, columns, c); }
    }
  }

  lemma {:induction false} OutOfWindow(t: real, lo: real, hi: real, columns: nat, c: nat)
    requires !(lo <= t <= hi)
    ensures !InSlice(t, lo, hi, columns, c)
  {
  }

  lemma {:induction false} ColumnExactly(points: seq<Point>, lo: real, hi: real, columns: nat, c: nat, p: Point)
    requires columns > 0 && Ordered(points)
    ensures p in Kept(InColumn(points, lo, hi, columns, c)) <==> StandsOut(points, lo, hi, columns, c, p)
  {
    hide InColumn, Kept, Ordered, Held, MinOf, MaxOf, GapOf;
    var s := InColumn(points, lo, hi, columns, c);
    ColumnHolds(points, lo, hi, columns, c);
    InColumnOrdered(points, lo, hi, columns, c);
    KeptPoints(s);
    if p in s {
      EndsAre(s, p);
      MinExactly(s, p);
      MaxExactly(s, p);
      GapIsFirst(s, p);
    }
  }
}
