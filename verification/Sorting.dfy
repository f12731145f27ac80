/** The stable sort of the standard library, and what it commutes with. */
module Sorting {

  ghost predicate TotalPreorder<T(!new)>(le: (T, T) -> bool) {
    && (forall x, y :: le(x, y) || le(y, x))
    && (forall x, y, z :: le(x, y) && le(y, z) ==> le(x, z))
  }

  ghost predicate SortedBy<T>(s: seq<T>, le: (T, T) -> bool) {
    forall i, j :: 0 <= i < j < |s| ==> le(s[i], s[j])
  }

  /** Places `x` before the first element it may precede. */
  function Insert<T>(x: T, s: seq<T>, le: (T, T) -> bool): seq<T> {
    if s == [] || le(x, s[0]) then [x] + s else [s[0]] + Insert(x, s[1..], le)
  }

  /** `slice::sort_by`: elements that may precede each other keep their order. */
  function Sort<T>(s: seq<T>, le: (T, T) -> bool): seq<T> {
    if s == [] then [] else Insert(s[0], Sort(s[1..], le), le)
  }

  function Filter<T>(s: seq<T>, keep: T -> bool): seq<T> {
    if s == [] then [] else if keep(s[0]) then [s[0]] + Filter(s[1..], keep) else Filter(s[1..], keep)
  }

  lemma {:induction false} InsertContents<T>(x: T, s: seq<T>, le: (T, T) -> bool)
    ensures multiset(Insert(x, s, le)) == multiset(s) + multiset{x}
  {
    if s == [] || le(x, s[0]) {
    } else {
      InsertContents(x, s[1..], le);
      assert s == [s[0]] + s[1..];
    }
  }

  lemma {:induction false} SortContents<T>(s: seq<T>, le: (T, T) -> bool)
    ensures multiset(Sort(s, le)) == multiset(s)
  {
    if s != [] {
      SortContents(s[1..], le);
      InsertContents(s[0], Sort(s[1..], le), le);
      assert s == [s[0]] + s[1..];
    }
  }

  lemma {:induction false} SortElements<T>(s: seq<T>, le: (T, T) -> bool)
    ensures |Sort(s, le)| == |s|
    ensures forall k :: 0 <= k < |s| ==> Sort(s, le)[k] in s
  {
    var sorted := Sort(s, le);
    SortContents(s, le);
    assert |multiset(sorted)| == |sorted| && |multiset(s)| == |s|;
    forall k | 0 <= k < |s| ensures sorted[k] in s {
      assert sorted[k] in multiset(sorted);
    }
  }

  lemma {:induction false} InsertSorted<T(!new)>(x: T, s: seq<T>, le: (T, T) -> bool)
    requires TotalPreorder(le) && SortedBy(s, le)
    ensures SortedBy(Insert(x, s, le), le)
  {
    if s == [] {
    } else if le(x, s[0]) {
      assert forall j :: 0 <= j < |s| ==> le(x, s[j]);
    } else {
      InsertSorted(x, s[1..], le);
      var rest := Insert(x, s[1..], le);
      InsertContents(x, s[1..], le);
      forall j | 0 <= j < |rest| ensures le(s[0], rest[j]) {
        assert rest[j] in multiset(rest);
        assert rest[j] == x || rest[j] in s[1..];
      }
    }
  }

  lemma {:induction false} SortSorts<T(!new)>(s: seq<T>, le: (T, T) -> bool)
    requires TotalPreorder(le)
    ensures SortedBy(Sort(s, le), le)
  {
    if s != [] {
      SortSorts(s[1..], le);
      InsertSorted(s[0], Sort(s[1..], le), le);
    }
  }

  /** A slice that is already in order is left as it is. */
  lemma {:induction false} SortOfSorted<T(!new)>(s: seq<T>, le: (T, T) -> bool)
    requires SortedBy(s, le)
    ensures Sort(s, le) == s
  {
    if s != [] {
      SortOfSorted(s[1..], le);
    }
  }

  lemma {:induction false} FilterAll<T>(s: seq<T>, keep: T -> bool, le: (T, T) -> bool, x: T)
    requires forall y :: y in s ==> le(x, y)
    ensures forall y :: y in Filter(s, keep) ==> le(x, y)
  {
    if s != [] {
      FilterAll(s[1..], keep, le, x);
    }
  }

  lemma {:induction false} InsertFilter<T(!new)>(x: T, s: seq<T>, keep: T -> bool, le: (T, T) -> bool)
    requires TotalPreorder(le) && SortedBy(s, le)
    ensures Filter(Insert(x, s, le), keep) == if keep(x) then Insert(x, Filter(s, keep), le) else Filter(s, keep)
  {
    if s == [] {
      assert Insert(x, s, le) == [x];
    } else if le(x, s[0]) {
      assert ([x] + s)[1..] == s;
      assert forall y :: y in s ==> le(x, y);
      FilterAll(s, keep, le, x);
    } else {
      var tail := Insert(x, s[1..], le);
      InsertFilter(x, s[1..], keep, le);
      assert Filter([s[0]] + tail, keep) == if keep(s[0]) then [s[0]] + Filter(tail, keep) else Filter(tail, keep) by {
        assert ([s[0]] + tail)[1..] == tail;
      }
      if keep(s[0]) {
        assert ([s[0]] + Filter(s[1..], keep))[1..] == Filter(s[1..], keep);
      }
    }
  }

  /** Sorting and then picking some elements out is picking them out and then sorting. */
  lemma {:induction false} SortFilter<T(!new)>(s: seq<T>, keep: T -> bool, le: (T, T) -> bool)
    requires TotalPreorder(le)
    ensures Filter(Sort(s, le), keep) == Sort(Filter(s, keep), le)
  {
    if s != [] {
      var tail := Sort(s[1..], le);
      var kept := Filter(s[1..], keep);
      assert Filter(tail, keep) == Sort(kept, le) by { SortFilter(s[1..], keep, le); }
      assert Filter(Insert(s[0], tail, le), keep)
          == if keep(s[0]) then Insert(s[0], Filter(tail, keep), le) else Filter(tail, keep) by {
        SortSorts(s[1..], le);
        InsertFilter(s[0], tail, keep, le);
      }
      assert Sort([s[0]] + kept, le) == Insert(s[0], Sort(kept, le), le) by {
        assert ([s[0]] + kept)[1..] == kept;
      }
    }
  }

  /** Under an order without ties, two sorted sequences with the same contents are the same. */
  lemma {:induction false} SortedUnique<T(!new)>(s: seq<T>, t: seq<T>, le: (T, T) -> bool)
    requires TotalPreorder(le) && (forall x, y :: le(x, y) && le(y, x) ==> x == y)
    requires SortedBy(s, le) && SortedBy(t, le) && multiset(s) == multiset(t)
    ensures s == t
  {
    assert |multiset(s)| == |s| && |multiset(t)| == |t|;
    if s != [] {
      LeastFirst(s, t, le);
      LeastFirst(t, s, le);
      WithoutFirst(s);
      WithoutFirst(t);
      SortedUnique(s[1..], t[1..], le);
      assert s == [s[0]] + s[1..] && t == [t[0]] + t[1..];
    }
  }

  lemma {:induction false} LeastFirst<T(!new)>(s: seq<T>, t: seq<T>, le: (T, T) -> bool)
    requires TotalPreorder(le) && SortedBy(s, le) && s != [] && t != [] && multiset(s) == multiset(t)
    ensures le(s[0], t[0])
  {
    assert t[0] in multiset(t);
    var i :| 0 <= i < |s| && s[i] == t[0];
  }

  lemma {:induction false} WithoutFirst<T>(s: seq<T>)
    requires s != []
    ensures multiset(s[1..]) == multiset(s) - multiset{s[0]}
  {
    assert s == [s[0]] + s[1..];
  }

  function Map<S, T>(s: seq<S>, f: S -> T): (t: seq<T>)
    ensures |t| == |s|
    ensures forall i :: 0 <= i < |s| ==> t[i] == f(s[i])
  {
    if s == [] then [] else [f(s[0])] + Map(s[1..], f)
  }

  /** Insertion only ever compares an element with those that came after it. */
  lemma {:induction false} InsertMap<S, T>(x: S, s: seq<S>, f: S -> T, le: (S, S) -> bool, le': (T, T) -> bool)
    requires forall y :: y in s ==> (le(x, y) <==> le'(f(x), f(y)))
    ensures Map(Insert(x, s, le), f) == Insert(f(x), Map(s, f), le')
  {
    if s == [] || le(x, s[0]) {
      assert ([x] + s)[1..] == s;
    } else {
      InsertMap(x, s[1..], f, le, le');
      assert Map(s, f)[1..] == Map(s[1..], f);
      assert ([s[0]] + Insert(x, s[1..], le))[1..] == Insert(x, s[1..], le);
    }
  }

  /** Sorting commutes with renaming the elements, if the orders agree on each element and those behind it. */
  lemma {:induction false} SortMap<S(!new), T>(s: seq<S>, f: S -> T, le: (S, S) -> bool, le': (T, T) -> bool)
    requires forall i, j :: 0 <= i < j < |s| ==> (le(s[i], s[j]) <==> le'(f(s[i]), f(s[j])))
    ensures Map(Sort(s, le), f) == Sort(Map(s, f), le')
  {
    if s != [] {
      SortMap(s[1..], f, le, le');
      SortContents(s[1..], le);
      forall y | y in Sort(s[1..], le) ensures le(s[0], y) <==> le'(f(s[0]), f(y)) {
        assert y in multiset(s[1..]);
      }
      InsertMap(s[0], Sort(s[1..], le), f, le, le');
      assert Map(s, f)[1..] == Map(s[1..], f);
    }
  }
}
