/** The cache under every record, stream and payload read: `BoundedLru` of src/file.rs. */
module BoundedLru {
  import opened Options

  datatype Entry<K, V> = Entry(key: K, value: V, size: nat, lastUsed: nat)

  // ---------------------------------------------------------------- the cache as a list, oldest first

  /** `retain`: every entry but those under `key`, in the order they are in. */
  function Retained<K(==), V>(list: seq<Entry<K, V>>, key: K): (kept: seq<Entry<K, V>>)
    ensures forall i :: 0 <= i < |kept| ==> kept[i] in list && kept[i].key != key
    ensures |kept| <= |list|
  {
    if list == [] then [] else
      Retained(list[..|list| - 1], key) + if list[|list| - 1].key == key then [] else [list[|list| - 1]]
  }

  function Total<K, V>(list: seq<Entry<K, V>>): nat {
    if list == [] then 0 else list[0].size + Total(list[1..])
  }

  predicate Fits<K, V>(list: seq<Entry<K, V>>, maxEntries: nat, maxBytes: nat) {
    |list| <= maxEntries && Total(list) <= maxBytes
  }

  /** What is left of a list, oldest first, after eviction. */
  function Evicted<K, V>(list: seq<Entry<K, V>>, maxEntries: nat, maxBytes: nat): seq<Entry<K, V>> {
    if |list| <= 1 || Fits(list, maxEntries, maxBytes) then list else Evicted(list[1..], maxEntries, maxBytes)
  }

  /** The survivors are the longest run of the most recent entries that meets both bounds, or the newest entry alone. */
  lemma {:induction false} SurvivorsAreLongestSuffix<K, V>(list: seq<Entry<K, V>>, maxEntries: nat, maxBytes: nat) returns (k: nat)
    requires list != []
    ensures k < |list| && Evicted(list, maxEntries, maxBytes) == list[k..]
    ensures Fits(list[k..], maxEntries, maxBytes) || k == |list| - 1
    ensures forall j :: 0 <= j < k ==> !Fits(list[j..], maxEntries, maxBytes)
  {
    hide Fits;
    if |list| <= 1 || Fits(list, maxEntries, maxBytes) {
      k := 0;
      assert list[0..] == list;
    } else {
      var k' := SurvivorsAreLongestSuffix(list[1..], maxEntries, maxBytes);
      k := k' + 1;
      assert list[1..][k'..] == list[k..];
      forall j | 0 <= j < k ensures !Fits(list[j..], maxEntries, maxBytes) {
        if j == 0 { assert list[0..] == list; } else { assert list[1..][j - 1..] == list[j..]; }
      }
    }
  }

  // ---------------------------------------------------------------- lemmas about lists of entries

  ghost predicate Ascending<K, V>(list: seq<Entry<K, V>>, clock: nat) {
    && (forall i, j :: 0 <= i < j < |list| ==> list[i].lastUsed < list[j].lastUsed)
    && (forall i :: 0 <= i < |list| ==> list[i].lastUsed < clock)
  }

  ghost predicate DistinctKeys<K, V>(list: seq<Entry<K, V>>) {
    forall i, j :: 0 <= i < j < |list| ==> list[i].key != list[j].key
  }

  /** The same entries, in another order. */
  ghost predicate Rearranged<K, V>(a: seq<Entry<K, V>>, b: seq<Entry<K, V>>) {
    multiset(a) == multiset(b)
  }

  lemma {:induction false} RetainedCount<K, V>(list: seq<Entry<K, V>>, key: K, e: Entry<K, V>)
    ensures multiset(Retained(list, key))[e] == if e.key == key then 0 else multiset(list)[e]
  {
    if list != [] {
      var before, last := list[..|list| - 1], list[|list| - 1];
      RetainedCount(before, key, e);
      assert list == before + [last];
    }
  }

  lemma {:induction false} RetainedRearranged<K, V>(a: seq<Entry<K, V>>, b: seq<Entry<K, V>>, key: K)
    requires Rearranged(a, b)
    ensures Rearranged(Retained(a, key), Retained(b, key))
  {
    forall e ensures multiset(Retained(a, key))[e] == multiset(Retained(b, key))[e] {
      RetainedCount(a, key, e);
      RetainedCount(b, key, e);
    }
  }

  lemma {:induction false} OneMoreOrdered<K, V>(list: seq<Entry<K, V>>, last: Entry<K, V>, clock: nat)
    requires Ascending(list, clock) && DistinctKeys(list) && last.lastUsed < clock
    requires forall i :: 0 <= i < |list| ==> list[i].lastUsed < last.lastUsed && list[i].key != last.key
    ensures Ascending(list + [last], clock) && DistinctKeys(list + [last])
  {
  }

  lemma {:induction false} OrderedBefore<K, V>(list: seq<Entry<K, V>>, clock: nat, e: Entry<K, V>)
    requires Ascending(list, clock) && DistinctKeys(list) && list != [] && e in list[..|list| - 1]
    ensures e.lastUsed < list[|list| - 1].lastUsed < clock && e.key != list[|list| - 1].key
  {
    var k :| 0 <= k < |list| - 1 && list[k] == e;
  }

  lemma {:induction false} RetainedOrder<K, V>(list: seq<Entry<K, V>>, key: K, clock: nat)
    requires Ascending(list, clock) && DistinctKeys(list)
    ensures Ascending(Retained(list, key), clock) && DistinctKeys(Retained(list, key))
  {
    if list != [] {
      var before, last := list[..|list| - 1], list[|list| - 1];
      RetainedOrder(before, key, clock);
      forall e | e in Retained(before, key) ensures e.lastUsed < last.lastUsed && e.key != last.key {
        OrderedBefore(list, clock, e);
      }
      OneMoreOrdered(Retained(before, key), last, clock);
    }
  }

  lemma {:induction false} RemovedAt<K, V>(list: seq<Entry<K, V>>, at: nat)
    requires at < |list|
    ensures multiset(list[..at] + list[at + 1..]) == multiset(list) - multiset{list[at]}
  {
    assert list == list[..at] + [list[at]] + list[at + 1..];
  }

  lemma {:induction false} FirstOff<K, V>(list: seq<Entry<K, V>>)
    requires list != []
    ensures multiset(list[1..]) == multiset(list) - multiset{list[0]}
  {
    assert list == [list[0]] + list[1..];
  }

  /** The entry used least recently is the oldest of the list. */
  lemma {:induction false} LeastIsOldest<K, V>(entries: seq<Entry<K, V>>, recency: seq<Entry<K, V>>, clock: nat, at: nat)
    requires Rearranged(entries, recency) && Ascending(recency, clock) && at < |entries|
    requires forall i :: 0 <= i < |entries| ==> entries[at].lastUsed <= entries[i].lastUsed
    ensures recency != [] && entries[at] == recency[0]
  {
    assert entries[at] in multiset(recency);
    var k :| 0 <= k < |recency| && recency[k] == entries[at];
    assert recency[0] in multiset(entries);
    var i :| 0 <= i < |entries| && entries[i] == recency[0];
  }

  lemma {:induction false} TotalSplit<K, V>(a: seq<Entry<K, V>>, b: seq<Entry<K, V>>)
    ensures Total(a + b) == Total(a) + Total(b)
  {
    if a == [] {
      assert a + b == b;
    } else {
      assert (a + b)[1..] == a[1..] + b;
      TotalSplit(a[1..], b);
    }
  }

  lemma {:induction false} TotalWithout<K, V>(list: seq<Entry<K, V>>, k: nat)
    requires k < |list|
    ensures Total(list) == list[k].size + Total(list[..k] + list[k + 1..])
  {
    var tail := [list[k]] + list[k + 1..];
    TotalSplit(list[..k], list[k + 1..]);
    TotalSplit(list[..k], tail);
    assert list == list[..k] + tail && tail[1..] == list[k + 1..];
  }

  lemma {:induction false} TotalFirst<K, V>(list: seq<Entry<K, V>>)
    ensures Total(list) == if list == [] then 0 else list[0].size + Total(list[1..])
  {
  }

  /** Entries in another order are as many and as large. */
  lemma {:induction false} SameTotal<K, V>(a: seq<Entry<K, V>>, b: seq<Entry<K, V>>)
    requires Rearranged(a, b)
    ensures |a| == |b| && Total(a) == Total(b)
  {
    hide Total;
    assert |a| == |multiset(a)| && |b| == |multiset(b)|;
    TotalFirst(a);
    TotalFirst(b);
    if a != [] {
      assert a[0] in multiset(b);
      var k :| 0 <= k < |b| && b[k] == a[0];
      FirstOff(a);
      RemovedAt(b, k);
      SameTotal(a[1..], b[..k] + b[k + 1..]);
      TotalWithout(b, k);
    }
  }

  // ---------------------------------------------------------------- the cache

  /** Every value listed is the last one inserted under its key. */
  ghost predicate Filed<K, V>(list: seq<Entry<K, V>>, inserted: map<K, V>) {
    forall i :: 0 <= i < |list| ==> list[i].key in inserted && inserted[list[i].key] == list[i].value
  }

  ghost predicate HasKey<K, V>(list: seq<Entry<K, V>>, key: K) {
    exists i :: 0 <= i < |list| && list[i].key == key
  }

  /** The entry under a key has become the most recent; the others keep their order. */
  ghost predicate Touched<K, V>(before: seq<Entry<K, V>>, key: K, clock: nat, after: seq<Entry<K, V>>) {
    exists i :: 0 <= i < |before| && before[i].key == key
             && after == Retained(before, key) + [before[i].(lastUsed := clock)]
  }

  ghost predicate Holds<K, V>(entries: seq<Entry<K, V>>, recency: seq<Entry<K, V>>, clock: nat, inserted: map<K, V>) {
    Rearranged(entries, recency) && Ascending(recency, clock) && DistinctKeys(recency) && Filed(recency, inserted)
  }

  class Lru<K(==), V> {
    const maxEntries: nat
    const maxBytes: nat
    var entries: seq<Entry<K, V>>
    var clock: nat
    /** The entries from the least to the most recently used. */
    ghost var recency: seq<Entry<K, V>>
    /** The last value inserted under each key. */
    ghost var inserted: map<K, V>

    ghost predicate Valid()
      reads this
    {
      Holds(entries, recency, clock, inserted)
    }

    constructor (maxEntries: nat, maxBytes: nat)
      ensures Valid() && recency == [] && inserted == map[]
      ensures this.maxEntries == maxEntries && this.maxBytes == maxBytes
    {
      this.maxEntries, this.maxBytes, entries, clock, recency, inserted := maxEntries, maxBytes, [], 0, [], map[];
    }

    /** `iter().find`: the first entry under a key. */
    method Find(key: K) returns (at: Option<nat>)
      ensures at.Some? ==> at.value < |entries| && entries[at.value].key == key
      ensures at.Some? <==> HasKey(entries, key)
    {
      for i := 0 to |entries|
        invariant forall j :: 0 <= j < i ==> entries[j].key != key
      {
        if entries[i].key == key { return Some(i); }
      }
      at := None;
    }

    /** `get`. A hit gives the last value inserted under the key, and makes its entry the most recent; a miss changes
        nothing, and means that the entry has been evicted or was never there. */
    method Get(key: K) returns (r: Option<V>)
      requires Valid()
      modifies this`entries, this`clock, this`recency
      ensures Valid()
      ensures r.Some? ==> key in inserted && r == Some(inserted[key])
      ensures r.Some? <==> HasKey(old(recency), key)
      ensures r.None? ==> recency == old(recency) && entries == old(entries)
      ensures r.Some? ==> Touched(old(recency), key, old(clock), recency)
    {
      hide Ascending, DistinctKeys, Filed, Touched, HasKey, Retained;
      var at := Find(key);
      KeysAgree(entries, recency, key);
      if at.None? { return None; }
      var e := entries[at.value];
      var used := e.(lastUsed := clock);
      Used(entries, recency, at.value, used, clock, inserted);
      entries, recency := entries[at.value := used], Retained(recency, key) + [used];
      clock := clock + 1;
      r := Some(e.value);
    }

    /** `insert`. Afterwards the entries are the longest run of the most recent that meets both bounds, and at least the
        new one. */
    method Insert(key: K, value: V, size: nat)
      requires Valid()
      modifies this
      ensures Valid() && inserted == old(inserted)[key := value]
      ensures recency == Evicted(Retained(old(recency), key) + [Entry(key, value, size, old(clock))], maxEntries, maxBytes)
    {
      Added(entries, recency, Entry(key, value, size, clock), clock, inserted);
      entries, recency := Retained(entries, key) + [Entry(key, value, size, clock)],
                          Retained(recency, key) + [Entry(key, value, size, clock)];
      inserted := inserted[key := value];
      clock := clock + 1;
      Evict();
    }

    /** The loop of `insert`. */
    method Evict()
      requires Valid()
      modifies this`entries, this`recency
      ensures Valid() && recency == Evicted(old(recency), maxEntries, maxBytes)
    {
      hide DistinctKeys, Ascending;
      var total := Total(entries);
      SameTotal(entries, recency);
      while |entries| > 1 && (|entries| > maxEntries || total > maxBytes)
        invariant Valid() && |entries| == |recency| && total == Total(recency)
        invariant Evicted(recency, maxEntries, maxBytes) == Evicted(old(recency), maxEntries, maxBytes)
        decreases |entries|
      {
        var oldest := Oldest();
        LeastIsOldest(entries, recency, clock, oldest);
        Dropped(entries, recency, oldest, clock, inserted);
        total := total - entries[oldest].size;
        entries, recency := entries[..oldest] + entries[oldest + 1..], recency[1..];
      }
    }

    /** `min_by_key`: the first entry with the least stamp. */
    method Oldest() returns (at: nat)
      requires entries != []
      ensures at < |entries|
      ensures forall i :: 0 <= i < |entries| ==> entries[at].lastUsed <= entries[i].lastUsed
    {
      at := 0;
      for i := 1 to |entries|
        invariant at < |entries|
        invariant forall j :: 0 <= j < i ==> entries[at].lastUsed <= entries[j].lastUsed
      {
        if entries[i].lastUsed < entries[at].lastUsed { at := i; }
      }
    }
  }

  lemma {:induction false} Dropped<K, V>(entries: seq<Entry<K, V>>, recency: seq<Entry<K, V>>, at: nat, clock: nat, inserted: map<K, V>)
    requires Holds(entries, recency, clock, inserted) && at < |entries| && recency != [] && entries[at] == recency[0]
    ensures Holds(entries[..at] + entries[at + 1..], recency[1..], clock, inserted)
    ensures |entries[..at] + entries[at + 1..]| == |recency[1..]|
  {
    RemovedAt(entries, at);
    FirstOff(recency);
    assert |entries| == |multiset(entries)| && |recency| == |multiset(recency)|;
  }

  lemma {:induction false} KeysAgree<K, V>(a: seq<Entry<K, V>>, b: seq<Entry<K, V>>, key: K)
    requires Rearranged(a, b)
    ensures HasKey(a, key) <==> HasKey(b, key)
  {
    if HasKey(a, key) {
      var i :| 0 <= i < |a| && a[i].key == key;
      var k := IndexIn(a, b, i);
      assert b[k].key == key;
    }
    if HasKey(b, key) {
      var i :| 0 <= i < |b| && b[i].key == key;
      var k := IndexIn(b, a, i);
      assert a[k].key == key;
    }
  }

  lemma {:induction false} AppendedOrder<K, V>(list: seq<Entry<K, V>>, e: Entry<K, V>, clock: nat)
    requires Ascending(list, clock) && DistinctKeys(list) && e.lastUsed == clock
    requires forall i :: 0 <= i < |list| ==> list[i].key != e.key
    ensures Ascending(list + [e], clock + 1) && DistinctKeys(list + [e])
  {
  }

  lemma {:induction false} RetainedFiled<K, V>(list: seq<Entry<K, V>>, e: Entry<K, V>, inserted: map<K, V>, inserted': map<K, V>)
    requires Filed(list, inserted) && inserted' == inserted[e.key := e.value]
    ensures Filed(Retained(list, e.key) + [e], inserted')
  {
    var kept := Retained(list, e.key);
    forall i | 0 <= i < |kept| ensures kept[i].key in inserted' && inserted'[kept[i].key] == kept[i].value {
      assert kept[i] in list;
    }
  }

  lemma {:induction false} Added<K, V>(entries: seq<Entry<K, V>>, recency: seq<Entry<K, V>>, e: Entry<K, V>, clock: nat, inserted: map<K, V>)
    requires Holds(entries, recency, clock, inserted) && e.lastUsed == clock
    ensures Holds(Retained(entries, e.key) + [e], Retained(recency, e.key) + [e], clock + 1, inserted[e.key := e.value])
  {
    hide Ascending, DistinctKeys, Filed;
    RetainedRearranged(entries, recency, e.key);
    RetainedOrder(recency, e.key, clock);
    AppendedOrder(Retained(recency, e.key), e, clock);
    RetainedFiled(recency, e, inserted, inserted[e.key := e.value]);
  }

  lemma {:induction false} UpdatedAt<K, V>(list: seq<Entry<K, V>>, at: nat, e: Entry<K, V>)
    requires at < |list|
    ensures multiset(list[at := e]) == multiset(list) - multiset{list[at]} + multiset{e}
  {
  }

  lemma {:induction false} RetainedDropsOne<K, V>(list: seq<Entry<K, V>>, k: nat)
    requires DistinctKeys(list) && k < |list|
    ensures multiset(Retained(list, list[k].key)) == multiset(list) - multiset{list[k]}
  {
    hide DistinctKeys;
    var left, right := multiset(Retained(list, list[k].key)), multiset(list) - multiset{list[k]};
    forall x ensures left[x] == right[x] {
      RetainedCount(list, list[k].key, x);
      OnlyUnderKey(list, k, x);
    }
  }

  lemma {:induction false} IndexIn<K, V>(a: seq<Entry<K, V>>, b: seq<Entry<K, V>>, at: nat) returns (k: nat)
    requires Rearranged(a, b) && at < |a|
    ensures k < |b| && b[k] == a[at]
  {
    assert a[at] in multiset(b);
    k :| 0 <= k < |b| && b[k] == a[at];
  }

  lemma {:induction false} Used<K, V>(entries: seq<Entry<K, V>>, recency: seq<Entry<K, V>>, at: nat, used: Entry<K, V>,
                                      clock: nat, inserted: map<K, V>)
    requires Holds(entries, recency, clock, inserted) && at < |entries| && used == entries[at].(lastUsed := clock)
    ensures Holds(entries[at := used], Retained(recency, used.key) + [used], clock + 1, inserted)
    ensures used.key in inserted && inserted[used.key] == used.value
    ensures Touched(recency, used.key, clock, Retained(recency, used.key) + [used])
  {
    var k := IndexIn(entries, recency, at);
    assert used.key in inserted && inserted[used.key] == used.value;
    hide Ascending, DistinctKeys, Filed;
    UpdatedAt(entries, at, used);
    RetainedDropsOne(recency, k);
    RetainedOrder(recency, used.key, clock);
    AppendedOrder(Retained(recency, used.key), used, clock);
    RetainedFiled(recency, used, inserted, inserted[used.key := used.value]);
    assert inserted[used.key := used.value] == inserted;
  }

  lemma {:induction false} OnlyUnderKey<K, V>(list: seq<Entry<K, V>>, k: nat, x: Entry<K, V>)
    requires DistinctKeys(list) && k < |list|
    ensures x.key == list[k].key ==> multiset(list)[x] == if x == list[k] then 1 else 0
  {
    if x.key == list[k].key {
      RemovedAt(list, k);
      var others := list[..k] + list[k + 1..];
      forall i | 0 <= i < |others| ensures others[i] != x {
        assert others[i] == if i < k then list[i] else list[i + 1];
      }
      assert x !in multiset(others);
    }
  }
}
