/** The listing of a written file: every block once, each with its one referrer, no gap and no warning. */
module CleanWalk {
  import opened Bytes
  import opened BlockFormat
  import opened LinkTree
  import opened WrittenFile
  import W = BlockWalk

  // ---------------------------------------------------------------- addresses

  ghost predicate StrictlyUp(s: seq<nat>) {
    forall i, j :: 0 <= i < j < |s| ==> s[i] < s[j]
  }

  ghost predicate Within(a: seq<nat>, b: seq<nat>) {
    forall i :: 0 <= i < |a| ==> a[i] in b
  }

  /** An ascending sequence has no more elements than one that has them all; and with as many, it is that one. */
  lemma {:induction false} UpWithin(a: seq<nat>, b: seq<nat>)
    requires StrictlyUp(a) && StrictlyUp(b) && Within(a, b)
    ensures |a| <= |b|
    ensures |a| == |b| ==> a == b
  {
    if a != [] {
      var n := |a| - 1;
      assert a[n] in b;
      var k :| 0 <= k < |b| && b[k] == a[n];
      forall i | 0 <= i < n ensures a[..n][i] in b[..k] {
        assert a[i] in b && a[i] < a[n];
        var j :| 0 <= j < |b| && b[j] == a[i];
        assert b[..k][j] == a[i];
      }
      UpWithin(a[..n], b[..k]);
      if |a| == |b| {
        assert a == a[..n] + [a[n]] && b == b[..k] + [b[k]];
      }
    }
  }

  /** Where the listing is to have an entry: the ID block, then every block. */
  ghost function Wanted(blocks: seq<Blk>): (s: seq<nat>)
    ensures |s| == |blocks| + 1
  {
    seq(|blocks| + 1, i requires 0 <= i <= |blocks| => if i == 0 then 0 else StartOf(ID_END, blocks, i - 1))
  }

  ghost function Addresses(m: W.BlockMap): (s: seq<nat>)
    ensures |s| == |m.blocks|
  {
    seq(|m.blocks|, i requires 0 <= i < |m.blocks| => m.blocks[i].block.address)
  }

  lemma {:induction false} WantedUp(blocks: seq<Blk>)
    ensures StrictlyUp(Wanted(blocks))
    ensures forall a: nat :: a in Wanted(blocks) <==> a == 0 || IsStart(blocks, a)
  {
    hide StartOf;
    var s := Wanted(blocks);
    forall i, j | 0 <= i < j < |s| ensures s[i] < s[j] {
      if i == 0 { StartsPastId(blocks, j - 1); } else { StartsAscend(ID_END, blocks, i - 1, j - 1); }
    }
    forall a: nat ensures a in s <==> a == 0 || IsStart(blocks, a) {
      assert s[0] == 0;
      if IsStart(blocks, a) {
        var i :| 0 <= i < |blocks| && StartOf(ID_END, blocks, i) == a;
        assert s[i + 1] == a;
      }
      if a in s && a != 0 {
        var i :| 0 <= i < |s| && s[i] == a;
        assert StartOf(ID_END, blocks, i - 1) == a;
      }
    }
  }

  lemma {:induction false} ListedInAddresses(m: W.BlockMap, a: nat)
    ensures W.Listed(m, a) <==> a in Addresses(m)
  {
    if W.Listed(m, a) {
      var b :| b in m.blocks && b.block.address == a;
      var i :| 0 <= i < |m.blocks| && m.blocks[i] == b;
      assert Addresses(m)[i] == a;
    }
    if a in Addresses(m) {
      var i :| 0 <= i < |m.blocks| && Addresses(m)[i] == a;
      assert m.blocks[i] in m.blocks;
    }
  }

  /** What is taken from `Describes` here. */
  ghost predicate True(f: W.File, m: W.BlockMap) {
    && W.Ascending(m.blocks)
    && forall i :: 0 <= i < |m.blocks| ==> W.TrueEntry(W.GraphOf(f), m, m.blocks[i])
  }

  lemma {:induction false} DescribesTruly(f: W.File, m: W.BlockMap)
    requires W.Describes(f, m)
    ensures True(f, m)
  {
    hide W.TrueEntry, W.ListsEverything, W.WarnsExactly, W.GapsExactly, W.StoppedShort;
    forall i | 0 <= i < |m.blocks| ensures W.TrueEntry(W.GraphOf(f), m, m.blocks[i]) {
      assert m.blocks[i] in m.blocks;
    }
  }

  lemma {:induction false} OnlyWanted(f: W.File, id: seq<byte>, blocks: seq<Blk>, m: W.BlockMap)
    requires Laid(f, id, blocks) && True(f, m)
    ensures StrictlyUp(Addresses(m)) && Within(Addresses(m), Wanted(blocks))
  {
    hide Serialized, Tree, AllHonest, W.Reachable, Wanted;
    FileIsMapped(f, id, blocks);
    WantedUp(blocks);
    forall i | 0 <= i < |m.blocks| ensures Addresses(m)[i] in Wanted(blocks) {
      assert W.TrueEntry(W.GraphOf(f), m, m.blocks[i]);
      ReachableIsStart(W.GraphOf(f), blocks, m.blocks[i].block.address);
    }
  }

  /** The walk follows only links that land on blocks. */
  lemma {:induction false} FollowedLands(f: W.File, id: seq<byte>, blocks: seq<Blk>, r: nat, t: nat)
    requires Laid(f, id, blocks) && W.Followed(W.GraphOf(f), r, t)
    ensures IsStart(blocks, t) && W.GraphOf(f).verdict(t).Block?
  {
    hide Serialized, Tree, AllHonest, W.Reachable, W.Edge, W.Judge, W.GraphOf, FieldsOf;
    FileIsMapped(f, id, blocks);
    var g := W.GraphOf(f);
    if r == 0 && t == ID_END {
      assert blocks[..0] == [] && StartOf(ID_END, blocks, 0) == ID_END;
    } else {
      ReachableIsStart(g, blocks, r);
      EdgeLands(g, blocks, r, t);
    }
    var i :| 0 <= i < |blocks| && StartOf(ID_END, blocks, i) == t;
    assert g.verdict(StartOf(ID_END, blocks, i)).Block?;
  }

  /** Within the cap the walk does not stop short, and lists exactly the blocks there are. */
  lemma {:induction false} ListsAll(f: W.File, id: seq<byte>, blocks: seq<Blk>, m: W.BlockMap)
    requires Laid(f, id, blocks) && W.Describes(f, m)
    requires |blocks| + 1 <= W.MAX_BLOCKS || W.Stopped !in m.warnings
    ensures W.Stopped !in m.warnings && Addresses(m) == Wanted(blocks)
  {
    hide Laid, W.Followed, Wanted, Addresses, W.WarnsExactly, W.GapsExactly, W.TrueEntry, W.GraphOf, W.SaturatingSum;
    DescribesTruly(f, m);
    OnlyWanted(f, id, blocks, m);
    WantedUp(blocks);
    UpWithin(Addresses(m), Wanted(blocks));
    if W.Stopped in m.warnings {
      var r: nat, t: nat :| W.Followed(W.GraphOf(f), r, t) && !W.Listed(m, t);
      FollowedLands(f, id, blocks, r, t);
      ListedInAddresses(m, t);
      assert false;
    }
    AllWanted(f, id, blocks, m);
    UpWithin(Wanted(blocks), Addresses(m));
  }

  lemma {:induction false} AllWanted(f: W.File, id: seq<byte>, blocks: seq<Blk>, m: W.BlockMap)
    requires Laid(f, id, blocks) && W.ListsEverything(W.GraphOf(f), m)
    ensures Within(Wanted(blocks), Addresses(m))
  {
    hide Serialized, Tree, AllHonest, W.Reachable, Wanted, Addresses;
    FileIsMapped(f, id, blocks);
    WantedUp(blocks);
    forall i | 0 <= i < |Wanted(blocks)| ensures Wanted(blocks)[i] in Addresses(m) {
      var a := Wanted(blocks)[i];
      assert a in Wanted(blocks);
      ReachableIsStart(W.GraphOf(f), blocks, a);
      ListedInAddresses(m, a);
    }
  }

  // ---------------------------------------------------------------- referrers

  /** Block `i` is listed with exactly the block whose link names it. */
  ghost predicate HasParent(blocks: seq<Blk>, i: nat, referencedBy: seq<nat>)
    requires i < |blocks|
  {
    exists p, slot ::
      && 0 <= p < i && Names(blocks, p, slot, (StartOf(ID_END, blocks, i), blocks[i].kind))
      && referencedBy == [StartOf(ID_END, blocks, p)]
  }

  lemma {:induction false} OnlyElement(s: seq<nat>, x: nat)
    requires W.Distinct(s) && x in s && forall y :: y in s ==> y == x
    ensures s == [x]
  {
    forall k | 0 <= k < |s| ensures s[k] == x {
      assert s[k] in s;
    }
    if |s| > 1 { DistinctAt(s, 0, 1); }
  }

  lemma {:induction false} DistinctAt(s: seq<nat>, i: nat, j: nat)
    requires W.Distinct(s) && i < j < |s|
    ensures s[i] != s[j]
  {
  }

  /** A listed referrer of block `i` is the start of a block with a link to it. */
  lemma {:induction false} ReferrerLinks(g: W.Graph, blocks: seq<Blk>, i: nat, r: nat) returns (p: nat, slot: nat)
    requires Mapped(g, blocks) && Tree(ID_END, blocks, HD) && i < |blocks|
    requires IsStart(blocks, r) && W.Edge(g, r, StartOf(ID_END, blocks, i))
    ensures p < i && StartOf(ID_END, blocks, p) == r
    ensures Names(blocks, p, slot, (StartOf(ID_END, blocks, i), blocks[i].kind))
  {
    hide Tree, Mapped, W.Edge;
    var t := StartOf(ID_END, blocks, i);
    p :| 0 <= p < |blocks| && StartOf(ID_END, blocks, p) == r;
    EdgeIsLink(g, blocks, p, t);
    slot :| 0 <= slot < |blocks[p].links| && blocks[p].links[slot].To? && blocks[p].links[slot].target == t;
    var j := LinkLands(ID_END, blocks, HD, p, slot);
    if j < i { StartsAscend(ID_END, blocks, j, i); }
    if i < j { StartsAscend(ID_END, blocks, i, j); }
  }

  lemma {:induction false} Referrers(g: W.Graph, blocks: seq<Blk>, m: W.BlockMap, i: nat, b: W.Raw)
    requires Mapped(g, blocks) && Tree(ID_END, blocks, HD) && i < |blocks|
    requires W.ListsEverything(g, m) && b in m.blocks && b.block.address == StartOf(ID_END, blocks, i) && W.TrueEntry(g, m, b)
    requires forall a: nat :: W.Listed(m, a) <==> a == 0 || IsStart(blocks, a)
    ensures i == 0 ==> b.referencedBy == []
    ensures i > 0 ==> HasParent(blocks, i, b.referencedBy)
  {
    hide Tree, Mapped, IsStart, StartOf, W.Listed, W.Reachable;
    var t := StartOf(ID_END, blocks, i);
    forall r | r in b.referencedBy ensures IsStart(blocks, r) {
      assert W.Edge(g, r, t);
    }
    if i == 0 {
      if b.referencedBy != [] {
        var r := b.referencedBy[0];
        assert r in b.referencedBy;
        var p, slot := ReferrerLinks(g, blocks, i, r);
        assert false;
      }
    } else {
      var p, slot := HasReferrer(ID_END, blocks, HD, i);
      var from := StartOf(ID_END, blocks, p);
      StartIsStart(blocks, p);
      EdgeFrom(g, blocks, p, slot, t);
      assert W.Listed(m, from);
      forall r | r in b.referencedBy ensures r == from {
        var p', slot' := ReferrerLinks(g, blocks, i, r);
        OneReferrer(ID_END, blocks, HD, p, slot, p', slot');
      }
      OnlyElement(b.referencedBy, from);
    }
  }

  lemma {:induction false} StartIsStart(blocks: seq<Blk>, i: nat)
    requires i < |blocks|
    ensures IsStart(blocks, StartOf(ID_END, blocks, i))
  {
  }

  lemma {:induction false} EdgeFrom(g: W.Graph, blocks: seq<Blk>, p: nat, slot: nat, t: nat)
    requires Mapped(g, blocks) && Tree(ID_END, blocks, HD) && p < |blocks|
    requires slot < |blocks[p].links| && blocks[p].links[slot].To? && blocks[p].links[slot].target == t
    ensures W.Edge(g, StartOf(ID_END, blocks, p), t)
  {
    hide Tree, Mapped, W.Edge, StartOf;
    EdgeIsLink(g, blocks, p, t);
  }

  // ---------------------------------------------------------------- gaps, sizes, warnings

  lemma {:induction false} FirstStart(blocks: seq<Blk>)
    ensures StartOf(ID_END, blocks, 0) == ID_END
  {
    assert blocks[..0] == [];
  }

  lemma {:induction false} CoveringBlock(blocks: seq<Blk>, n: nat, x: nat) returns (i: nat)
    requires n <= |blocks| && ID_END <= x < StartOf(ID_END, blocks, n)
    ensures i < n && StartOf(ID_END, blocks, i) <= x < StartOf(ID_END, blocks, i) + Size(blocks[i])
  {
    hide Size;
    FirstStart(blocks);
    if n == 0 { assert false; }
    StartNext(ID_END, blocks, n - 1);
    if x < StartOf(ID_END, blocks, n - 1) {
      i := CoveringBlock(blocks, n - 1, x);
    } else {
      i := n - 1;
    }
  }

  /** The entries of the listing: the ID block, then each block as it was emitted, at the place it was emitted. */
  ghost predicate Entries(f: W.File, blocks: seq<Blk>, listed: seq<W.Raw>) {
    && |f| >= ID_END && |listed| == |blocks| + 1
    && listed[0].block == W.IdFields(f) && listed[0].referencedBy == []
    && forall i :: 0 <= i < |blocks| ==>
        && listed[i + 1].block == FieldsOf(blocks[i], StartOf(ID_END, blocks, i))
        && if i == 0 then listed[i + 1].referencedBy == [] else HasParent(blocks, i, listed[i + 1].referencedBy)
  }

  lemma {:induction false} EntriesAreTrue(f: W.File, id: seq<byte>, blocks: seq<Blk>, m: W.BlockMap)
    requires Laid(f, id, blocks) && True(f, m) && W.ListsEverything(W.GraphOf(f), m)
    requires Addresses(m) == Wanted(blocks)
    ensures Entries(f, blocks, m.blocks)
  {
    hide Serialized, Tree, AllHonest, W.Reachable, FieldsOf, HasParent, W.ListsEverything, StartOf, W.IdFields, W.Judge, W.BlockFields;
    var g := W.GraphOf(f);
    FileIsMapped(f, id, blocks);
    forall a: nat ensures W.Listed(m, a) <==> a == 0 || IsStart(blocks, a) {
      hide Wanted, Addresses, W.Listed, IsStart;
      ListedInAddresses(m, a);
      WantedUp(blocks);
    }
    assert W.TrueEntry(g, m, m.blocks[0]) && Addresses(m)[0] == Wanted(blocks)[0] == 0;
    forall i | 0 <= i < |blocks|
      ensures m.blocks[i + 1].block == FieldsOf(blocks[i], StartOf(ID_END, blocks, i))
      ensures if i == 0 then m.blocks[i + 1].referencedBy == [] else HasParent(blocks, i, m.blocks[i + 1].referencedBy)
    {
      var b := m.blocks[i + 1];
      assert b.block.address == Addresses(m)[i + 1] == Wanted(blocks)[i + 1] == StartOf(ID_END, blocks, i);
      assert W.TrueEntry(g, m, b);
      assert b.block == g.fields(b.block.address) == FieldsOf(blocks[i], StartOf(ID_END, blocks, i));
      hide W.TrueEntry, Wanted, Addresses, IsStart, W.Listed;
      Referrers(g, blocks, m, i, b);
    }
  }

  lemma {:induction false} EverythingCovered(f: W.File, id: seq<byte>, blocks: seq<Blk>, listed: seq<W.Raw>, x: nat)
    requires Laid(f, id, blocks) && Entries(f, blocks, listed) && x < |f|
    ensures W.Covered(listed, x)
  {
    hide Serialized, Tree, AllHonest, HasParent, Extent, Size;
    if x < ID_END {
      assert listed[0] in listed && W.Covers(listed[0], x);
    } else {
      RunEnd(ID_END, blocks);
      var i := CoveringBlock(blocks, |blocks|, x);
      assert listed[i + 1] in listed && W.Covers(listed[i + 1], x);
    }
  }

  lemma {:induction false} NoGaps(f: W.File, id: seq<byte>, blocks: seq<Blk>, m: W.BlockMap)
    requires Laid(f, id, blocks) && Entries(f, blocks, m.blocks) && W.GapsExactly(m) && m.fileSize == |f|
    ensures m.gaps == []
  {
    hide Laid, Entries, W.Covered;
    if m.gaps != [] {
      var gap := m.gaps[0];
      assert gap in m.gaps && W.InGap(m.gaps, gap.address);
      EverythingCovered(f, id, blocks, m.blocks, gap.address);
      assert false;
    }
  }

  lemma {:induction false} ListedTotal(blocks: seq<Blk>, listed: seq<W.Raw>, n: nat)
    requires n <= |blocks| && |listed| == |blocks| + 1 && listed[0].block.length == ID_END
    requires forall i :: 0 <= i < |blocks| ==> listed[i + 1].block.length == Size(blocks[i])
    requires StartOf(ID_END, blocks, n) < U64_LIMIT
    ensures W.SaturatingSum(listed[..n + 1]) == StartOf(ID_END, blocks, n)
  {
    hide Size;
    assert listed[..n + 1][..n] == listed[..n] && listed[..n + 1][n] == listed[n];
    if n == 0 {
      assert listed[..0] == [] && blocks[..0] == [];
    } else {
      StartNext(ID_END, blocks, n - 1);
      ListedTotal(blocks, listed, n - 1);
    }
  }

  lemma {:induction false} AllBytesCounted(f: W.File, id: seq<byte>, blocks: seq<Blk>, listed: seq<W.Raw>)
    requires Laid(f, id, blocks) && Entries(f, blocks, listed)
    ensures W.SaturatingSum(listed) == |f|
  {
    hide Serialized, Tree, AllHonest, HasParent, Extent, Size, W.SaturatingSum;
    RunEnd(ID_END, blocks);
    ListedTotal(blocks, listed, |blocks|);
    assert listed[..|blocks| + 1] == listed;
  }

  lemma {:induction false} NoWarnings(f: W.File, id: seq<byte>, blocks: seq<Blk>, m: W.BlockMap)
    requires Laid(f, id, blocks) && W.WarnsExactly(W.GraphOf(f), m) && W.Stopped !in m.warnings
    ensures m.warnings == []
  {
    if m.warnings != [] {
      hide Laid, W.Followed, W.Edge, W.Reachable, W.LinksToItself;
      var w := m.warnings[0];
      assert w in m.warnings;
      FileHasId(f, id, blocks);
      match w
      case ShortFile => assert false;
      case Stopped => assert false;
      case BadTarget(r, t, fault) => FollowedLands(f, id, blocks, r, t); assert false;
      case SelfLink(a, i) => NoSelfLink(f, id, blocks, a, i); assert false;
    }
  }

  lemma {:induction false} FileHasId(f: W.File, id: seq<byte>, blocks: seq<Blk>)
    requires Laid(f, id, blocks)
    ensures W.GraphOf(f).hasId
  {
  }

  lemma {:induction false} NoSelfLink(f: W.File, id: seq<byte>, blocks: seq<Blk>, a: nat, k: nat)
    requires Laid(f, id, blocks) && W.Reachable(W.GraphOf(f), a)
    ensures !W.LinksToItself(W.GraphOf(f), a, k)
  {
    hide Serialized, Tree, AllHonest, W.Reachable, W.Judge, W.BlockFields, StartOf;
    var g := W.GraphOf(f);
    FileIsMapped(f, id, blocks);
    ReachableIsStart(g, blocks, a);
    var i :| 0 <= i < |blocks| && StartOf(ID_END, blocks, i) == a;
    if W.LinksToItself(g, a, k) {
      assert g.fields(a) == FieldsOf(blocks[i], a);
      var j := LinkLands(ID_END, blocks, HD, i, k);
      StartsAscend(ID_END, blocks, i, j);
      assert false;
    }
  }

  /** What the walk reports of a written file. */
  ghost predicate Clean(f: W.File, blocks: seq<Blk>, m: W.BlockMap) {
    && Entries(f, blocks, m.blocks)
    && m.gaps == [] && m.warnings == []
    && m.fileSize == |f| && m.coveredBytes == |f|
  }

  /** A written file walks cleanly: whatever describes the file lists the ID block and every emitted block once, in
      place, each block but the first with the one block that links to it; there is no gap, no warning, and every
      byte is counted. */
  lemma {:induction false} WrittenFileWalksCleanly(f: W.File, id: seq<byte>, blocks: seq<Blk>, m: W.BlockMap)
    requires Laid(f, id, blocks) && W.Describes(f, m)
    requires |blocks| + 1 <= W.MAX_BLOCKS || W.Stopped !in m.warnings
    ensures Clean(f, blocks, m)
  {
    hide Laid, Entries, W.WarnsExactly, W.GapsExactly, W.TrueEntry, W.GraphOf, W.SaturatingSum, W.ListsEverything;
    ListsAll(f, id, blocks, m);
    DescribesTruly(f, m);
    EntriesAreTrue(f, id, blocks, m);
    NoGaps(f, id, blocks, m);
    NoWarnings(f, id, blocks, m);
    AllBytesCounted(f, id, blocks, m.blocks);
  }
}
