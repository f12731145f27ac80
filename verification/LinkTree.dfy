/** A run of blocks whose links name each block once is a tree hanging from its first block. */
module LinkTree {
  import opened Bytes
  import opened BlockFormat

  /** Where block `i` of a run from `at` on begins. */
  function StartOf(at: nat, blocks: seq<Blk>, i: nat): nat
    requires i <= |blocks|
  {
    at + Extent(blocks[..i])
  }

  lemma {:induction false} StartNext(at: nat, blocks: seq<Blk>, i: nat)
    requires i < |blocks|
    ensures StartOf(at, blocks, i + 1) == StartOf(at, blocks, i) + Size(blocks[i])
  {
    assert blocks[..i + 1][..i] == blocks[..i];
  }

  /** Blocks begin one after another, each behind the one before. */
  lemma {:induction false} StartsAscend(at: nat, blocks: seq<Blk>, i: nat, j: nat)
    requires i < j <= |blocks|
    ensures StartOf(at, blocks, i) + Size(blocks[i]) <= StartOf(at, blocks, j)
    decreases j
  {
    StartNext(at, blocks, j - 1);
    if i < j - 1 { StartsAscend(at, blocks, i, j - 1); }
  }

  lemma {:induction false} RunEnd(at: nat, blocks: seq<Blk>)
    ensures StartOf(at, blocks, |blocks|) == at + Extent(blocks)
  {
    assert blocks[..|blocks|] == blocks;
  }

  // ---------------------------------------------------------------- what the multisets count

  /** A place among the first `n` starts is where one of those blocks begins. */
  lemma {:induction false} StartIsBlock(at: nat, blocks: seq<Blk>, n: nat, place: (nat, Kind))
    requires n <= |blocks| && place in Starts(at, blocks[..n])
    ensures exists i :: 0 <= i < n && StartOf(at, blocks, i) == place.0 && blocks[i].kind == place.1
  {
    if n > 0 {
      assert blocks[..n][..n - 1] == blocks[..n - 1] && blocks[..n][n - 1] == blocks[n - 1];
      if place in Starts(at, blocks[..n - 1]) {
        StartIsBlock(at, blocks, n - 1, place);
      } else {
        assert StartOf(at, blocks, n - 1) == place.0;
      }
    }
  }

  lemma {:induction false} NextStart(at: nat, blocks: seq<Blk>, n: nat)
    requires 0 < n <= |blocks|
    ensures Starts(at, blocks[..n]) == Starts(at, blocks[..n - 1]) + multiset{(StartOf(at, blocks, n - 1), blocks[n - 1].kind)}
  {
    assert blocks[..n][..n - 1] == blocks[..n - 1] && blocks[..n][n - 1] == blocks[n - 1];
  }

  /** No two blocks begin at the same place. */
  lemma {:induction false} StartsCount(at: nat, blocks: seq<Blk>, n: nat, i: nat)
    requires n <= |blocks| && i < |blocks|
    ensures Starts(at, blocks[..n])[(StartOf(at, blocks, i), blocks[i].kind)] == if i < n then 1 else 0
  {
    hide StartOf;
    if n > 0 {
      NextStart(at, blocks, n);
      StartsCount(at, blocks, n - 1, i);
      if i < n - 1 { StartsAscend(at, blocks, i, n - 1); }
      if n - 1 < i { StartsAscend(at, blocks, n - 1, i); }
    }
  }

  /** Link `slot` of block `i` names `place`. */
  ghost predicate Names(blocks: seq<Blk>, i: nat, slot: nat, place: (nat, Kind)) {
    i < |blocks| && slot < |blocks[i].links| && blocks[i].links[slot] == To(place.0, place.1)
  }

  lemma {:induction false} LinksUpTo(links: seq<Link>, n: nat)
    requires n < |links|
    ensures LinkPlaces(links[..n + 1]) == LinkPlaces(links[..n]) + PlaceOf(links[n])
  {
    assert links[..n + 1][..n] == links[..n];
  }

  lemma {:induction false} NoLinksNoPlaces(links: seq<Link>)
    ensures LinkPlaces(links[..0]) == NONE
  {
  }

  lemma {:induction false} NamedByLink(links: seq<Link>, n: nat, place: (nat, Kind)) returns (slot: nat)
    requires n <= |links| && place in LinkPlaces(links[..n])
    ensures slot < n && links[slot] == To(place.0, place.1)
  {
    hide LinkPlaces;
    if n == 0 {
      NoLinksNoPlaces(links);
      assert false;
    }
    LinksUpTo(links, n - 1);
    if place in LinkPlaces(links[..n - 1]) {
      slot := NamedByLink(links, n - 1, place);
    } else {
      slot := n - 1;
    }
  }

  lemma {:induction false} TargetsUpTo(blocks: seq<Blk>, n: nat)
    requires n < |blocks|
    ensures Targets(blocks[..n + 1]) == Targets(blocks[..n]) + LinkPlaces(blocks[n].links)
  {
    hide LinkPlaces;
    assert blocks[..n + 1][..n] == blocks[..n];
  }

  lemma {:induction false} NoBlocksNoTargets(blocks: seq<Blk>)
    ensures Targets(blocks[..0]) == NONE
  {
  }

  /** A place among the targets is named by some link. */
  lemma {:induction false} TargetIsNamed(blocks: seq<Blk>, n: nat, place: (nat, Kind)) returns (i: nat, slot: nat)
    requires n <= |blocks| && place in Targets(blocks[..n])
    ensures i < n && Names(blocks, i, slot, place)
  {
    hide Targets, LinkPlaces;
    if n == 0 {
      NoBlocksNoTargets(blocks);
      assert false;
    }
    TargetsUpTo(blocks, n - 1);
    if place in Targets(blocks[..n - 1]) {
      i, slot := TargetIsNamed(blocks, n - 1, place);
    } else {
      i := n - 1;
      var links := blocks[i].links;
      assert links[..|links|] == links;
      slot := NamedByLink(links, |links|, place);
    }
  }

  /** How often the first `n` links name a place: once for `slot`, and once more for `other`. */
  lemma {:induction false} LinkCounts(links: seq<Link>, n: nat, slot: nat, other: nat, place: (nat, Kind))
    requires n <= |links| && slot < |links| && other < |links|
    requires links[slot] == links[other] == To(place.0, place.1)
    ensures slot < n ==> LinkPlaces(links[..n])[place] >= 1
    ensures slot < n && other < n && slot != other ==> LinkPlaces(links[..n])[place] >= 2
  {
    hide LinkPlaces;
    if n > 0 {
      LinksUpTo(links, n - 1);
      LinkCounts(links, n - 1, slot, other, place);
      LinkCounts(links, n - 1, other, slot, place);
    }
  }

  lemma {:induction false} BlockCounts(links: seq<Link>, slot: nat, other: nat, place: (nat, Kind))
    requires slot < |links| && other < |links| && links[slot] == links[other] == To(place.0, place.1)
    ensures LinkPlaces(links)[place] >= 1
    ensures slot != other ==> LinkPlaces(links)[place] >= 2
  {
    assert links[..|links|] == links;
    LinkCounts(links, |links|, slot, other, place);
  }

  /** Two different links that name a place are counted twice. */
  lemma {:induction false} TargetCounts(blocks: seq<Blk>, n: nat, i: nat, slot: nat, j: nat, other: nat, place: (nat, Kind))
    requires n <= |blocks| && Names(blocks, i, slot, place) && Names(blocks, j, other, place)
    ensures i < n ==> Targets(blocks[..n])[place] >= 1
    ensures i < n && j < n && (i != j || slot != other) ==> Targets(blocks[..n])[place] >= 2
  {
    hide LinkPlaces, Targets;
    if n > 0 {
      TargetsUpTo(blocks, n - 1);
      TargetCounts(blocks, n - 1, i, slot, j, other, place);
      TargetCounts(blocks, n - 1, j, other, i, slot, place);
      if i == n - 1 { BlockCounts(blocks[i].links, slot, slot, place); }
      if j == n - 1 { BlockCounts(blocks[j].links, other, other, place); }
      if i == n - 1 && j == n - 1 { BlockCounts(blocks[i].links, slot, other, place); }
    }
  }

  // ---------------------------------------------------------------- the tree

  /** A run from `at` on in which every block but the first, of kind `kind`, is named by exactly one link. */
  ghost predicate Tree(at: nat, blocks: seq<Blk>, kind: Kind) {
    Region(at, blocks, at + Extent(blocks), multiset{(at, kind)}, NONE)
  }

  /** Every link lands on the start of a block of the kind it calls for. */
  lemma {:induction false} LinkLands(at: nat, blocks: seq<Blk>, kind: Kind, i: nat, slot: nat) returns (j: nat)
    requires Tree(at, blocks, kind) && i < |blocks| && slot < |blocks[i].links| && blocks[i].links[slot].To?
    ensures i < j < |blocks| && StartOf(at, blocks, j) == blocks[i].links[slot].target
    ensures blocks[j].kind == blocks[i].links[slot].kind && CallsFor(blocks[i].kind, slot, blocks[j].kind)
  {
    hide Targets, Starts, LinkPlaces, Extent, Size;
    var l := blocks[i].links[slot];
    var place := (l.target, l.kind);
    assert blocks[..|blocks|] == blocks;
    TargetCounts(blocks, |blocks|, i, slot, i, slot, place);
    assert (Targets(blocks) + multiset{(at, kind)})[place] == (Starts(at, blocks) + NONE)[place];
    StartIsBlock(at, blocks, |blocks|, place);
    j :| 0 <= j < |blocks| && StartOf(at, blocks, j) == place.0 && blocks[j].kind == place.1;
    assert LinksForward(blocks[i], at + Extent(blocks[..i]) + Size(blocks[i]));
    Behind(at, blocks, i, j);
  }

  lemma {:induction false} Behind(at: nat, blocks: seq<Blk>, i: nat, j: nat)
    requires i < |blocks| && j < |blocks| && StartOf(at, blocks, i) + Size(blocks[i]) <= StartOf(at, blocks, j)
    ensures i < j
  {
    if j < i { StartsAscend(at, blocks, j, i); }
  }

  /** Every block but the first is named by a link of an earlier block. */
  lemma {:induction false} HasReferrer(at: nat, blocks: seq<Blk>, kind: Kind, j: nat) returns (i: nat, slot: nat)
    requires Tree(at, blocks, kind) && 0 < j < |blocks|
    ensures i < j && Names(blocks, i, slot, (StartOf(at, blocks, j), blocks[j].kind))
  {
    hide Targets, Starts, LinkPlaces, Extent, Size;
    var place := (StartOf(at, blocks, j), blocks[j].kind);
    assert blocks[..|blocks|] == blocks;
    StartsCount(at, blocks, |blocks|, j);
    NotFirst(at, blocks, j);
    assert (Targets(blocks) + multiset{(at, kind)})[place] == (Starts(at, blocks) + NONE)[place];
    i, slot := TargetIsNamed(blocks, |blocks|, place);
    assert LinksForward(blocks[i], at + Extent(blocks[..i]) + Size(blocks[i]));
    Behind(at, blocks, i, j);
  }

  lemma {:induction false} NotFirst(at: nat, blocks: seq<Blk>, j: nat)
    requires 0 < j < |blocks|
    ensures at < StartOf(at, blocks, j)
  {
    StartsAscend(at, blocks, 0, j);
  }

  /** No block is named by two links, and the first by none. */
  lemma {:induction false} OneReferrer(at: nat, blocks: seq<Blk>, kind: Kind, i: nat, slot: nat, j: nat, other: nat)
    requires Tree(at, blocks, kind)
    requires i < |blocks| && slot < |blocks[i].links| && blocks[i].links[slot].To?
    requires j < |blocks| && other < |blocks[j].links| && blocks[j].links[other].To?
    requires blocks[i].links[slot].target == blocks[j].links[other].target
    ensures i == j && slot == other
  {
    hide Targets, Starts, LinkPlaces, Extent, StartOf, AllForward;
    var k := LinkLands(at, blocks, kind, i, slot);
    var k' := LinkLands(at, blocks, kind, j, other);
    if k < k' { StartsAscend(at, blocks, k, k'); }
    if k' < k { StartsAscend(at, blocks, k', k); }
    var place := (StartOf(at, blocks, k), blocks[k].kind);
    assert blocks[..|blocks|] == blocks;
    StartsCount(at, blocks, |blocks|, k);
    assert (Targets(blocks) + multiset{(at, kind)})[place] == (Starts(at, blocks) + NONE)[place];
    TargetCounts(blocks, |blocks|, i, slot, j, other, place);
  }
}
