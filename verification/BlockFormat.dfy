/** Blocks as pass 2 of `Mf4Writer::write` (src/write.rs) hands them to the output, and what a run of them links. */
module BlockFormat {
  import opened Bytes

  datatype Kind = HD | FH | TX | DG | CG | CN | CC | CA | SD | DT | HL | DL | DZ

  /** The two letters of a block's ID. */
  function KindLetters(k: Kind): (s: seq<byte>)
    ensures |s| == 2
  {
    match k
    case HD => [72, 68] case FH => [70, 72] case TX => [84, 88] case DG => [68, 71]
    case CG => [67, 71] case CN => [67, 78] case CC => [67, 67] case CA => [67, 65]
    case SD => [83, 68] case DT => [68, 84] case HL => [72, 76] case DL => [68, 76] case DZ => [68, 90]
  }

  function KindId(k: Kind): (id: seq<byte>)
    ensures |id| == 4 && id[0] == 35 && id[1] == 35
  {
    [35, 35] + KindLetters(k)
  }

  /** A link as pass 2 pushes it. The kind is what the link is there to name; only the offset is emitted. */
  datatype Link = Null | To(target: nat, kind: Kind)

  function Offset(l: Link): nat {
    if l.Null? then 0 else l.target
  }

  /** A block handed to the output: the two header fields as declared, then what follows the header. */
  datatype Blk = Blk(kind: Kind, length: nat, linkCount: nat, links: seq<Link>, body: seq<byte>)

  /** Bytes a block puts in the file. */
  function Size(b: Blk): nat {
    24 + 8 * |b.links| + |b.body|
  }

  function LinkBytes(links: seq<Link>): (s: seq<byte>)
    ensures |s| == 8 * |links|
  {
    if links == [] then [] else LinkBytes(links[..|links| - 1]) + Le64(Offset(links[|links| - 1]))
  }

  /** `block_header`, the links, then the rest. */
  function BlkBytes(b: Blk): (s: seq<byte>)
    ensures |s| == Size(b)
  {
    KindId(b.kind) + Zeros(4) + Le64(b.length) + Le64(b.linkCount) + LinkBytes(b.links) + b.body
  }

  /** The header tells the truth about the bytes behind it. */
  predicate Honest(b: Blk) {
    b.length == Size(b) && b.linkCount == |b.links|
  }

  /** Link `slot` of a block of kind `k` is there to name a block of kind `target`. */
  predicate CallsFor(k: Kind, slot: nat, target: Kind) {
    match k
    case HD => (slot == 0 && target == DG) || (slot == 1 && target == FH)
    case FH => (slot == 0 && target == FH) || (slot == 1 && target == TX)
    case DG => (slot == 0 && target == DG) || (slot == 1 && target == CG) || (slot == 2 && (target == DT || target == HL))
    case CG => (slot == 0 && target == CG) || (slot == 1 && target == CN)
    case CN => (slot == 0 && target == CN) || (slot == 1 && target == CA) || (slot == 4 && target == CC)
               || (slot == 5 && target == SD) || ((slot == 2 || slot == 6 || slot == 7) && target == TX)
    case CC => slot >= 4 && target == TX
    case HL => slot == 0 && target == DL
    case DL => (slot == 0 && target == DL) || (slot >= 1 && target == DZ)
    case _ => false
  }

  /** Every link names the kind its slot calls for, and points past the end of its own block, which ends at `end`. */
  ghost predicate LinksForward(b: Blk, end: nat) {
    forall slot :: 0 <= slot < |b.links| && b.links[slot].To? ==>
      CallsFor(b.kind, slot, b.links[slot].kind) && end <= b.links[slot].target
  }

  // ---------------------------------------------------------------- runs of blocks

  function Extent(blocks: seq<Blk>): nat {
    if blocks == [] then 0 else Extent(blocks[..|blocks| - 1]) + Size(blocks[|blocks| - 1])
  }

  function Serialized(blocks: seq<Blk>): (s: seq<byte>)
    ensures |s| == Extent(blocks)
  {
    if blocks == [] then [] else Serialized(blocks[..|blocks| - 1]) + BlkBytes(blocks[|blocks| - 1])
  }

  type Places = multiset<(nat, Kind)>

  const NONE: Places := multiset{}

  function PlaceOf(l: Link): Places {
    if l.Null? then multiset{} else multiset{(l.target, l.kind)}
  }

  ghost function LinkPlaces(links: seq<Link>): Places {
    if links == [] then multiset{} else LinkPlaces(links[..|links| - 1]) + PlaceOf(links[|links| - 1])
  }

  /** Every place some link of the run names, as often as it is named. */
  ghost function Targets(blocks: seq<Blk>): Places {
    if blocks == [] then multiset{} else Targets(blocks[..|blocks| - 1]) + LinkPlaces(blocks[|blocks| - 1].links)
  }

  /** Where each block of a run that begins at `at` begins, and its kind. */
  ghost function Starts(at: nat, blocks: seq<Blk>): Places {
    if blocks == [] then multiset{} else
      var before := blocks[..|blocks| - 1];
      Starts(at, before) + multiset{(at + Extent(before), blocks[|blocks| - 1].kind)}
  }

  ghost predicate AllForward(at: nat, blocks: seq<Blk>) {
    forall i :: 0 <= i < |blocks| ==> LinksForward(blocks[i], at + Extent(blocks[..i]) + Size(blocks[i]))
  }

  predicate AllHonest(blocks: seq<Blk>) {
    forall i :: 0 <= i < |blocks| ==> Honest(blocks[i])
  }

  /** A run of blocks from `at` to `end`. Of the places in it, the ones in `entries` are left for links outside it to
      name; every other is named by exactly one of its links. Besides these its links name the places in `exits`. */
  ghost predicate Region(at: nat, blocks: seq<Blk>, end: nat, entries: Places, exits: Places) {
    && at + Extent(blocks) == end
    && Targets(blocks) + entries == Starts(at, blocks) + exits
    && AllForward(at, blocks)
  }

  lemma {:induction false} LastOfBoth(a: seq<Blk>, b: seq<Blk>)
    requires b != []
    ensures a + b != [] && (a + b)[..|a + b| - 1] == a + b[..|b| - 1] && (a + b)[|a + b| - 1] == b[|b| - 1]
  {
  }

  lemma {:induction false} SumAssoc(a: Places, b: Places, c: Places)
    ensures a + b + c == a + (b + c)
  {
  }

  lemma {:induction false} ExtentAppended(a: seq<Blk>, b: seq<Blk>)
    ensures Extent(a + b) == Extent(a) + Extent(b)
  {
    if b == [] {
      assert a + b == a;
    } else {
      LastOfBoth(a, b);
      ExtentAppended(a, b[..|b| - 1]);
    }
  }

  lemma {:induction false} TargetsAppended(a: seq<Blk>, b: seq<Blk>)
    ensures Targets(a + b) == Targets(a) + Targets(b)
  {
    hide LinkPlaces;
    if b == [] {
      assert a + b == a;
    } else {
      LastOfBoth(a, b);
      TargetsAppended(a, b[..|b| - 1]);
      SumAssoc(Targets(a), Targets(b[..|b| - 1]), LinkPlaces(b[|b| - 1].links));
    }
  }

  lemma {:induction false} StartsAppended(at: nat, a: seq<Blk>, b: seq<Blk>)
    ensures Starts(at, a + b) == Starts(at, a) + Starts(at + Extent(a), b)
  {
    hide Extent, Starts;
    if b == [] {
      assert a + b == a;
      StartsNone(at + Extent(a));
      assert Starts(at, a) + multiset{} == Starts(at, a);
    } else {
      var before, last, mid := b[..|b| - 1], b[|b| - 1], at + Extent(a);
      LastOfBoth(a, b);
      StartsAppended(at, a, before);
      ExtentAppended(a, before);
      StartsLast(mid, b, before, mid + Extent(before));
      StartsLast(at, a + b, a + before, mid + Extent(before));
      SumAssoc(Starts(at, a), Starts(mid, before), multiset{(mid + Extent(before), last.kind)});
    }
  }

  lemma {:induction false} StartsNone(at: nat)
    ensures Starts(at, []) == multiset{}
  {
  }

  lemma {:induction false} StartsLast(at: nat, blocks: seq<Blk>, before: seq<Blk>, last: nat)
    requires blocks != [] && before == blocks[..|blocks| - 1] && last == at + Extent(before)
    ensures Starts(at, blocks) == Starts(at, before) + multiset{(last, blocks[|blocks| - 1].kind)}
  {
  }

  lemma {:induction false} ForwardAppended(at: nat, a: seq<Blk>, b: seq<Blk>)
    requires AllForward(at, a) && AllForward(at + Extent(a), b)
    ensures AllForward(at, a + b)
  {
    forall i | 0 <= i < |a + b|
      ensures LinksForward((a + b)[i], at + Extent((a + b)[..i]) + Size((a + b)[i]))
    {
      if i < |a| {
        assert (a + b)[..i] == a[..i];
      } else {
        assert (a + b)[..i] == a + b[..i - |a|];
        ExtentAppended(a, b[..i - |a|]);
        assert LinksForward(b[i - |a|], at + Extent(a) + Extent(b[..i - |a|]) + Size(b[i - |a|]));
      }
    }
  }

  /** Two runs, one behind the other. The places in `joints` are entries of one that the other's links name. */
  lemma {:induction false} Joined(at: nat, a: seq<Blk>, mid: nat, b: seq<Blk>, end: nat,
                                  entriesA: Places, exitsA: Places, entriesB: Places, exitsB: Places,
                                  joints: Places, entries: Places, exits: Places)
    requires Region(at, a, mid, entriesA, exitsA) && Region(mid, b, end, entriesB, exitsB)
    requires entriesA + entriesB == entries + joints && exitsA + exitsB == exits + joints
    ensures Region(at, a + b, end, entries, exits)
  {
    hide Targets, Starts, Extent, AllForward;
    ExtentAppended(a, b);
    TargetsAppended(a, b);
    StartsAppended(at, a, b);
    ForwardAppended(at, a, b);
    Cancel(Targets(a), Targets(b), Starts(at, a), Starts(mid, b), entriesA, exitsA, entriesB, exitsB, joints, entries, exits);
  }

  lemma {:induction false} Cancel(ta: Places, tb: Places, sa: Places, sb: Places, entriesA: Places, exitsA: Places,
                                  entriesB: Places, exitsB: Places, joints: Places, entries: Places, exits: Places)
    requires ta + entriesA == sa + exitsA && tb + entriesB == sb + exitsB
    requires entriesA + entriesB == entries + joints && exitsA + exitsB == exits + joints
    ensures ta + tb + entries == sa + sb + exits
  {
    var left, right := ta + tb + entries, sa + sb + exits;
    forall x ensures left[x] == right[x] {
      assert (ta + entriesA)[x] == (sa + exitsA)[x] && (tb + entriesB)[x] == (sb + exitsB)[x];
      assert (entriesA + entriesB)[x] == (entries + joints)[x] && (exitsA + exitsB)[x] == (exits + joints)[x];
    }
  }

  /** A block on its own. */
  lemma {:induction false} OneBlock(at: nat, b: Blk)
    requires LinksForward(b, at + Size(b))
    ensures Region(at, [b], at + Size(b), multiset{(at, b.kind)}, LinkPlaces(b.links))
  {
    assert [b][..0] == [];
  }

  lemma {:induction false} NoBlocks(at: nat)
    ensures Region(at, [], at, multiset{}, multiset{})
  {
  }
}
