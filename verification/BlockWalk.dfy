/** The block walk of src/inspect.rs: a breadth-first reader of a file's link graph. */
module BlockWalk {
  import opened Bytes

  const ID_BLOCK_SIZE: nat := 64
  const BLOCK_HEADER_SIZE: nat := 24
  const MAX_BLOCKS: nat := 2_000_000
  const HASH: byte := 35

  type File = seq<byte>

  // ---------------------------------------------------------------- reading one block

  function DeclaredLength(f: File, a: nat): nat
    requires a + BLOCK_HEADER_SIZE <= |f|
  {
    FromLe(f[a + 8..a + 16])
  }

  function LinkCount(f: File, a: nat): nat
    requires a + BLOCK_HEADER_SIZE <= |f|
  {
    FromLe(f[a + 16..a + 24])
  }

  /** Why a link target is not a block. */
  datatype Fault = PastEnd | NotABlock | BadHeader | Overruns

  datatype Verdict = Block | Rejected(fault: Fault)

  /** The checks `visit` makes, in its order. */
  function Judge(f: File, a: nat): Verdict {
    if a + BLOCK_HEADER_SIZE > |f| then Rejected(PastEnd)
    else if f[a] != HASH || f[a + 1] != HASH then Rejected(NotABlock)
    else if DeclaredLength(f, a) < BLOCK_HEADER_SIZE then Rejected(BadHeader)
    else if 8 * LinkCount(f, a) + BLOCK_HEADER_SIZE > DeclaredLength(f, a) then Rejected(BadHeader)
    else if a + DeclaredLength(f, a) > |f| then Rejected(Overruns)
    else Block
  }

  function LinkAt(f: File, a: nat, i: nat): nat
    requires a + BLOCK_HEADER_SIZE + 8 * i + 8 <= |f|
  {
    FromLe(f[a + BLOCK_HEADER_SIZE + 8 * i..a + BLOCK_HEADER_SIZE + 8 * i + 8])
  }

  function Links(f: File, a: nat): (links: seq<nat>)
    requires Judge(f, a).Block?
    ensures |links| == LinkCount(f, a)
  {
    seq(LinkCount(f, a), i requires 0 <= i < LinkCount(f, a) => LinkAt(f, a, i))
  }

  /** What a listing says about a block, its referrers aside. */
  datatype Fields = Fields(address: nat, blockType: seq<byte>, length: nat, links: seq<nat>, dataSize: nat)

  function BlockFields(f: File, a: nat): Fields
    requires Judge(f, a).Block?
  {
    Fields(a, f[a..a + 4], DeclaredLength(f, a), Links(f, a),
           DeclaredLength(f, a) - BLOCK_HEADER_SIZE - 8 * LinkCount(f, a))
  }

  function IdFields(f: File): Fields
    requires |f| >= ID_BLOCK_SIZE
  {
    Fields(0, f[..4], ID_BLOCK_SIZE, [], ID_BLOCK_SIZE)
  }

  const UN_FIN_MF: seq<byte> := [85, 110, 70, 105, 110, 77, 70, 32] // "UnFinMF "

  predicate DeclaredUnfinalized(f: File)
    requires |f| >= ID_BLOCK_SIZE
  {
    f[..8] == UN_FIN_MF || FromLe(f[60..62]) != 0
  }

  /** By its bytes: the signature of an unfinalized file, or any of its flags. */
  lemma {:induction false} UnfinalizedByBytes(f: File)
    requires |f| >= 64
    ensures DeclaredUnfinalized(f) <==> f[..8] == [85, 110, 70, 105, 110, 77, 70, 32] || f[60] != 0 || f[61] != 0
  {
    FromTwo(f[60..62]);
  }

  // ---------------------------------------------------------------- the link graph

  /** All the walk learns from the bytes: which addresses hold blocks, and what each block says.
      Address 0 is the ID block, present when the file is long enough, and links to nothing. */
  datatype Graph = Graph(hasId: bool, verdict: nat -> Verdict, fields: nat -> Fields)

  function GraphOf(f: File): Graph {
    Graph(|f| >= ID_BLOCK_SIZE,
          (a: nat) => Judge(f, a),
          (a: nat) => if a == 0 && |f| >= ID_BLOCK_SIZE then IdFields(f)
               else if Judge(f, a).Block? then BlockFields(f, a)
               else Fields(a, [], 0, [], 0))
  }

  /** Block `a` links to `t`. A zero link is absent. */
  ghost predicate Edge(g: Graph, a: nat, t: nat) {
    a != 0 && g.verdict(a).Block? && t != 0 && t != a && t in g.fields(a).links
  }

  ghost predicate ReachesIn(g: Graph, a: nat, steps: nat)
    decreases steps
  {
    g.verdict(a).Block? &&
    if steps == 0 then a == ID_BLOCK_SIZE
    else exists b: nat :: ReachesIn(g, b, steps - 1) && Edge(g, b, a)
  }

  /** A chain of blocks, each linking to the next, leads from the header block to block `a`. */
  ghost predicate Reachable(g: Graph, a: nat) {
    exists steps: nat :: ReachesIn(g, a, steps)
  }

  lemma ReachableStep(g: Graph, a: nat, t: nat)
    requires Reachable(g, a) && Edge(g, a, t) && g.verdict(t).Block?
    ensures Reachable(g, t)
  {
    var steps: nat :| ReachesIn(g, a, steps);
    assert ReachesIn(g, t, steps + 1);
  }

  lemma ReachableRoot(g: Graph)
    requires g.verdict(ID_BLOCK_SIZE).Block?
    ensures Reachable(g, ID_BLOCK_SIZE)
  {
    assert ReachesIn(g, ID_BLOCK_SIZE, 0);
  }

  // ---------------------------------------------------------------- what the walk reports

  datatype Raw = Raw(block: Fields, referencedBy: seq<nat>)

  datatype Gap = Gap(address: nat, length: nat)

  datatype Warning =
    | ShortFile
    | BadTarget(referrer: nat, address: nat, fault: Fault)
    | SelfLink(address: nat, index: nat)
    | Stopped

  datatype BlockMap = BlockMap(blocks: seq<Raw>, gaps: seq<Gap>, fileSize: nat, coveredBytes: nat,
                               warnings: seq<Warning>, unfinalized: bool)

  ghost predicate Distinct<T>(s: seq<T>) {
    forall i, j :: 0 <= i < j < |s| ==> s[i] != s[j]
  }

  // ---------------------------------------------------------------- invariants of the walk

  /** Everything listed is a reachable block as the file spells it, and every referrer is a real one. */
  ghost predicate Genuine(g: Graph, found: map<nat, Raw>, a: nat)
    requires a in found
  {
    && found[a].block == g.fields(a)
    && (a == 0 ==> g.hasId && found[a].referencedBy == [])
    && (a != 0 ==> g.verdict(a).Block? && Reachable(g, a))
    && Distinct(found[a].referencedBy)
    && forall r :: r in found[a].referencedBy ==> r in found && Edge(g, r, a)
  }

  /** A queue entry's origin: the start of the walk, or a link of a listed block. */
  ghost predicate Origin(g: Graph, found: map<nat, Raw>, r: nat, t: nat) {
    (r == 0 && t == ID_BLOCK_SIZE) || (r in found && Edge(g, r, t))
  }

  /** A link has been dealt with: the target is listed with this referrer, or was reported. */
  ghost predicate Settled(g: Graph, found: map<nat, Raw>, warnings: seq<Warning>, r: nat, t: nat) {
    || (t in found && (r == 0 || r in found[t].referencedBy))
    || (g.verdict(t).Rejected? && BadTarget(r, t, g.verdict(t).fault) in warnings)
  }

  /** A warning describes something that is in the file. */
  ghost predicate Justified(g: Graph, found: map<nat, Raw>, w: Warning) {
    match w
    case ShortFile => !g.hasId
    case BadTarget(r, t, fault) => Origin(g, found, r, t) && g.verdict(t) == Rejected(fault)
    case SelfLink(a, i) => LinksToItself(g, a, i) && a in found
    case Stopped => |found| >= MAX_BLOCKS && exists r: nat, t: nat :: Origin(g, found, r, t) && t !in found
  }

  ghost predicate LinksToItself(g: Graph, a: nat, i: nat) {
    a != 0 && g.verdict(a).Block? && i < |g.fields(a).links| && g.fields(a).links[i] == a
  }

  ghost predicate AllGenuine(g: Graph, found: map<nat, Raw>) {
    (0 in found <==> g.hasId) && forall a: nat :: a in found ==> Genuine(g, found, a)
  }

  ghost predicate QueueSound(g: Graph, found: map<nat, Raw>, queue: seq<(nat, nat)>) {
    forall e :: e in queue ==> Origin(g, found, e.1, e.0)
  }

  ghost predicate AllJustified(g: Graph, found: map<nat, Raw>, warnings: seq<Warning>) {
    forall w :: w in warnings ==> Justified(g, found, w)
  }

  /** Every link of every listed block is settled or still waiting. */
  ghost predicate NoLinkLost(g: Graph, found: map<nat, Raw>, queue: seq<(nat, nat)>, warnings: seq<Warning>) {
    forall r: nat, t: nat :: Origin(g, found, r, t) ==> (t, r) in queue || Settled(g, found, warnings, r, t)
  }

  ghost predicate SelfLinksReported(g: Graph, found: map<nat, Raw>, warnings: seq<Warning>) {
    forall a: nat, i: nat :: a in found && LinksToItself(g, a, i) ==> SelfLink(a, i) in warnings
  }

  ghost predicate Sound(g: Graph, found: map<nat, Raw>, queue: seq<(nat, nat)>, warnings: seq<Warning>) {
    AllGenuine(g, found) && QueueSound(g, found, queue) && AllJustified(g, found, warnings)
  }

  ghost predicate Complete(g: Graph, found: map<nat, Raw>, queue: seq<(nat, nat)>, warnings: seq<Warning>) {
    && (!g.hasId ==> ShortFile in warnings)
    && NoLinkLost(g, found, queue, warnings)
    && SelfLinksReported(g, found, warnings)
  }

  ghost predicate WalkInvariant(g: Graph, found: map<nat, Raw>, queue: seq<(nat, nat)>, warnings: seq<Warning>) {
    Sound(g, found, queue, warnings) && Complete(g, found, queue, warnings) && |found| <= MAX_BLOCKS && Stopped !in warnings
  }

  /** What noting `r` as a referrer of the listed block `t` makes of the listing. */
  function Noted(found: map<nat, Raw>, t: nat, r: nat): (found': map<nat, Raw>)
    requires t in found
    ensures found'.Keys == found.Keys && |found'| == |found|
  {
    var raw := found[t];
    var found' := if r != 0 && r !in raw.referencedBy then found[t := raw.(referencedBy := raw.referencedBy + [r])] else found;
    assert found'.Keys == found.Keys && |found'| == |found'.Keys| && |found| == |found.Keys|;
    found'
  }

  // Popping an address that is already listed: its referrer is noted.

  lemma NotedGenuine(g: Graph, found: map<nat, Raw>, t: nat, r: nat)
    requires AllGenuine(g, found) && t in found && Origin(g, found, r, t)
    ensures AllGenuine(g, Noted(found, t, r))
  {
    var found' := Noted(found, t, r);
    forall a: nat | a in found' ensures Genuine(g, found', a) {
      assert Genuine(g, found, a);
    }
  }

  lemma NotedLosesNothing(g: Graph, found: map<nat, Raw>, queue: seq<(nat, nat)>, warnings: seq<Warning>, t: nat, r: nat)
    requires t in found && NoLinkLost(g, found, [(t, r)] + queue, warnings)
    ensures NoLinkLost(g, Noted(found, t, r), queue, warnings)
  {
    var found' := Noted(found, t, r);
    forall r0: nat, t0: nat | Origin(g, found', r0, t0)
      ensures (t0, r0) in queue || Settled(g, found', warnings, r0, t0)
    {
      assert Origin(g, found, r0, t0);
      if (t0, r0) != (t, r) {
        assert (t0, r0) in [(t, r)] + queue ==> (t0, r0) in queue;
      }
    }
  }

  lemma SameKeysSameOrigins(g: Graph, found: map<nat, Raw>, found': map<nat, Raw>, queue: seq<(nat, nat)>, warnings: seq<Warning>)
    requires found'.Keys == found.Keys && |found'| == |found|
    requires QueueSound(g, found, queue) && AllJustified(g, found, warnings) && Stopped !in warnings
    ensures QueueSound(g, found', queue) && AllJustified(g, found', warnings)
  {
    forall e | e in queue ensures Origin(g, found', e.1, e.0) {
      assert Origin(g, found, e.1, e.0);
    }
    forall w | w in warnings ensures Justified(g, found', w) {
      assert Justified(g, found, w);
    }
  }

  lemma PopListed(g: Graph, found: map<nat, Raw>, queue: seq<(nat, nat)>, warnings: seq<Warning>, t: nat, r: nat)
    requires t in found && WalkInvariant(g, found, [(t, r)] + queue, warnings)
    ensures WalkInvariant(g, Noted(found, t, r), queue, warnings)
  {
    Dequeued(g, found, queue, t, r);
    NotedGenuine(g, found, t, r);
    NotedLosesNothing(g, found, queue, warnings, t, r);
    SameKeysSameOrigins(g, found, Noted(found, t, r), queue, warnings);
  }

  /** Popping an address that holds no block: it is reported. */
  lemma PopRejected(g: Graph, found: map<nat, Raw>, queue: seq<(nat, nat)>, warnings: seq<Warning>, t: nat, r: nat)
    requires WalkInvariant(g, found, [(t, r)] + queue, warnings) && g.verdict(t).Rejected?
    ensures WalkInvariant(g, found, queue, warnings + [BadTarget(r, t, g.verdict(t).fault)])
  {
    var warnings' := warnings + [BadTarget(r, t, g.verdict(t).fault)];
    assert (t, r) in [(t, r)] + queue;
    forall r0: nat, t0: nat | Origin(g, found, r0, t0)
      ensures (t0, r0) in queue || Settled(g, found, warnings', r0, t0)
    {
      assert (t0, r0) in [(t, r)] + queue || Settled(g, found, warnings, r0, t0);
    }
  }

  /** The queue entries and warnings the links of block `a` give rise to. */
  ghost predicate LinksHandled(a: nat, links: seq<nat>, added: seq<(nat, nat)>, reported: seq<Warning>) {
    && (forall e :: e in added <==> e.1 == a && e.0 != 0 && e.0 != a && e.0 in links)
    && (forall w :: w in reported <==> w.SelfLink? && w.address == a && w.index < |links| && links[w.index] == a)
  }

  lemma OneMoreLink(a: nat, links: seq<nat>, link: nat, added: seq<(nat, nat)>, reported: seq<Warning>)
    requires LinksHandled(a, links, added, reported)
    ensures LinksHandled(a, links + [link],
                         if link != 0 && link != a then added + [(link, a)] else added,
                         if link != 0 && link == a then reported + [SelfLink(a, |links|)] else reported)
            || (a == 0 && link == 0)
  {
    var links' := links + [link];
    var reported' := if link != 0 && link == a then reported + [SelfLink(a, |links|)] else reported;
    if a != 0 || link != 0 {
      forall w ensures w in reported' <==> w.SelfLink? && w.address == a && w.index < |links'| && links'[w.index] == a {
        if w.SelfLink? && w.address == a && w.index == |links| { assert w == SelfLink(a, |links|); }
      }
    }
  }

  /** Stopping at the cap: the listing so far stands. */
  lemma StopWalk(g: Graph, found: map<nat, Raw>, queue: seq<(nat, nat)>, warnings: seq<Warning>)
    requires WalkInvariant(g, found, queue, warnings) && |found| >= MAX_BLOCKS
    requires queue != [] && queue[0].0 !in found
    ensures Sound(g, found, [], warnings + [Stopped])
  {
    assert queue[0] in queue;
    assert Origin(g, found, queue[0].1, queue[0].0);
  }

  // Popping a new block: it is listed and its links join the queue.

  ghost function Admitted(g: Graph, found: map<nat, Raw>, t: nat, r: nat): (found': map<nat, Raw>)
    requires t !in found
    ensures found'.Keys == found.Keys + {t} && |found'| == |found| + 1
  {
    var found' := found[t := Raw(g.fields(t), if r == 0 then [] else [r])];
    assert found'.Keys == found.Keys + {t} && |found'| == |found'.Keys| && |found| == |found.Keys|;
    found'
  }

  lemma AdmittedGenuine(g: Graph, found: map<nat, Raw>, t: nat, r: nat)
    requires AllGenuine(g, found) && t !in found && Origin(g, found, r, t) && g.verdict(t).Block?
    ensures AllGenuine(g, Admitted(g, found, t, r))
  {
    var found' := Admitted(g, found, t, r);
    if r == 0 { ReachableRoot(g); } else { assert Genuine(g, found, r); ReachableStep(g, r, t); }
    forall a: nat | a in found' ensures Genuine(g, found', a) {
      if a != t { assert Genuine(g, found, a); }
    }
  }

  lemma AdmittedSound(g: Graph, found: map<nat, Raw>, t: nat, r: nat, queue: seq<(nat, nat)>, warnings: seq<Warning>,
                      added: seq<(nat, nat)>, reported: seq<Warning>)
    requires t !in found && t != 0 && g.verdict(t).Block?
    requires QueueSound(g, found, queue) && AllJustified(g, found, warnings) && Stopped !in warnings
    requires LinksHandled(t, g.fields(t).links, added, reported)
    ensures QueueSound(g, Admitted(g, found, t, r), queue + added)
    ensures AllJustified(g, Admitted(g, found, t, r), warnings + reported)
  {
    var found' := Admitted(g, found, t, r);
    forall e | e in queue + added ensures Origin(g, found', e.1, e.0) {
      if e in queue { assert Origin(g, found, e.1, e.0); }
    }
    forall w | w in warnings + reported ensures Justified(g, found', w) {
      if w in warnings { assert Justified(g, found, w); }
    }
  }

  lemma AdmittedLosesNothing(g: Graph, found: map<nat, Raw>, t: nat, r: nat, queue: seq<(nat, nat)>, warnings: seq<Warning>,
                             added: seq<(nat, nat)>, reported: seq<Warning>)
    requires t !in found && t != 0
    requires NoLinkLost(g, found, [(t, r)] + queue, warnings)
    requires LinksHandled(t, g.fields(t).links, added, reported)
    ensures NoLinkLost(g, Admitted(g, found, t, r), queue + added, warnings + reported)
  {
    var found' := Admitted(g, found, t, r);
    forall r0: nat, t0: nat | Origin(g, found', r0, t0)
      ensures (t0, r0) in queue + added || Settled(g, found', warnings + reported, r0, t0)
    {
      if r0 == t {
        assert (t0, r0) in added;
      } else {
        assert Origin(g, found, r0, t0);
        assert (t0, r0) in [(t, r)] + queue || Settled(g, found, warnings, r0, t0);
      }
    }
  }

  lemma AdmittedReported(g: Graph, found: map<nat, Raw>, t: nat, r: nat, warnings: seq<Warning>,
                         added: seq<(nat, nat)>, reported: seq<Warning>)
    requires t !in found && t != 0
    requires SelfLinksReported(g, found, warnings)
    requires LinksHandled(t, g.fields(t).links, added, reported)
    ensures SelfLinksReported(g, Admitted(g, found, t, r), warnings + reported)
  {
    forall a: nat, i: nat | a in Admitted(g, found, t, r) && LinksToItself(g, a, i)
      ensures SelfLink(a, i) in warnings + reported
    {
      if a == t { assert SelfLink(a, i) in reported; }
    }
  }

  lemma Dequeued(g: Graph, found: map<nat, Raw>, queue: seq<(nat, nat)>, t: nat, r: nat)
    requires QueueSound(g, found, [(t, r)] + queue)
    ensures QueueSound(g, found, queue) && Origin(g, found, r, t) && t != 0
  {
    assert (t, r) in [(t, r)] + queue;
    assert Origin(g, found, r, t);
    forall e | e in queue ensures Origin(g, found, e.1, e.0) {
      assert e in [(t, r)] + queue;
    }
  }

  lemma PopBlock(g: Graph, found: map<nat, Raw>, queue: seq<(nat, nat)>, warnings: seq<Warning>, t: nat, r: nat,
                 added: seq<(nat, nat)>, reported: seq<Warning>)
    requires WalkInvariant(g, found, [(t, r)] + queue, warnings)
    requires t !in found && g.verdict(t).Block? && |found| < MAX_BLOCKS
    requires LinksHandled(t, g.fields(t).links, added, reported)
    ensures WalkInvariant(g, Admitted(g, found, t, r), queue + added, warnings + reported)
  {
    Dequeued(g, found, queue, t, r);
    AdmittedGenuine(g, found, t, r);
    AdmittedSound(g, found, t, r, queue, warnings, added, reported);
    AdmittedLosesNothing(g, found, t, r, queue, warnings, added, reported);
    AdmittedReported(g, found, t, r, warnings, added, reported);
  }

  lemma Started(g: Graph, found: map<nat, Raw>, warnings: seq<Warning>)
    requires found == if g.hasId then map[0 := Raw(g.fields(0), [])] else map[]
    requires warnings == if g.hasId then [] else [ShortFile]
    ensures WalkInvariant(g, found, [(ID_BLOCK_SIZE, 0)], warnings)
  {
    assert |found| <= 1;
    forall r: nat, t: nat | Origin(g, found, r, t) ensures (t, r) in [(ID_BLOCK_SIZE, 0)] {
      assert !Edge(g, 0, t);
    }
  }

  // ---------------------------------------------------------------- the finished map

  ghost predicate Ascending(blocks: seq<Raw>) {
    forall i, j :: 0 <= i < j < |blocks| ==> blocks[i].block.address < blocks[j].block.address
  }

  ghost predicate IsLeast(s: set<nat>, m: nat) {
    m in s && forall x: nat :: x in s ==> m <= x
  }

  /** The least key of a non-empty `BTreeMap`. */
  function Least(s: set<nat>): (m: nat)
    requires s != {}
    ensures m in s && forall x: nat :: x in s ==> m <= x
  {
    LeastExists(s);
    var m :| m in s && forall x: nat :: x in s ==> m <= x;
    m
  }

  lemma LeastExists(s: set<nat>)
    requires s != {}
    ensures exists m :: IsLeast(s, m)
  {
    var k :| k in s;
    LeastBelow(s, k);
  }

  lemma {:induction false} LeastBelow(s: set<nat>, k: nat)
    requires k in s
    ensures exists m :: IsLeast(s, m)
  {
    if !IsLeast(s, k) {
      var x: nat :| x in s && x < k;
      LeastBelow(s, x);
    }
  }

  ghost predicate KeyedByAddress(found: map<nat, Raw>) {
    forall a :: a in found ==> found[a].block.address == a
  }

  function Without(found: map<nat, Raw>, a: nat): (rest: map<nat, Raw>)
    requires a in found
    ensures |rest| == |found| - 1
    ensures forall k :: k in rest <==> k in found && k != a
    ensures forall k :: k in rest ==> rest[k] == found[k]
  {
    assert (found - {a}).Keys == found.Keys - {a};
    assert |found| == |found.Keys| && |found - {a}| == |(found - {a}).Keys|;
    found - {a}
  }

  /** A `BTreeMap`'s values in key order. */
  function InOrder(found: map<nat, Raw>): (blocks: seq<Raw>)
    ensures |blocks| == |found|
    decreases |found|
  {
    if found == map[] then [] else
      var a := Least(found.Keys);
      [found[a]] + InOrder(Without(found, a))
  }

  lemma {:induction false} InOrderValues(found: map<nat, Raw>)
    requires KeyedByAddress(found)
    ensures forall b :: b in InOrder(found) <==> b.block.address in found && found[b.block.address] == b
    ensures Ascending(InOrder(found))
    decreases |found|
  {
    if found != map[] {
      var a := Least(found.Keys);
      var rest := InOrder(Without(found, a));
      InOrderValues(Without(found, a));
      assert InOrder(found) == [found[a]] + rest;
      assert forall b :: b in [found[a]] + rest <==> b == found[a] || b in rest;
      FirstAscending(found[a], rest);
    }
  }

  lemma FirstAscending(first: Raw, rest: seq<Raw>)
    requires Ascending(rest) && forall b :: b in rest ==> first.block.address < b.block.address
    ensures Ascending([first] + rest)
  {
    assert forall i :: 0 <= i < |rest| ==> rest[i] in rest;
  }

  ghost predicate Listed(m: BlockMap, a: nat) {
    exists b :: b in m.blocks && b.block.address == a
  }

  ghost predicate Covers(b: Raw, x: nat) {
    b.block.address <= x < b.block.address + b.block.length
  }

  ghost predicate Covered(blocks: seq<Raw>, x: nat) {
    exists b :: b in blocks && Covers(b, x)
  }

  ghost predicate InGap(gaps: seq<Gap>, x: nat) {
    exists g :: g in gaps && g.address <= x < g.address + g.length
  }

  ghost predicate Separated(gaps: seq<Gap>) {
    && (forall g :: g in gaps ==> g.length > 0)
    && (forall i, j :: 0 <= i < j < |gaps| ==> gaps[i].address + gaps[i].length < gaps[j].address)
  }

  function SaturatingSum(blocks: seq<Raw>): nat {
    if blocks == [] then 0 else
      var sum := SaturatingSum(blocks[..|blocks| - 1]) + blocks[|blocks| - 1].block.length;
      if sum < U64_LIMIT then sum else U64_LIMIT - 1
  }

  /** An entry is the ID block, or a reachable block exactly as the file spells it. */
  ghost predicate TrueEntry(g: Graph, m: BlockMap, b: Raw) {
    var a := b.block.address;
    && b.block == g.fields(a)
    && (a == 0 ==> g.hasId && b.referencedBy == [])
    && (a != 0 ==> g.verdict(a).Block? && Reachable(g, a))
    && Distinct(b.referencedBy)
    && forall r :: r in b.referencedBy ==> Listed(m, r) && Edge(g, r, a)
  }

  /** What the walk found is all there is to find: every reachable block with all its referrers. */
  ghost predicate ListsEverything(g: Graph, m: BlockMap) {
    && (g.hasId ==> Listed(m, 0))
    && (forall a: nat :: Reachable(g, a) ==> Listed(m, a))
    && (forall b, r: nat :: b in m.blocks && Listed(m, r) && Edge(g, r, b.block.address) ==> r in b.referencedBy)
  }

  /** A link the walk follows. */
  ghost predicate Followed(g: Graph, r: nat, t: nat) {
    (r == 0 && t == ID_BLOCK_SIZE) || (Reachable(g, r) && Edge(g, r, t))
  }

  /** Every warning is about something in the file, and everything wrong with a link has a warning. */
  ghost predicate WarnsExactly(g: Graph, m: BlockMap) {
    && (ShortFile in m.warnings <==> !g.hasId)
    && (forall r: nat, t: nat, fault :: BadTarget(r, t, fault) in m.warnings <==>
          Followed(g, r, t) && g.verdict(t) == Rejected(fault))
    && (forall a: nat, i: nat :: SelfLink(a, i) in m.warnings <==> Reachable(g, a) && LinksToItself(g, a, i))
  }

  /** The cap was met with a link still to follow. */
  ghost predicate StoppedShort(g: Graph, m: BlockMap) {
    |m.blocks| >= 2_000_000 && exists r: nat, t: nat :: Followed(g, r, t) && !Listed(m, t)
  }

  ghost predicate GapsExactly(m: BlockMap) {
    && Separated(m.gaps)
    && (forall x: nat :: InGap(m.gaps, x) <==> x < m.fileSize && !Covered(m.blocks, x))
  }

  /** The whole contract of `BlockMap::scan`. */
  ghost predicate Describes(f: File, m: BlockMap) {
    && m.fileSize == |f|
    && (m.unfinalized <==> |f| >= ID_BLOCK_SIZE && DeclaredUnfinalized(f))
    && Ascending(m.blocks)
    && (forall b :: b in m.blocks ==> TrueEntry(GraphOf(f), m, b))
    && (Stopped in m.warnings ==> StoppedShort(GraphOf(f), m))
    && (Stopped !in m.warnings ==> ListsEverything(GraphOf(f), m) && WarnsExactly(GraphOf(f), m))
    && GapsExactly(m)
    && m.coveredBytes == SaturatingSum(m.blocks)
  }

  /** What is listed at an address, by the bytes there. */
  lemma {:induction false} EntryByBytes(f: File, m: BlockMap, k: nat)
    requires Describes(f, m) && k < |m.blocks|
    ensures var b := m.blocks[k].block;
      b.address == 0 ==> |f| >= 64 && b == Fields(0, f[..4], 64, [], 64)
    ensures var b, a := m.blocks[k].block, m.blocks[k].block.address;
      a != 0 ==>
        && b.length >= 24 && a + b.length <= |f| && f[a] == f[a + 1] == 35 && b.blockType == f[a..a + 4]
        && b.length == FromLe(f[a + 8..a + 16]) == 24 + 8 * |b.links| + b.dataSize && |b.links| == FromLe(f[a + 16..a + 24])
        && forall i :: 0 <= i < |b.links| ==> b.links[i] == FromLe(f[a + 24 + 8 * i..a + 32 + 8 * i])
  {
    hide FromLe, ListsEverything, WarnsExactly, StoppedShort, GapsExactly, Reachable, Edge, Listed, DeclaredUnfinalized;
    var b := m.blocks[k].block;
    assert TrueEntry(GraphOf(f), m, m.blocks[k]);
    if b.address == 0 { assert b == IdFields(f); }
  }

  /** What is wrong with an address that is no block, by the bytes there. */
  lemma {:induction false} FaultByBytes(f: File, a: nat)
    ensures Judge(f, a) == Rejected(PastEnd) <==> a + 24 > |f|
    ensures Judge(f, a) == Rejected(NotABlock) <==> a + 24 <= |f| && !(f[a] == f[a + 1] == 35)
    ensures Judge(f, a) == Rejected(Overruns) <==>
      && a + 24 <= |f| && f[a] == f[a + 1] == 35
      && 24 + 8 * FromLe(f[a + 16..a + 24]) <= FromLe(f[a + 8..a + 16]) && |f| < a + FromLe(f[a + 8..a + 16])
    ensures Judge(f, a) == Rejected(BadHeader) <==>
      && a + 24 <= |f| && f[a] == f[a + 1] == 35 && FromLe(f[a + 8..a + 16]) < 24 + 8 * FromLe(f[a + 16..a + 24])
  {
    hide FromLe;
  }

  /** With the queue drained, every reachable block has been listed. */
  lemma {:induction false} DrainedFindsAll(g: Graph, found: map<nat, Raw>, warnings: seq<Warning>, a: nat, steps: nat)
    requires Complete(g, found, [], warnings) && ReachesIn(g, a, steps)
    ensures a in found
    decreases steps
  {
    if steps == 0 {
      assert Origin(g, found, 0, ID_BLOCK_SIZE);
      assert Settled(g, found, warnings, 0, ID_BLOCK_SIZE);
    } else {
      var b: nat :| ReachesIn(g, b, steps - 1) && Edge(g, b, a);
      DrainedFindsAll(g, found, warnings, b, steps - 1);
      assert Origin(g, found, b, a);
      assert Settled(g, found, warnings, b, a);
    }
  }

  lemma ListedBlocksFit(f: File, found: map<nat, Raw>)
    requires AllGenuine(GraphOf(f), found)
    ensures KeyedByAddress(found)
    ensures forall a :: a in found ==> found[a].block.length > 0 && a + found[a].block.length <= |f|
  {
    hide Genuine;
    forall a | a in found
      ensures found[a].block.address == a && found[a].block.length > 0 && a + found[a].block.length <= |f|
    {
      ListedBlockFits(f, found, a);
    }
  }

  lemma {:induction false} ListedBlockFits(f: File, found: map<nat, Raw>, a: nat)
    requires a in found && Genuine(GraphOf(f), found, a)
    ensures found[a].block.address == a && found[a].block.length > 0 && a + found[a].block.length <= |f|
  {
    hide FromLe, Reachable, Edge, Distinct;
    FieldsFit(f, a);
  }

  lemma {:induction false} FieldsFit(f: File, a: nat)
    requires if a == 0 then |f| >= ID_BLOCK_SIZE else Judge(f, a).Block?
    ensures var b := GraphOf(f).fields(a); b.address == a && b.length > 0 && a + b.length <= |f|
  {
    hide FromLe;
    var b := GraphOf(f).fields(a);
    if a == 0 { assert b == IdFields(f); } else { assert b == BlockFields(f, a); }
  }

  lemma ListedMeansFound(found: map<nat, Raw>, m: BlockMap)
    requires KeyedByAddress(found) && m.blocks == InOrder(found)
    ensures forall a: nat :: a in found <==> Listed(m, a)
    ensures forall b :: b in m.blocks ==> b.block.address in found && found[b.block.address] == b
  {
    InOrderValues(found);
    forall a: nat ensures a in found <==> Listed(m, a) {
      if a in found { assert found[a] in m.blocks; }
    }
  }

  lemma EntriesAreTrue(g: Graph, found: map<nat, Raw>, m: BlockMap)
    requires AllGenuine(g, found)
    requires forall a: nat :: a in found <==> Listed(m, a)
    requires forall b :: b in m.blocks ==> b.block.address in found && found[b.block.address] == b
    ensures forall b :: b in m.blocks ==> TrueEntry(g, m, b)
  {
    forall b | b in m.blocks ensures TrueEntry(g, m, b) {
      assert Genuine(g, found, b.block.address);
    }
  }

  lemma StoppedIsTrue(g: Graph, found: map<nat, Raw>, m: BlockMap)
    requires AllGenuine(g, found) && AllJustified(g, found, m.warnings) && Stopped in m.warnings
    requires forall a: nat :: a in found <==> Listed(m, a)
    requires |m.blocks| == |found|
    ensures StoppedShort(g, m)
  {
    assert Justified(g, found, Stopped);
    var r: nat, t: nat :| Origin(g, found, r, t) && t !in found;
    if r in found { assert Genuine(g, found, r); }
    assert Edge(g, r, t) ==> r != 0;
    assert Followed(g, r, t) && !Listed(m, t);
  }

  lemma ListingIsTrue(g: Graph, found: map<nat, Raw>, m: BlockMap)
    requires Sound(g, found, [], m.warnings) && KeyedByAddress(found) && m.blocks == InOrder(found)
    ensures forall a: nat :: a in found <==> Listed(m, a)
    ensures forall b :: b in m.blocks ==> TrueEntry(g, m, b)
    ensures Stopped in m.warnings ==> StoppedShort(g, m)
  {
    ListedMeansFound(found, m);
    EntriesAreTrue(g, found, m);
    if Stopped in m.warnings { StoppedIsTrue(g, found, m); }
  }

  lemma ListingIsComplete(g: Graph, found: map<nat, Raw>, m: BlockMap)
    requires Sound(g, found, [], m.warnings) && KeyedByAddress(found) && m.blocks == InOrder(found)
    requires Complete(g, found, [], m.warnings)
    ensures ListsEverything(g, m) && WarnsExactly(g, m)
  {
    ListedMeansFound(found, m);
    forall a: nat | Reachable(g, a) ensures a in found {
      var steps: nat :| ReachesIn(g, a, steps);
      DrainedFindsAll(g, found, m.warnings, a, steps);
    }
    forall a: nat | a in found && a != 0 ensures Reachable(g, a) {
      assert Genuine(g, found, a);
    }
    forall b, r: nat | b in m.blocks && Listed(m, r) && Edge(g, r, b.block.address) ensures r in b.referencedBy {
      assert Origin(g, found, r, b.block.address);
      assert Settled(g, found, m.warnings, r, b.block.address);
    }
    DrainedWarnings(g, found, m);
  }

  lemma DrainedWarnings(g: Graph, found: map<nat, Raw>, m: BlockMap)
    requires Sound(g, found, [], m.warnings) && Complete(g, found, [], m.warnings)
    requires forall a: nat :: a != 0 ==> (Reachable(g, a) <==> a in found)
    ensures WarnsExactly(g, m)
  {
    forall r: nat, t: nat ensures Followed(g, r, t) <==> Origin(g, found, r, t) {
      if Edge(g, r, t) { assert r != 0; }
    }
    forall r: nat, t: nat, fault
      ensures BadTarget(r, t, fault) in m.warnings <==> Followed(g, r, t) && g.verdict(t) == Rejected(fault)
    {
      if BadTarget(r, t, fault) in m.warnings {
        assert Justified(g, found, BadTarget(r, t, fault));
      }
      if Origin(g, found, r, t) && g.verdict(t) == Rejected(fault) {
        assert Settled(g, found, m.warnings, r, t);
        if t in found { assert Genuine(g, found, t); }
      }
    }
    forall a: nat, i: nat ensures SelfLink(a, i) in m.warnings <==> Reachable(g, a) && LinksToItself(g, a, i) {
      if SelfLink(a, i) in m.warnings { assert Justified(g, found, SelfLink(a, i)); }
    }
    if ShortFile in m.warnings { assert Justified(g, found, ShortFile); }
  }

  // ---------------------------------------------------------------- the gap sweep

  lemma GapBeforeBlock(blocks: seq<Raw>, i: nat, cursor: nat)
    requires Ascending(blocks) && i < |blocks|
    requires forall j :: 0 <= j < i ==> blocks[j].block.address + blocks[j].block.length <= cursor
    ensures forall x: nat :: cursor <= x < blocks[i].block.address ==> !Covered(blocks, x)
  {
    forall b, x: nat | b in blocks && cursor <= x < blocks[i].block.address ensures !Covers(b, x) {
      var j :| 0 <= j < |blocks| && blocks[j] == b;
    }
  }

  lemma ExtendGaps(gaps: seq<Gap>, g: Gap)
    ensures forall x: nat :: InGap(gaps + [g], x) <==> InGap(gaps, x) || g.address <= x < g.address + g.length
  {
    forall x: nat ensures InGap(gaps + [g], x) <==> InGap(gaps, x) || g.address <= x < g.address + g.length {
      if InGap(gaps, x) {
        var h :| h in gaps && h.address <= x < h.address + h.length;
        assert h in gaps + [g];
      }
      assert g in gaps + [g];
    }
  }

  /** The gap sweep of `finish`: `cursor` is the furthest byte any block so far has reached. */
  method SweepGaps(blocks: seq<Raw>, fileSize: nat) returns (gaps: seq<Gap>)
    requires Ascending(blocks)
    requires forall b :: b in blocks ==> b.block.length > 0 && b.block.address + b.block.length <= fileSize
    ensures Separated(gaps)
    ensures forall x: nat :: InGap(gaps, x) <==> x < fileSize && !Covered(blocks, x)
  {
    gaps := [];
    var cursor: nat := 0;
    for i := 0 to |blocks|
      invariant cursor <= fileSize
      invariant forall j :: 0 <= j < i ==> blocks[j].block.address + blocks[j].block.length <= cursor
      invariant forall x: nat :: InGap(gaps, x) <==> x < cursor && !Covered(blocks, x)
      invariant forall g :: g in gaps ==> g.address + g.length < cursor
      invariant Separated(gaps)
    {
      var block := blocks[i].block;
      ghost var cursor0 := cursor;
      assert blocks[i] in blocks;
      if block.address > cursor {
        GapBeforeBlock(blocks, i, cursor);
        ExtendGaps(gaps, Gap(cursor, block.address - cursor));
        gaps := gaps + [Gap(cursor, block.address - cursor)];
      }
      cursor := if block.address + block.length > cursor then block.address + block.length else cursor;
      forall x: nat | block.address <= x < cursor && cursor0 <= x ensures Covered(blocks, x) {
        assert Covers(blocks[i], x);
      }
    }
    if cursor < fileSize {
      forall b, x: nat | b in blocks && cursor <= x ensures !Covers(b, x) {
        var j :| 0 <= j < |blocks| && blocks[j] == b;
      }
      ExtendGaps(gaps, Gap(cursor, fileSize - cursor));
      gaps := gaps + [Gap(cursor, fileSize - cursor)];
    }
  }

  // ---------------------------------------------------------------- the walk itself

  class Walk {
    const source: File
    var found: map<nat, Raw>
    var queue: seq<(nat, nat)>
    var warnings: seq<Warning>
    var unfinalized: bool

    constructor (source: File)
      ensures this.source == source && found == map[] && queue == [] && warnings == [] && !unfinalized
    {
      this.source := source;
      found, queue, warnings, unfinalized := map[], [], [], false;
    }

    method ReadIdBlock()
      requires found == map[] && queue == [] && warnings == [] && !unfinalized
      modifies this
      ensures found == if |source| < ID_BLOCK_SIZE then map[] else map[0 := Raw(IdFields(source), [])]
      ensures warnings == if |source| < ID_BLOCK_SIZE then [ShortFile] else []
      ensures unfinalized <==> |source| >= ID_BLOCK_SIZE && DeclaredUnfinalized(source)
      ensures queue == []
    {
      if |source| < ID_BLOCK_SIZE {
        warnings := warnings + [ShortFile];
        return;
      }
      unfinalized := DeclaredUnfinalized(source);
      found := found[0 := Raw(IdFields(source), [])];
    }

    /** Queues the links of the block at `address`, reporting those that point at the block itself. */
    method QueueLinks(links: seq<nat>, address: nat) returns (ghost added: seq<(nat, nat)>, ghost reported: seq<Warning>)
      requires address != 0
      modifies this`queue, this`warnings
      ensures queue == old(queue) + added && warnings == old(warnings) + reported
      ensures LinksHandled(address, links, added, reported)
    {
      added, reported := [], [];
      for index := 0 to |links|
        invariant queue == old(queue) + added && warnings == old(warnings) + reported
        invariant LinksHandled(address, links[..index], added, reported)
      {
        var link := links[index];
        assert links[..index + 1] == links[..index] + [link];
        OneMoreLink(address, links[..index], link, added, reported);
        if link == 0 {
        } else if link == address {
          reported := reported + [SelfLink(address, index)];
          warnings := warnings + [SelfLink(address, index)];
        } else {
          added := added + [(link, address)];
          queue := queue + [(link, address)];
        }
      }
      assert links[..|links|] == links;
    }

    /** Handles the popped address `address`, met through `referrer`. */
    method Visit(address: nat, referrer: nat, ghost g: Graph)
      requires g == GraphOf(source)
      requires WalkInvariant(g, found, [(address, referrer)] + queue, warnings)
      requires address !in found && |found| < MAX_BLOCKS
      modifies this`found, this`queue, this`warnings
      ensures WalkInvariant(g, found, queue, warnings)
      ensures (found == old(found) && queue == old(queue)) || |found| == old(|found|) + 1
    {
      match Judge(source, address)
      case Rejected(fault) =>
        PopRejected(g, found, queue, warnings, address, referrer);
        warnings := warnings + [BadTarget(referrer, address, fault)];
      case Block =>
        var block := BlockFields(source, address);
        ghost var added, reported := QueueLinks(block.links, address);
        PopBlock(g, found, old(queue), old(warnings), address, referrer, added, reported);
        found := found[address := Raw(block, if referrer == 0 then [] else [referrer])];
    }

    /** Notes the referrer of a popped address that is already listed. */
    method Note(address: nat, referrer: nat, ghost g: Graph)
      requires address in found && WalkInvariant(g, found, [(address, referrer)] + queue, warnings)
      modifies this`found
      ensures WalkInvariant(g, found, queue, warnings) && |found| == old(|found|)
    {
      PopListed(g, found, queue, warnings, address, referrer);
      found := Noted(found, address, referrer);
    }

    method Stop(ghost popped: seq<(nat, nat)>, ghost g: Graph)
      requires WalkInvariant(g, found, popped, warnings) && |found| >= MAX_BLOCKS
      requires popped != [] && popped[0].0 !in found
      modifies this`warnings
      ensures Stopped in warnings && Sound(g, found, [], warnings)
    {
      StopWalk(g, found, popped, warnings);
      warnings := warnings + [Stopped];
    }

    /** Takes the next address off the queue. */
    method Pop(ghost g: Graph) returns (address: nat, referrer: nat)
      requires queue != [] && WalkInvariant(g, found, queue, warnings)
      modifies this`queue
      ensures old(queue) == [(address, referrer)] + queue
      ensures WalkInvariant(g, found, [(address, referrer)] + queue, warnings)
    {
      address, referrer := queue[0].0, queue[0].1;
      queue := queue[1..];
      assert old(queue) == [(address, referrer)] + queue;
    }

    /** Follows links until none is left or the cap is met. */
    method Follow(ghost g: Graph)
      requires g == GraphOf(source) && WalkInvariant(g, found, queue, warnings)
      modifies this`found, this`queue, this`warnings
      ensures Sound(g, found, [], warnings) && (Stopped in warnings || Complete(g, found, [], warnings))
    {
      while queue != []
        invariant WalkInvariant(g, found, queue, warnings)
        decreases MAX_BLOCKS - |found|, |queue|
      {
        var address, referrer := Pop(g);
        if address in found {
          Note(address, referrer, g);
        } else if |found| >= MAX_BLOCKS {
          Stop([(address, referrer)] + queue, g);
          return;
        } else {
          Visit(address, referrer, g);
        }
      }
    }

    method Run() returns (m: BlockMap)
      requires found == map[] && queue == [] && warnings == [] && !unfinalized
      modifies this
      ensures Describes(source, m)
    {
      hide Describes, DeclaredUnfinalized, Sound, Complete, FromLe;
      ReadIdBlock();
      queue := queue + [(ID_BLOCK_SIZE, 0)];
      ghost var g := GraphOf(source);
      Started(g, found, warnings);
      assert queue == [(ID_BLOCK_SIZE, 0)];
      Follow(g);
      m := Finish(g);
    }

    method CoveredBytes(blocks: seq<Raw>) returns (coveredBytes: nat)
      ensures coveredBytes == SaturatingSum(blocks)
    {
      coveredBytes := 0;
      for i := 0 to |blocks|
        invariant coveredBytes == SaturatingSum(blocks[..i])
      {
        assert blocks[..i + 1][..i] == blocks[..i];
        var sum := coveredBytes + blocks[i].block.length;
        coveredBytes := if sum < U64_LIMIT then sum else U64_LIMIT - 1;
      }
      assert blocks[..|blocks|] == blocks;
    }

    method Finish(ghost g: Graph) returns (m: BlockMap)
      requires g == GraphOf(source) && Sound(g, found, [], warnings)
      requires Stopped in warnings || Complete(g, found, [], warnings)
      requires unfinalized <==> |source| >= ID_BLOCK_SIZE && DeclaredUnfinalized(source)
      ensures Describes(source, m)
    {
      hide AllGenuine, QueueSound, AllJustified, Complete, Describes, DeclaredUnfinalized, InOrder, SaturatingSum;
      ListedBlocksFit(source, found);
      var blocks := InOrder(found);
      InOrderValues(found);
      var coveredBytes := CoveredBytes(blocks);
      var gaps := SweepGaps(blocks, |source|);
      m := BlockMap(blocks, gaps, |source|, coveredBytes, warnings, unfinalized);
      FinishedMap(source, found, m);
    }
  }

  lemma {:induction false} FinishedMap(f: File, found: map<nat, Raw>, m: BlockMap)
    requires Sound(GraphOf(f), found, [], m.warnings) && KeyedByAddress(found)
    requires Stopped in m.warnings || Complete(GraphOf(f), found, [], m.warnings)
    requires m.fileSize == |f| && (m.unfinalized <==> |f| >= ID_BLOCK_SIZE && DeclaredUnfinalized(f))
    requires m.blocks == InOrder(found) && GapsExactly(m) && m.coveredBytes == SaturatingSum(m.blocks)
    ensures Describes(f, m)
  {
    hide Sound, Complete, TrueEntry, ListsEverything, WarnsExactly, StoppedShort, DeclaredUnfinalized, GapsExactly, SaturatingSum, InOrder;
    InOrderValues(found);
    ListingIsTrue(GraphOf(f), found, m);
    if Stopped !in m.warnings { ListingIsComplete(GraphOf(f), found, m); }
  }

  /** `BlockMap::scan`: maps any byte string whatever. */
  method Scan(source: File) returns (m: BlockMap)
    ensures Describes(source, m)
  {
    var walk := new Walk(source);
    m := walk.Run();
  }
}
