/** A written file walks cleanly: what the block walk (src/inspect.rs) reports of the bytes the writer emits. */
module WrittenFile {
  import opened Bytes
  import opened BlockFormat
  import opened LinkTree
  import W = BlockWalk

  // ---------------------------------------------------------------- one block reads back

  function Offsets(links: seq<Link>): (offsets: seq<nat>)
    ensures |offsets| == |links|
  {
    seq(|links|, k requires 0 <= k < |links| => Offset(links[k]))
  }

  /** What the walk is to list for block `b` at `a`. */
  function FieldsOf(b: Blk, a: nat): W.Fields {
    W.Fields(a, KindId(b.kind), Size(b), Offsets(b.links), |b.body|)
  }

  lemma {:induction false} LinkBytesAt(links: seq<Link>, k: nat)
    requires k < |links|
    ensures LinkBytes(links)[8 * k..8 * k + 8] == Le64(Offset(links[k]))
  {
    var n := |links| - 1;
    if k < n {
      LinkBytesAt(links[..n], k);
      assert LinkBytes(links)[8 * k..8 * k + 8] == LinkBytes(links[..n])[8 * k..8 * k + 8];
    }
  }

  lemma {:induction false} HeaderBytes(b: Blk)
    ensures BlkBytes(b)[0..4] == KindId(b.kind)
    ensures BlkBytes(b)[8..16] == Le64(b.length) && BlkBytes(b)[16..24] == Le64(b.linkCount)
    ensures BlkBytes(b)[24..24 + 8 * |b.links|] == LinkBytes(b.links)
  {
    hide LinkBytes, Le64, KindId, Zeros;
    var head := KindId(b.kind) + Zeros(4) + Le64(b.length) + Le64(b.linkCount);
    assert |head| == 24;
    assert BlkBytes(b) == head + LinkBytes(b.links) + b.body;
  }

  lemma {:induction false} LinkReadsBack(f: W.File, a: nat, b: Blk, k: nat)
    requires a + Size(b) <= |f| && f[a..a + Size(b)] == BlkBytes(b) && k < |b.links| && Offset(b.links[k]) < U64_LIMIT
    ensures W.LinkAt(f, a, k) == Offset(b.links[k])
  {
    hide BlkBytes, LinkBytes, Le64, FromLe;
    HeaderBytes(b);
    LinkBytesAt(b.links, k);
    SliceOfSlice(BlkBytes(b), 24, LinkBytes(b.links), 8 * k, 8);
    SliceOfSlice(f, a, BlkBytes(b), 24 + 8 * k, 8);
    Le64RoundTrip(Offset(b.links[k]));
  }

  lemma {:induction false} HeaderReadsBack(f: W.File, a: nat, b: Blk)
    requires a + Size(b) <= |f| < U64_LIMIT && f[a..a + Size(b)] == BlkBytes(b) && Honest(b)
    ensures f[a..a + 4] == KindId(b.kind)
    ensures W.DeclaredLength(f, a) == Size(b) && W.LinkCount(f, a) == |b.links|
  {
    hide BlkBytes, Le64, FromLe, KindId;
    HeaderBytes(b);
    SliceOfSlice(f, a, BlkBytes(b), 0, 4);
    SliceOfSlice(f, a, BlkBytes(b), 8, 8);
    SliceOfSlice(f, a, BlkBytes(b), 16, 8);
    Le64RoundTrip(b.length);
    Le64RoundTrip(b.linkCount);
  }

  lemma {:induction false} BlockReadsBack(f: W.File, a: nat, b: Blk)
    requires a + Size(b) <= |f| < U64_LIMIT && f[a..a + Size(b)] == BlkBytes(b) && Honest(b)
    requires forall k :: 0 <= k < |b.links| ==> Offset(b.links[k]) < U64_LIMIT
    ensures W.Judge(f, a).Block? && W.BlockFields(f, a) == FieldsOf(b, a)
  {
    hide BlkBytes, W.LinkAt, W.DeclaredLength, W.LinkCount;
    HeaderReadsBack(f, a, b);
    assert f[a] == f[a..a + 4][0] && f[a + 1] == f[a..a + 4][1];
    forall k | 0 <= k < |b.links| ensures W.Links(f, a)[k] == Offsets(b.links)[k] {
      LinkReadsBack(f, a, b, k);
    }
    assert W.Links(f, a) == Offsets(b.links);
  }

  // ---------------------------------------------------------------- the whole file

  lemma {:induction false} SerializedAt(blocks: seq<Blk>, i: nat)
    requires i < |blocks|
    ensures Extent(blocks[..i]) + Size(blocks[i]) <= Extent(blocks)
    ensures Serialized(blocks)[Extent(blocks[..i])..Extent(blocks[..i]) + Size(blocks[i])] == BlkBytes(blocks[i])
  {
    hide BlkBytes, Size;
    var n := |blocks| - 1;
    var before := blocks[..n];
    assert Serialized(blocks) == Serialized(before) + BlkBytes(blocks[n]);
    if i < n {
      SerializedAt(before, i);
      assert before[..i] == blocks[..i];
      var at, size := Extent(blocks[..i]), Size(blocks[i]);
      assert Serialized(blocks)[at..at + size] == Serialized(before)[at..at + size];
    }
  }

  const ID_END: nat := 64

  /** A file as the writer lays it out: an ID block, then blocks that say their true lengths and form a tree. */
  ghost predicate Laid(f: W.File, id: seq<byte>, blocks: seq<Blk>) {
    && |id| == ID_END && f == id + Serialized(blocks) && |f| < U64_LIMIT
    && blocks != [] && blocks[0].kind == HD && Tree(ID_END, blocks, HD) && AllHonest(blocks)
  }

  lemma {:induction false} BlockIsThere(f: W.File, id: seq<byte>, blocks: seq<Blk>, i: nat)
    requires |id| == ID_END && f == id + Serialized(blocks) && i < |blocks|
    ensures StartOf(ID_END, blocks, i) + Size(blocks[i]) <= |f|
    ensures f[StartOf(ID_END, blocks, i)..StartOf(ID_END, blocks, i) + Size(blocks[i])] == BlkBytes(blocks[i])
  {
    hide Serialized, BlkBytes, Extent;
    SerializedAt(blocks, i);
    var at, size := Extent(blocks[..i]), Size(blocks[i]);
    assert f[ID_END + at..ID_END + at + size] == Serialized(blocks)[at..at + size];
  }

  lemma {:induction false} LinksFit(f: W.File, id: seq<byte>, blocks: seq<Blk>, i: nat)
    requires Laid(f, id, blocks) && i < |blocks|
    ensures forall k :: 0 <= k < |blocks[i].links| ==> Offset(blocks[i].links[k]) < U64_LIMIT
  {
    hide Serialized, Tree, AllHonest, StartOf, Extent;
    forall k | 0 <= k < |blocks[i].links| ensures Offset(blocks[i].links[k]) < U64_LIMIT {
      if blocks[i].links[k].To? {
        var j := LinkLands(ID_END, blocks, HD, i, k);
        BlockIsThere(f, id, blocks, j);
      }
    }
  }

  /** The walk's graph has every block as it was emitted. */
  ghost predicate Mapped(g: W.Graph, blocks: seq<Blk>) {
    forall i :: 0 <= i < |blocks| ==>
      var a := StartOf(ID_END, blocks, i);
      g.verdict(a).Block? && g.fields(a) == FieldsOf(blocks[i], a)
  }

  lemma {:induction false} FileIsMapped(f: W.File, id: seq<byte>, blocks: seq<Blk>)
    requires Laid(f, id, blocks)
    ensures W.GraphOf(f).hasId && Mapped(W.GraphOf(f), blocks)
  {
    hide Serialized, Tree, StartOf, FieldsOf, W.Judge, W.BlockFields, BlkBytes;
    forall i | 0 <= i < |blocks|
      ensures var a := StartOf(ID_END, blocks, i);
              W.GraphOf(f).verdict(a).Block? && W.GraphOf(f).fields(a) == FieldsOf(blocks[i], a)
    {
      var a := StartOf(ID_END, blocks, i);
      assert a >= ID_END by { StartsPastId(blocks, i); }
      BlockIsThere(f, id, blocks, i);
      LinksFit(f, id, blocks, i);
      BlockReadsBack(f, a, blocks[i]);
    }
  }

  lemma {:induction false} StartsPastId(blocks: seq<Blk>, i: nat)
    requires i <= |blocks|
    ensures StartOf(ID_END, blocks, i) >= ID_END
  {
  }

  // ---------------------------------------------------------------- its graph

  /** The walk's edges are the emitted links. */
  lemma {:induction false} EdgeIsLink(g: W.Graph, blocks: seq<Blk>, i: nat, t: nat)
    requires Mapped(g, blocks) && Tree(ID_END, blocks, HD) && i < |blocks|
    ensures W.Edge(g, StartOf(ID_END, blocks, i), t)
       <==> exists k :: 0 <= k < |blocks[i].links| && blocks[i].links[k].To? && blocks[i].links[k].target == t
  {
    hide Tree;
    var a := StartOf(ID_END, blocks, i);
    StartsPastId(blocks, i);
    assert g.fields(a) == FieldsOf(blocks[i], a);
    var offsets := Offsets(blocks[i].links);
    if W.Edge(g, a, t) {
      var k :| 0 <= k < |offsets| && offsets[k] == t;
      assert blocks[i].links[k].To?;
    }
    if k :| 0 <= k < |blocks[i].links| && blocks[i].links[k].To? && blocks[i].links[k].target == t {
      var j := LinkLands(ID_END, blocks, HD, i, k);
      StartsAscend(ID_END, blocks, i, j);
      assert offsets[k] == t;
    }
  }

  /** Address `a` is where some block begins. */
  ghost predicate IsStart(blocks: seq<Blk>, a: nat) {
    exists i :: 0 <= i < |blocks| && StartOf(ID_END, blocks, i) == a
  }

  lemma {:induction false} EdgeLands(g: W.Graph, blocks: seq<Blk>, r: nat, t: nat)
    requires Mapped(g, blocks) && Tree(ID_END, blocks, HD) && IsStart(blocks, r) && W.Edge(g, r, t)
    ensures IsStart(blocks, t)
  {
    hide Tree, Mapped, W.Edge;
    var i :| 0 <= i < |blocks| && StartOf(ID_END, blocks, i) == r;
    EdgeIsLink(g, blocks, i, t);
    var k :| 0 <= k < |blocks[i].links| && blocks[i].links[k].To? && blocks[i].links[k].target == t;
    var j := LinkLands(ID_END, blocks, HD, i, k);
  }

  lemma {:induction false} StartReachable(g: W.Graph, blocks: seq<Blk>, j: nat)
    requires Mapped(g, blocks) && Tree(ID_END, blocks, HD) && j < |blocks|
    ensures W.Reachable(g, StartOf(ID_END, blocks, j))
  {
    hide Tree, W.Edge, W.Reachable;
    var a := StartOf(ID_END, blocks, j);
    assert g.verdict(a).Block?;
    if j == 0 {
      assert blocks[..0] == [];
      W.ReachableRoot(g);
    } else {
      var i, k := HasReferrer(ID_END, blocks, HD, j);
      StartReachable(g, blocks, i);
      EdgeIsLink(g, blocks, i, a);
      W.ReachableStep(g, StartOf(ID_END, blocks, i), a);
    }
  }

  lemma {:induction false} ReachedIsStart(g: W.Graph, blocks: seq<Blk>, a: nat, steps: nat)
    requires Mapped(g, blocks) && Tree(ID_END, blocks, HD) && blocks != [] && W.ReachesIn(g, a, steps)
    ensures IsStart(blocks, a)
    decreases steps
  {
    hide Tree, W.Edge, Mapped;
    if steps == 0 {
      assert blocks[..0] == [] && StartOf(ID_END, blocks, 0) == ID_END;
    } else {
      var b: nat :| W.ReachesIn(g, b, steps - 1) && W.Edge(g, b, a);
      ReachedIsStart(g, blocks, b, steps - 1);
      EdgeLands(g, blocks, b, a);
    }
  }

  lemma {:induction false} ReachableIsStart(g: W.Graph, blocks: seq<Blk>, a: nat)
    requires Mapped(g, blocks) && Tree(ID_END, blocks, HD) && blocks != []
    ensures W.Reachable(g, a) <==> IsStart(blocks, a)
  {
    hide Tree, Mapped;
    if W.Reachable(g, a) {
      var steps: nat :| W.ReachesIn(g, a, steps);
      ReachedIsStart(g, blocks, a, steps);
    }
    if IsStart(blocks, a) {
      var j :| 0 <= j < |blocks| && StartOf(ID_END, blocks, j) == a;
      StartReachable(g, blocks, j);
    }
  }
}
