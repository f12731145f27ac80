/** Which records the chunks of an interleaved stream leave out, by their offsets in the record index; and chunked
    reading put beside indexing and gathering. */
module StreamingLosses {
  import opened Arithmetic
  import opened Bytes
  import opened Options
  import opened DataBlocks
  import opened Demux
  import opened Streaming
  import opened StreamingRefines

  /** A record that is recognised and fits in a part of the data is recognised in that part. */
  ghost predicate Local(p: Recogniser) {
    forall a, b :: p(a + b).Some? && p(a + b).value.length <= |a| ==> p(a) == p(a + b)
  }

  /** Every logged record of the group ends within `limit`. */
  ghost predicate EndsWithin(log: seq<(nat, nat)>, g: nat, size: nat, limit: nat) {
    forall k :: 0 <= k < |log| && log[k].0 == g ==> log[k].1 + size <= limit
  }

  ghost predicate NoneOf(log: seq<(nat, nat)>, g: nat) {
    forall k :: 0 <= k < |log| ==> log[k].0 != g
  }

  ghost predicate FromOn(log: seq<(nat, nat)>, base: nat) {
    forall k :: 0 <= k < |log| ==> log[k].1 >= base
  }

  lemma {:induction false} LogFromOn(p: Recogniser, base: nat, rest: seq<byte>)
    ensures FromOn(BlockLog(p, base, rest), base)
    decreases |rest|
  {
    if rest != [] && p(rest).Some? && p(rest).value.length <= |rest| {
      LogFromOn(p, base + p(rest).value.length, rest[p(rest).value.length..]);
    }
  }

  /** The walk meets no record of the target exactly when it logs none. */
  lemma {:induction false} NoTargets(p: Recogniser, base: nat, rest: seq<byte>, id: nat, g: nat, idSize: nat, size: nat)
    requires Targets(p, id, g, size) && idSize <= size
    ensures TargetList(p, rest, id, idSize) == [] <==> NoneOf(BlockLog(p, base, rest), g)
    decreases |rest|
  {
    hide NoneOf, TargetList, BlockLog;
    EmptyLog(g, size, 0);
    NoWalk(p, base, rest, id, idSize);
    if rest != [] && p(rest).Some? {
      var r := p(rest).value;
      if r.length <= |rest| {
        LogStep(p, base, rest, r, rest[r.length..]);
        WalkStep(p, rest, r, rest[r.length..], id, idSize);
        NoTargets(p, base + r.length, rest[r.length..], id, g, idSize, size);
        NoneOfCons((r.group, base), BlockLog(p, base + r.length, rest[r.length..]), g);
      } else {
        NoneOfCons((r.group, base), [], g);
      }
    }
  }

  /** Where no whole record is at the front, no record is listed, and one that overruns is the last logged. */
  lemma {:induction false} NoWalk(p: Recogniser, base: nat, rest: seq<byte>, id: nat, idSize: nat)
    ensures rest == [] || p(rest).None? ==> TargetList(p, rest, id, idSize) == [] && BlockLog(p, base, rest) == []
    ensures rest != [] && p(rest).Some? && p(rest).value.length > |rest| ==>
      TargetList(p, rest, id, idSize) == [] && BlockLog(p, base, rest) == [(p(rest).value.group, base)] + []
  {
  }

  lemma {:induction false} NoneOfCons(first: (nat, nat), log: seq<(nat, nat)>, g: nat)
    ensures NoneOf([first] + log, g) <==> first.0 != g && NoneOf(log, g)
  {
    if NoneOf([first] + log, g) {
      assert ([first] + log)[0] == first;
      forall k | 0 <= k < |log| ensures log[k].0 != g { assert ([first] + log)[k + 1] == log[k]; }
    }
  }

  lemma {:induction false} WithinCons(first: (nat, nat), log: seq<(nat, nat)>, g: nat, size: nat, limit: nat)
    ensures EndsWithin([first] + log, g, size, limit)
       <==> (first.0 == g ==> first.1 + size <= limit) && EndsWithin(log, g, size, limit)
  {
    if EndsWithin([first] + log, g, size, limit) {
      assert ([first] + log)[0] == first;
      forall k | 0 <= k < |log| && log[k].0 == g ensures log[k].1 + size <= limit { assert ([first] + log)[k + 1] == log[k]; }
    }
  }

  /** Past the limit, ending within it means not being there. */
  lemma {:induction false} AllPast(log: seq<(nat, nat)>, g: nat, size: nat, limit: nat, base: nat)
    requires FromOn(log, base) && base + size > limit
    ensures EndsWithin(log, g, size, limit) <==> NoneOf(log, g)
  {
  }

  /** What is left of the walk when only `limit` bytes are shown holds no record of the target exactly when every
      record of it that the whole walk logs ends within them. */
  lemma {:induction false} WalkWithin(p: Recogniser, base: nat, rest: seq<byte>, limit: nat, id: nat, g: nat, idSize: nat, size: nat)
    requires Stable(p) && Local(p) && Targets(p, id, g, size) && idSize <= size && size > 0 && limit <= |rest|
    ensures TargetList(p, rest[Consumed(p, rest[..limit])..], id, idSize) == []
       <==> EndsWithin(BlockLog(p, base, rest), g, size, base + limit)
    decreases |rest|
  {
    hide Stable, Local, Targets, NoneOf, EndsWithin, FromOn, TargetList, BlockLog, Consumed;
    var shown := rest[..limit];
    assert shown + rest[limit..] == rest;
    assert rest[0..] == rest;
    if rest == [] || p(rest).None? {
      NothingWalked(p, rest, limit);
      NoTargets(p, base, rest, id, g, idSize, size);
      NothingLogged(p, base, rest);
      EmptyLog(g, size, base + limit);
    } else {
      var r := p(rest).value;
      if r.length <= limit {
        RecognisedInPart(p, shown, rest[limit..]);
        var left := rest[r.length..];
        var part := left[..limit - r.length];
        assert shown[r.length..] == part;
        WalkWithin(p, base + r.length, left, limit - r.length, id, g, idSize, size);
        LogStep(p, base, rest, r, left);
        WithinCons((r.group, base), BlockLog(p, base + r.length, left), g, size, base + limit);
        TargetSize(p, rest, id, g, size);
        WalkStep(p, shown, r, part, id, idSize);
        assert rest[r.length + Consumed(p, part)..] == left[Consumed(p, part)..];
      } else {
        NothingWalked(p, rest, limit);
        TargetSize(p, rest, id, g, size);
        NoTargets(p, base, rest, id, g, idSize, size);
        PastFirst(p, base, rest, limit, g, size);
      }
    }
  }

  lemma {:induction false} NothingLogged(p: Recogniser, base: nat, rest: seq<byte>)
    requires rest == [] || p(rest).None?
    ensures BlockLog(p, base, rest) == []
  {
  }

  lemma {:induction false} LogStep(p: Recogniser, base: nat, rest: seq<byte>, r: Found, left: seq<byte>)
    requires rest != [] && p(rest) == Some(r) && r.length <= |rest| && left == rest[r.length..]
    ensures BlockLog(p, base, rest) == [(r.group, base)] + BlockLog(p, base + r.length, left)
  {
  }

  lemma {:induction false} EmptyLog(g: nat, size: nat, limit: nat)
    ensures NoneOf([], g) && EndsWithin([], g, size, limit)
  {
  }

  lemma {:induction false} TargetSize(p: Recogniser, rest: seq<byte>, id: nat, g: nat, size: nat)
    requires Targets(p, id, g, size) && p(rest).Some?
    ensures p(rest).value.group == g ==> p(rest).value.length == size
  {
  }

  lemma {:induction false} PastFirst(p: Recogniser, base: nat, rest: seq<byte>, limit: nat, g: nat, size: nat)
    requires rest != [] && p(rest).Some? && p(rest).value.length > limit
    requires p(rest).value.group == g ==> p(rest).value.length == size
    requires size > 0
    ensures EndsWithin(BlockLog(p, base, rest), g, size, base + limit) <==> NoneOf(BlockLog(p, base, rest), g)
  {
    hide NoneOf, EndsWithin, FromOn;
    var r := p(rest).value;
    var later := if r.length > |rest| then [] else BlockLog(p, base + r.length, rest[r.length..]);
    WithinCons((r.group, base), later, g, size, base + limit);
    NoneOfCons((r.group, base), later, g);
    if r.length <= |rest| {
      LogFromOn(p, base + r.length, rest[r.length..]);
      AllPast(later, g, size, base + limit, base + r.length);
    } else {
      EmptyLog(g, size, base + limit);
    }
  }

  lemma {:induction false} NothingWalked(p: Recogniser, rest: seq<byte>, limit: nat)
    requires Stable(p) && limit <= |rest|
    requires rest == [] || p(rest).None? || p(rest).value.length > limit
    ensures Consumed(p, rest[..limit]) == 0
  {
    assert rest[..limit] + rest[limit..] == rest;
    RecognisedInWhole(p, rest[..limit], rest[limit..]);
  }

  lemma {:induction false} RecognisedInWhole(p: Recogniser, a: seq<byte>, b: seq<byte>)
    requires Stable(p)
    ensures p(a).Some? && p(a).value.length <= |a| ==> p(a + b) == p(a)
  {
  }

  lemma {:induction false} RecognisedInPart(p: Recogniser, a: seq<byte>, b: seq<byte>)
    requires Stable(p) && Local(p) && p(a + b).Some? && p(a + b).value.length <= |a|
    ensures p(a) == p(a + b)
  {
  }

  // ---------------------------------------------------------------- the reader's recogniser

  lemma {:induction false} ReaderLocal(records: map<nat, Entry>, idSize: nat)
    ensures Local(RecogniserFor(records, idSize))
  {
    var p := RecogniserFor(records, idSize);
    forall a, b | p(a + b).Some? && p(a + b).value.length <= |a| ensures p(a) == p(a + b) {
      assert (a + b)[..idSize] == a[..idSize];
      if idSize + 4 <= |a| { assert (a + b)[idSize..idSize + 4] == a[idSize..idSize + 4]; }
    }
  }

  /** No record of the group that the index has in this block ends past what the block's windows show. */
  ghost predicate IndexedInShown(groups: seq<GroupInfo>, idSize: nat, g: nat, b: Block)
    requires g < |groups| && Openable(b)
  {
    EndsWithin(BlockLog(RecogniserFor(RecordMap(groups), idSize), 0, Payload(b).value), g, idSize + groups[g].payloadSize, |Shown(b)|)
  }

  lemma {:induction false} LostByOffset(groups: seq<GroupInfo>, idSize: nat, g: nat, b: Block)
    requires DistinctIds(groups) && g < |groups| && !groups[g].isVlsd && groups[g].payloadSize > 0 && Openable(b)
    ensures Lost(UnsortedMode(groups, idSize, g), b) == [] <==> IndexedInShown(groups, idSize, g, b)
  {
    hide Stable, Local, Targets, EndsWithin, TargetList, BlockLog, Consumed, Shown;
    var m := UnsortedMode(groups, idSize, g);
    ReaderStable(RecordMap(groups), idSize);
    ReaderLocal(RecordMap(groups), idSize);
    GroupTargets(groups, idSize, g);
    ShownIsPrefix(b);
    WalkWithin(m.recogniser, 0, Payload(b).value, |Shown(b)|, m.id, g, idSize, idSize + groups[g].payloadSize);
  }

  /** Streaming gives all that is gathered exactly when every record of the group that the index has ends within the
      size its block declares. */
  lemma {:induction false} StreamedByOffset(groups: seq<GroupInfo>, idSize: nat, g: nat, blocks: seq<Block>)
    requires DistinctIds(groups) && g < |groups| && !groups[g].isVlsd && groups[g].payloadSize > 0 && AllOpenable(blocks)
    ensures NothingLost(UnsortedMode(groups, idSize, g), blocks)
       <==> forall i :: 0 <= i < |blocks| ==> IndexedInShown(groups, idSize, g, blocks[i])
  {
    hide Lost, IndexedInShown, Openable;
    forall i | 0 <= i < |blocks|
      ensures Lost(UnsortedMode(groups, idSize, g), blocks[i]) == [] <==> IndexedInShown(groups, idSize, g, blocks[i])
    {
      LostByOffset(groups, idSize, g, blocks[i]);
    }
  }

  // ---------------------------------------------------------------- both readers over one file

  method ReadPayloads(blocks: seq<Block>) returns (parts: seq<seq<byte>>)
    requires AllOpenable(blocks)
    ensures parts == PayloadList(blocks)
  {
    hide Payload;
    parts := [];
    for i := 0 to |blocks|
      invariant |parts| == i && forall k :: 0 <= k < i ==> parts[k] == PayloadList(blocks)[k]
    {
      var part := ReadBlockPayload(blocks[i]);
      parts := parts + [part.value];
    }
  }

  /** A group's records read both ways: index and gather, and by chunks up to the indexed count. */
  method ReadBothWays(groups: seq<GroupInfo>, idSize: nat, g: nat, blocks: seq<Block>)
    returns (gathered: seq<byte>, chunked: seq<byte>, count: nat)
    requires DistinctIds(groups) && g < |groups| && !groups[g].isVlsd && groups[g].payloadSize > 0 && AllOpenable(blocks)
    ensures |gathered| == count * groups[g].payloadSize
    ensures chunked == gathered <==> forall i :: 0 <= i < |blocks| ==> IndexedInShown(groups, idSize, g, blocks[i])
  {
    hide Openable, AllOpenable, NothingLost, IndexedInShown, StreamLog, OffsetsOf, RecordMap, RecogniserFor, Gathered, ValidMode, DistinctIds;
    var m, payload := UnsortedMode(groups, idSize, g), groups[g].payloadSize;
    var parts := ReadPayloads(blocks);
    var index, seed := IndexRecords(groups, idSize, parts, true);
    gathered, count := GatherRecords(seed.value, index[g], idSize, payload);
    StreamingRefinesGather(groups, idSize, g, blocks);
    StreamedByOffset(groups, idSize, g, blocks);
    AllGathered(groups, idSize, g, blocks, index[g]);
    DivUnique(|gathered|, payload, |index[g]|, 0);
    ghost var all := AllRecords(m, payload, blocks);
    chunked := ReadByChunks(m, payload, blocks, count);
    assert all[..|all|] == all;
  }

  lemma {:induction false} AllGathered(groups: seq<GroupInfo>, idSize: nat, g: nat, blocks: seq<Block>, offsets: seq<nat>)
    requires DistinctIds(groups) && g < |groups| && !groups[g].isVlsd && groups[g].payloadSize > 0 && AllOpenable(blocks)
    requires offsets == OffsetsOf(StreamLog(RecogniserFor(RecordMap(groups), idSize), PayloadList(blocks)), g)
    ensures |Gathered(Flatten(PayloadList(blocks)), offsets, idSize, groups[g].payloadSize)| == |offsets| * groups[g].payloadSize
  {
    hide Targets, Gathered, StreamLog, OffsetsOf, EagerList;
    var p := RecogniserFor(RecordMap(groups), idSize);
    GroupTargets(groups, idSize, g);
    GatherCounts(p, PayloadList(blocks), groups[g].recordId, g, idSize, groups[g].payloadSize);
  }
}
