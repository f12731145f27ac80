/** When every block's header states the length and the links that are emitted with it. */
module FileHonesty {
  import opened Bytes
  import opened Options
  import opened WriterModel
  import opened BlockFormat
  import opened FileLayout
  import opened FileBlocks

  /** A channel's dimension count fits the u16 it is written as. */
  predicate ShapeFits(c: Channel) {
    c.shape.Some? ==> |c.shape.value| < 0x1_0000
  }

  ghost predicate ShapesFit(dgs: seq<DataGroup>) {
    forall d, g, c :: 0 <= d < |dgs| && 0 <= g < |dgs[d].groups| && 0 <= c < |dgs[d].groups[g].channels| ==>
      ShapeFits(dgs[d].groups[g].channels[c])
  }

  ghost predicate GroupFits(g: Group) {
    forall c :: 0 <= c < |g.channels| ==> ShapeFits(g.channels[c])
  }

  ghost predicate DataGroupFits(d: DataGroup) {
    forall g :: 0 <= g < |d.groups| ==> GroupFits(d.groups[g])
  }

  lemma {:induction false} BothHonest(a: seq<Blk>, b: seq<Blk>)
    ensures AllHonest(a + b) <==> AllHonest(a) && AllHonest(b)
  {
    hide Honest;
    if AllHonest(a + b) {
      forall i | 0 <= i < |a| ensures Honest(a[i]) { assert (a + b)[i] == a[i]; }
      forall i | 0 <= i < |b| ensures Honest(b[i]) { assert (a + b)[|a| + i] == b[i]; }
    }
  }

  lemma {:induction false} AllRunsHonest(runs: seq<seq<Blk>>)
    ensures AllHonest(Flatten(runs)) <==> forall k :: 0 <= k < |runs| ==> AllHonest(runs[k])
  {
    hide AllHonest;
    if runs == [] {
      NoneHonest();
    } else {
      var before := runs[..|runs| - 1];
      AllRunsHonest(before);
      BothHonest(Flatten(before), runs[|runs| - 1]);
      assert forall k :: 0 <= k < |before| ==> runs[k] == before[k];
    }
  }

  lemma {:induction false} NoneHonest()
    ensures AllHonest([])
  {
  }

  lemma {:induction false} OneHonest(b: Blk)
    ensures AllHonest([b]) <==> Honest(b)
  {
    assert AllHonest([b]) ==> Honest([b][0]);
  }

  lemma {:induction false} RefsHonest(refs: seq<Option<Text>>)
    ensures AllHonest(RefBlocks(refs))
  {
    hide AllHonest, Honest;
    if refs == [] {
      NoneHonest();
    } else {
      var last := refs[|refs| - 1];
      RefsHonest(refs[..|refs| - 1]);
      match last
      case Some(t) => TextHonest(t); BothHonest(RefBlocks(refs[..|refs| - 1]), [TxBlk(t)]);
      case None => NoneHonest(); BothHonest(RefBlocks(refs[..|refs| - 1]), []);
    }
  }

  lemma {:induction false} TextHonest(t: Text)
    ensures AllHonest([TxBlk(t)]) && AllHonest(TextBlocks(t))
  {
    assert Honest(TxBlk(t));
  }

  lemma {:induction false} CcHonest(l: ChannelLayout)
    ensures AllHonest(CcBlocks(l))
  {
    if l.cc.Some? {
      var at, plan := l.cc.value.at, l.cc.value.plan;
      assert Honest(CcBlk(at, plan));
      hide AllHonest, Honest, CcBlk, RefBlocks;
      OneHonest(CcBlk(at, plan));
      RefsHonest(plan.refs);
      BothHonest([CcBlk(at, plan)], RefBlocks(plan.refs));
    }
  }

  /** The one block whose header can go wrong: the length is computed from the truncated dimension count. */
  lemma {:induction false} CaHonest(l: ChannelLayout)
    ensures AllHonest(CaBlocks(l)) <==> (l.ca.Some? ==> |l.ca.value.shape| < 0x1_0000)
  {
    if l.ca.Some? {
      OneHonest(CaBlk(l.ca.value.shape, l.ca.value.stride));
    }
  }

  lemma {:induction false} CnHonest(l: ChannelLayout, next: Link)
    ensures AllHonest([CnBlk(l, next)]) && AllHonest(SdBlocks(l))
  {
    assert Honest(CnBlk(l, next));
    if l.sd.Some? { assert Honest(SdBlk(l.sd.value.data)); }
  }

  lemma {:induction false} ChannelHonest(l: ChannelLayout, next: Link)
    ensures AllHonest(ChannelBlocks(l, next)) <==> (l.ca.Some? ==> |l.ca.value.shape| < 0x1_0000)
  {
    hide AllHonest, TextBlocks, CcBlocks, CaBlocks, SdBlocks, CnBlk, TxBlk;
    CnHonest(l, next);
    TextHonest(l.name);
    TextHonest(l.unit);
    TextHonest(l.comment);
    CcHonest(l);
    CaHonest(l);
    var a, b, c := [TxBlk(l.name)], TextBlocks(l.unit), TextBlocks(l.comment);
    BothHonest(a, b);
    BothHonest(a + b, c);
    BothHonest(a + b + c, CcBlocks(l));
    BothHonest(a + b + c + CcBlocks(l), CaBlocks(l));
    BothHonest(a + b + c + CcBlocks(l) + CaBlocks(l), SdBlocks(l));
    BothHonest([CnBlk(l, next)], ChannelParts(l));
  }

  lemma {:induction false} GroupHonest(cg: CgLayout, g: Group, recordId: nat, at: nat, next: Link)
    requires CgPlaced(cg, g, recordId, at)
    ensures AllHonest(CgBlocks(cg, next)) <==> GroupFits(g)
  {
    var ls := cg.channels;
    var b := CgBlk(g, if ls == [] then Null else To(ls[0].cnOff, CN), next, recordId);
    assert Honest(b);
    OneHonest(b);
    AllRunsHonest(ChannelRuns(ls));
    BothHonest([b], Flatten(ChannelRuns(ls)));
    hide AllHonest, ChannelBlocks, Honest, Flatten;
    forall k | 0 <= k < |ls|
      ensures AllHonest(ChannelRuns(ls)[k]) <==> k == 0 || ShapeFits(g.channels[k - 1])
    {
      ChannelHonest(ls[k], NextCn(ls, k));
    }
    if forall k :: 0 <= k < |ls| ==> AllHonest(ChannelRuns(ls)[k]) {
      forall c | 0 <= c < |g.channels| ensures ShapeFits(g.channels[c]) {
        assert AllHonest(ChannelRuns(ls)[c + 1]);
      }
    }
  }

  lemma {:induction false} PayloadHonest(at: nat, p: Payload)
    ensures AllHonest(PayloadBlocks(at, p))
  {
    match p
    case Plain(data) => assert Honest(DtBlk(data));
    case Compressed(zipType, zipParameter, originalLen, data) =>
      assert Honest(HlBlk(at + HL_SIZE, zipType));
      assert Honest(DlBlk(at + HL_SIZE + DL_SIZE, originalLen));
      assert Honest(DzBlk(zipType, zipParameter, originalLen, data));
  }

  lemma {:induction false} CgsHonest(cgs: seq<CgLayout>, d: DataGroup, at: nat)
    requires CgsPlaced(cgs, d.groups, |d.groups|, at)
    ensures AllHonest(Flatten(CgRuns(cgs))) <==> DataGroupFits(d)
  {
    hide AllHonest, GroupFits, CgBlocks, Flatten, ChannelsPlaced, CgEnd;
    AllRunsHonest(CgRuns(cgs));
    forall i | 0 <= i < |cgs| ensures AllHonest(CgRuns(cgs)[i]) <==> GroupFits(d.groups[i]) {
      GroupHonest(cgs[i], d.groups[i], RecordIdOf(|d.groups|, i), CgFrom(cgs, i, at), NextCg(cgs, i));
    }
  }

  lemma {:induction false} DgHonest(dg: DataGroupLayout, d: DataGroup, at: nat, next: Link)
    requires DgPlaced(dg, d, at)
    ensures AllHonest(DgBlocks(dg, d.payload, next)) <==> DataGroupFits(d)
  {
    var b := DgBlk(next, if dg.cgs == [] then Null else To(dg.cgs[0].cgOff, CG), To(dg.dtOff, PayloadKind(d.payload)), dg.recIdSize);
    assert Honest(b);
    hide AllHonest, CgRuns, PayloadBlocks, CgsPlaced, DataGroupFits, Honest, Flatten;
    OneHonest(b);
    CgsHonest(dg.cgs, d, at + DG_SIZE);
    PayloadHonest(dg.dtOff, d.payload);
    BothHonest([b], Flatten(CgRuns(dg.cgs)));
    BothHonest([b] + Flatten(CgRuns(dg.cgs)), PayloadBlocks(dg.dtOff, d.payload));
  }

  lemma {:induction false} HeaderHonest(dgFirst: Link, startTime: StartTime, history: Text)
    ensures AllHonest(HeaderBlocks(dgFirst, startTime, history))
  {
    assert Honest(HdBlk(dgFirst, To(FH_AT, FH), startTime));
    assert Honest(FhBlk(To(FH_TEXT_AT, TX), startTime));
    assert Honest(TxBlk(history));
  }

  /** Every block declares the length and the link count it is emitted with, exactly when every array channel has
      fewer than 65536 dimensions. */
  lemma {:induction false} HonestExactly(layouts: seq<DataGroupLayout>, dgs: seq<DataGroup>, at: nat,
                                         startTime: StartTime, history: Text)
    requires |layouts| == |dgs| && DgsPlaced(layouts, dgs, |dgs|, at)
    ensures AllHonest(FileBlocksOf(layouts, dgs, startTime, history)) <==> ShapesFit(dgs)
  {
    hide AllHonest, DgBlocks, HeaderBlocks, Flatten, CgsPlaced, DgEnd;
    HeaderHonest(FirstDg(layouts), startTime, history);
    AllRunsHonest(DgRuns(layouts, dgs));
    BothHonest(HeaderBlocks(FirstDg(layouts), startTime, history), Flatten(DgRuns(layouts, dgs)));
    forall i | 0 <= i < |dgs| ensures AllHonest(DgRuns(layouts, dgs)[i]) <==> DataGroupFits(dgs[i]) {
      DgHonest(layouts[i], dgs[i], DgFrom(layouts, dgs, i, at), NextDg(layouts, i));
    }
    FitsByGroup(dgs);
  }

  lemma {:induction false} FitsByGroup(dgs: seq<DataGroup>)
    ensures ShapesFit(dgs) <==> forall i :: 0 <= i < |dgs| ==> DataGroupFits(dgs[i])
  {
    if forall i :: 0 <= i < |dgs| ==> DataGroupFits(dgs[i]) {
      forall d, g, c | 0 <= d < |dgs| && 0 <= g < |dgs[d].groups| && 0 <= c < |dgs[d].groups[g].channels|
        ensures ShapeFits(dgs[d].groups[g].channels[c])
      {
        assert DataGroupFits(dgs[d]) && GroupFits(dgs[d].groups[g]);
      }
    }
    if ShapesFit(dgs) {
      forall d, g | 0 <= d < |dgs| && 0 <= g < |dgs[d].groups| ensures GroupFits(dgs[d].groups[g]) {
      }
    }
  }
}
