/**
 * A structured reading of what `Build` writes: a sequence of stages, each with bracketed input
 * labels, a filter with its parameters, and bracketed output labels. `Build` is proved to
 * print exactly these stages, and the shape of the graph (stage counts, which stage comes
 * last, that every label is defined before it is used, how often a label occurs) is proved
 * on the stages.
 */
module FilterGraphStages {
  import opened Text
  import opened FilterGraph

  datatype Stage = Stage(inputs: seq<string>, filter: string, outputs: seq<string>)

  function Refs(ls: seq<string>): string {
    if |ls| == 0 then "" else Ref(ls[0]) + Refs(ls[1..])
  }

  function RenderStage(st: Stage): string {
    Refs(st.inputs) + st.filter + Refs(st.outputs) + ";"
  }

  function Render(sts: seq<Stage>): string {
    if |sts| == 0 then "" else RenderStage(sts[0]) + Render(sts[1..])
  }

  function Ids(cs: seq<Filter>): (r: seq<string>)
    ensures |r| == |cs| && forall i :: 0 <= i < |cs| ==> r[i] == Id(cs[i])
  {
    if |cs| == 0 then [] else [Id(cs[0])] + Ids(cs[1..])
  }

  // ---------------------------------------------------------------- the stages of a tree

  predicate KnownMode(mode: uint8) {
    mode == WithoutModulation || mode == WithModulation
  }

  /** Every mix node that `Build` reaches has a known mode, so `Build` writes only stages. */
  predicate Buildable(f: Filter)
    decreases f
  {
    match f
    case Input(_) => true
    case Concat(_, cs) => forall i :: 0 <= i < |cs| ==> Buildable(cs[i])
    case Normalization(_, t) => Buildable(t)
    case Resample(_, t, _) => Buildable(t)
    case Volume(_, _, _) => true
    case Mix(_, m, s, mode, _, _) => KnownMode(mode) && Buildable(m) && Buildable(s)
  }

  /** The stages a node adds after its children's. */
  function OwnStages(f: Filter): (r: seq<Stage>)
    requires f.Mix? ==> KnownMode(f.mode)
    ensures f.Input? <==> |r| == 0
    ensures (f.Mix? && f.mode == WithModulation) ==> |r| == 3
    ensures !f.Input? && !(f.Mix? && f.mode == WithModulation) ==> |r| == 1
    ensures |r| > 0 ==> r[|r| - 1].outputs == [Id(f)]
  {
    match f
    case Input(_) => []
    case Concat(n, cs) => [Stage(Ids(cs), ConcatParams(|cs|), [n])]
    case Normalization(n, t) => [Stage([Id(t)], Loudnorm, [n])]
    case Resample(n, t, s) => [Stage([Id(t)], ResampleParams(s), [n])]
    case Volume(n, t, g) => [Stage([Id(t)], VolumeParams(g), [n])]
    case Mix(n, m, s, mode, wm, ws) =>
      if mode == WithModulation then
        [Stage([Id(s)], "asplit=2", [SideModulate(n), SideOriginal(n)]),
         Stage([Id(m), SideModulate(n)], SidechainCompress, [ModulatedMain(n)]),
         Stage([ModulatedMain(n), SideOriginal(n)], AmixParams(wm, ws), [n])]
      else
        [Stage([Id(m), Id(s)], AmixParams(wm, ws), [n])]
  }

  /** Children first, in child order, then the node's own stages; a volume node has only its own. */
  function Stages(f: Filter): seq<Stage>
    requires Buildable(f)
    decreases f
  {
    match f
    case Input(_) => []
    case Concat(_, cs) => StagesEach(cs) + OwnStages(f)
    case Normalization(_, t) => Stages(t) + OwnStages(f)
    case Resample(_, t, _) => Stages(t) + OwnStages(f)
    case Volume(_, _, _) => OwnStages(f)
    case Mix(_, m, s, _, _, _) => Stages(m) + Stages(s) + OwnStages(f)
  }

  function StagesEach(cs: seq<Filter>): seq<Stage>
    requires forall i :: 0 <= i < |cs| ==> Buildable(cs[i])
    decreases cs
  {
    if |cs| == 0 then [] else Stages(cs[0]) + StagesEach(cs[1..])
  }

  // ---------------------------------------------------------------- Build prints the stages

  lemma {:induction false} RenderAppend(a: seq<Stage>, b: seq<Stage>)
    ensures Render(a + b) == Render(a) + Render(b)
  {
    if |a| > 0 {
      assert (a + b)[1..] == a[1..] + b;
      RenderAppend(a[1..], b);
    } else {
      assert a + b == b;
    }
  }

  lemma {:induction false} RefsOfIds(cs: seq<Filter>)
    ensures Refs(Ids(cs)) == RefsOf(cs)
  {
    if |cs| > 0 {
      assert Ids(cs)[1..] == Ids(cs[1..]);
      RefsOfIds(cs[1..]);
    }
  }

  lemma RefsOne(a: string)
    ensures Refs([a]) == Ref(a)
  {
    assert [a][1..] == [];
  }

  lemma RefsTwo(a: string, b: string)
    ensures Refs([a, b]) == Ref(a) + Ref(b)
  {
    assert [a, b][1..] == [b];
    RefsOne(b);
  }

  lemma RenderOne(st: Stage)
    ensures Render([st]) == RenderStage(st)
  {
    assert [st][1..] == [];
  }

  lemma RenderSimple(inId: string, params: string, id: string)
    ensures Render([Stage([inId], params, [id])]) == SimpleStage(inId, params, id)
  {
    RenderOne(Stage([inId], params, [id]));
    RefsOne(inId);
    RefsOne(id);
  }

  lemma RenderPair(first: string, second: string, params: string, id: string)
    ensures RenderStage(Stage([first, second], params, [id])) == PairStage(first, second, params, id)
  {
    RefsTwo(first, second);
    RefsOne(id);
  }

  lemma RenderThree(a: Stage, b: Stage, c: Stage)
    ensures Render([a, b, c]) == RenderStage(a) + RenderStage(b) + RenderStage(c)
  {
    assert [a, b, c][1..] == [b, c];
    assert [b, c][1..] == [c];
    RenderOne(c);
  }

  lemma RenderSplit(inId: string, params: string, x: string, y: string)
    ensures RenderStage(Stage([inId], params, [x, y])) == Ref(inId) + params + (Ref(x) + Ref(y)) + ";"
  {
    RefsOne(inId);
    RefsTwo(x, y);
  }

  /** The three stages of a modulated mix print as `withModulation` writes them. */
  lemma ModulatedOwnRender(f: Filter)
    requires f.Mix? && f.mode == WithModulation
    ensures Render(OwnStages(f)) == ModulatedStagesText(f.name, Id(f.main), Id(f.side), f.mainWeight, f.sideWeight)
  {
    var n, mId, sId := f.name, Id(f.main), Id(f.side);
    var own := OwnStages(f);
    RenderThree(own[0], own[1], own[2]);
    RenderSplit(sId, "asplit=2", SideModulate(n), SideOriginal(n));
    RenderPair(mId, SideModulate(n), SidechainCompress, ModulatedMain(n));
    RenderPair(ModulatedMain(n), SideOriginal(n), AmixParams(f.mainWeight, f.sideWeight), n);
  }

  /** The text a node writes after its children's. */
  lemma OwnStagesRender(f: Filter)
    requires f.Mix? ==> KnownMode(f.mode)
    ensures f.Concat? ==> Render(OwnStages(f)) == ConcatStage(f.inputs, f.name)
    ensures f.Normalization? ==> Render(OwnStages(f)) == SimpleStage(Id(f.target), Loudnorm, f.name)
    ensures f.Resample? ==> Render(OwnStages(f)) == SimpleStage(Id(f.target), ResampleParams(f.targetFormat), f.name)
    ensures f.Volume? ==> Render(OwnStages(f)) == Build(f)
    ensures f.Mix? && f.mode == WithModulation ==>
              Render(OwnStages(f)) == ModulatedStagesText(f.name, Id(f.main), Id(f.side), f.mainWeight, f.sideWeight)
    ensures f.Mix? && f.mode == WithoutModulation ==>
              Render(OwnStages(f)) == PairStage(Id(f.main), Id(f.side), AmixParams(f.mainWeight, f.sideWeight), f.name)
  {
    match f
    case Input(_) =>
    case Concat(n, cs) =>
      RefsOfIds(cs);
      RefsOne(n);
      RenderOne(OwnStages(f)[0]);
    case Normalization(n, t) =>
      RenderSimple(Id(t), Loudnorm, n);
    case Resample(n, t, s) =>
      RenderSimple(Id(t), ResampleParams(s), n);
    case Volume(n, t, g) =>
      RenderSimple(Id(t), VolumeParams(g), n);
    case Mix(n, m, s, mode, wm, ws) =>
      if mode == WithModulation {
        ModulatedOwnRender(f);
      } else {
        RenderOne(OwnStages(f)[0]);
        RenderPair(Id(m), Id(s), AmixParams(wm, ws), n);
      }
  }

  /** `Build` prints exactly `Stages`, so every property of the stages is a property of the text. */
  lemma {:induction false} BuildRendersStages(f: Filter)
    requires Buildable(f)
    ensures Build(f) == Render(Stages(f))
    decreases f
  {
    OwnStagesRender(f);
    match f
    case Input(_) =>
    case Concat(_, cs) =>
      BuildEachRendersStages(cs);
      RenderAppend(StagesEach(cs), OwnStages(f));
    case Normalization(_, t) =>
      BuildRendersStages(t);
      RenderAppend(Stages(t), OwnStages(f));
    case Resample(_, t, _) =>
      BuildRendersStages(t);
      RenderAppend(Stages(t), OwnStages(f));
    case Volume(_, _, _) =>
    case Mix(_, m, s, _, _, _) =>
      BuildRendersStages(m);
      BuildRendersStages(s);
      RenderAppend(Stages(m), Stages(s));
      RenderAppend(Stages(m) + Stages(s), OwnStages(f));
  }

  lemma {:induction false} BuildEachRendersStages(cs: seq<Filter>)
    requires forall i :: 0 <= i < |cs| ==> Buildable(cs[i])
    ensures BuildEach(cs) == Render(StagesEach(cs))
    decreases cs
  {
    if |cs| > 0 {
      BuildRendersStages(cs[0]);
      BuildEachRendersStages(cs[1..]);
      RenderAppend(Stages(cs[0]), StagesEach(cs[1..]));
    }
  }
}
