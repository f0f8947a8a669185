/**
 * Per-kind consequences of the stage reading, and the graphs the package's own examples
 * build: a concatenation of two inputs, a modulated mix of two inputs, and a concatenation
 * feeding a mix.
 */
module FilterGraphExamples {
  import opened Text
  import opened FilterGraph
  import opened FilterGraphStages
  import opened FilterGraphProperties

  /**
   * Stages each kind adds to its children's: one for a concatenation, normalization, resample
   * and plain mix, three for a modulated mix; a volume node writes one stage and nothing of its
   * child's.
   */
  lemma StageCountsByKind(f: Filter)
    requires Buildable(f) && CleanNames(f)
    ensures f.Input? ==> CountChar(Build(f), ';') == 0
    ensures f.Concat? ==> CountChar(Build(f), ';') == CountChar(BuildEach(f.inputs), ';') + 1
    ensures (f.Normalization? || f.Resample?) ==>
              CountChar(Build(f), ';') == CountChar(Build(f.target), ';') + 1
    ensures f.Volume? ==> CountChar(Build(f), ';') == 1
    ensures f.Mix? && f.mode == WithoutModulation ==>
              CountChar(Build(f), ';') == CountChar(Build(f.main), ';') + CountChar(Build(f.side), ';') + 1
    ensures f.Mix? && f.mode == WithModulation ==>
              CountChar(Build(f), ';') == CountChar(Build(f.main), ';') + CountChar(Build(f.side), ';') + 3
  {
    SemicolonPerStage(f);
    match f
    case Input(_) =>
    case Concat(_, cs) =>
      var k := |StagesEach(cs)|;
      BuildEachRendersStages(cs);
      StagesEachClean(cs);
      RenderSemicolons(StagesEach(cs));
    case Normalization(_, t) =>
      SemicolonPerStage(t);
    case Resample(_, t, _) =>
      SemicolonPerStage(t);
    case Volume(_, _, _) =>
    case Mix(_, m, s, _, _, _) =>
      SemicolonPerStage(m);
      SemicolonPerStage(s);
  }

  /** The concatenation stage's `n` is the number of children. */
  lemma ConcatCountsChildren(f: Filter)
    requires f.Concat?
    ensures exists digits :: AllDigits(digits) && DigitsValue(digits) == |f.inputs|
                             && OwnStages(f)[0].filter == "concat=n=" + digits + ":v=0:a=1"
  {
    NatToStringRoundTrip(|f.inputs|);
    var digits := NatToString(|f.inputs|);
    assert OwnStages(f)[0].filter == "concat=n=" + digits + ":v=0:a=1";
  }

  /** A mix with an unknown mode writes the error text, which holds no stage at all. */
  lemma UnknownModeIsNoGraph(f: Filter)
    requires f.Mix? && !KnownMode(f.mode)
    ensures Build(f) == "invalid mix filter"
    ensures CountChar(Build(f), ';') == 0 && Clean(Build(f))
  {
    LiteralClean(InvalidMix);
    CountCharAbsent(InvalidMix, ';');
  }

  /**
   * A volume node over a compiled filter reads a label nothing defines: its one stage names the
   * child's id, but the child's stages are never written.
   */
  lemma VolumeOverFilterIsUnscoped()
    ensures var f := Volume("vol_a", Normalization("norm_b", Input("0")), 50);
      !Scoped(Stages(f), InputNames(f)) && |Stages(f)| == 1
  {
    var f := Volume("vol_a", Normalization("norm_b", Input("0")), 50);
    var sts := Stages(f);
    assert sts[0].inputs == ["norm_b"];
    assert InputNames(f) == {"0"};
    assert sts[..0] == [];
    assert "norm_b" !in InputNames(f) && "norm_b" !in OutputsOf(sts[..0]);
  }

  // ---------------------------------------------------------------- the package's examples

  /** Concatenating inputs "0" and "1" is the single stage `[0][1]concat=n=2:v=0:a=1[<id>];`. */
  lemma ConcatOfTwoInputs(suffix: string)
    ensures var concat := NewAudioConcatFilter(suffix, [NewInput("0"), NewInput("1")]);
      Build(concat) == "[0][1]" + "concat=n=2:v=0:a=1" + "[" + Id(concat) + "];"
  {
    var cs := [NewInput("0"), NewInput("1")];
    var concat := NewAudioConcatFilter(suffix, cs);
    assert cs[1..] == [Input("1")] && cs[1..][1..] == [];
    assert BuildEach(cs) == "";
    assert RefsOf(cs) == "[0][1]" by {
      assert RefsOf(cs) == Ref("0") + (Ref("1") + "");
    }
    assert ConcatParams(2) == "concat=n=2:v=0:a=1" by {
      assert NatToString(2) == "2";
    }
    calc {
      Build(concat);
      "" + ConcatStage(cs, Id(concat));
      RefsOf(cs) + ConcatParams(2) + Ref(Id(concat)) + ";";
      "[0][1]" + "concat=n=2:v=0:a=1" + ("[" + Id(concat) + "]") + ";";
      { assert ("[" + Id(concat) + "]") + ";" == "[" + Id(concat) + "];"; }
      "[0][1]" + "concat=n=2:v=0:a=1" + "[" + Id(concat) + "];";
    }
  }

  lemma PrefixedLabelsDiffer(id: string, x: string)
    requires |x| < |id|
    ensures x != id && x != SideModulate(id) && x != SideOriginal(id) && x != ModulatedMain(id)
  {
  }

  function TwoInputMix(suffix: string): Filter {
    NewAudioMixFilter(suffix, NewInput("0"), NewInput("1"), WithModulation, 2, 10)
  }

  /** The labels the modulated mix names, stage by stage: asplit, sidechaincompress, amix. */
  function ModulatedLabels(n: string, mainId: string, sideId: string): seq<string> {
    [sideId] + [SideModulate(n), SideOriginal(n)]
    + ([mainId, SideModulate(n)] + [ModulatedMain(n)]
    + ([ModulatedMain(n), SideOriginal(n)] + [n]))
  }

  lemma AllLabelsOne(st: Stage)
    ensures AllLabels([st]) == st.inputs + st.outputs
  {
    assert [st][1..] == [];
    assert st.inputs + st.outputs + [] == st.inputs + st.outputs;
  }

  lemma ModulatedOwnLabels(f: Filter)
    requires f.Mix? && f.mode == WithModulation
    ensures AllLabels(OwnStages(f)) == ModulatedLabels(f.name, Id(f.main), Id(f.side))
  {
    var sts := OwnStages(f);
    var s0, s1, s2 := sts[0], sts[1], sts[2];
    assert sts[1..] == [s1, s2];
    assert [s1, s2][1..] == [s2];
    AllLabelsOne(s2);
    assert AllLabels([s1, s2]) == s1.inputs + s1.outputs + AllLabels([s2]);
    assert AllLabels(sts) == s0.inputs + s0.outputs + AllLabels([s1, s2]);
  }

  lemma TwoInputMixShape(suffix: string)
    requires Clean(suffix)
    ensures Buildable(TwoInputMix(suffix)) && CleanNames(TwoInputMix(suffix))
    ensures Stages(TwoInputMix(suffix)) == OwnStages(TwoInputMix(suffix))
  {
    CleanAppend("mixed_", suffix);
    LiteralClean("0");
    LiteralClean("1");
  }

  lemma ModulatedLabelCounts(n: string, mainId: string, sideId: string)
    requires |mainId| < |n| && |sideId| < |n| && mainId != sideId
    ensures multiset(ModulatedLabels(n, mainId, sideId))[n] == 1
    ensures multiset(ModulatedLabels(n, mainId, sideId))[mainId] == 1
    ensures multiset(ModulatedLabels(n, mainId, sideId))[sideId] == 1
  {
    PrefixedLabelsDiffer(n, mainId);
    PrefixedLabelsDiffer(n, sideId);
    assert SideModulate(n) != n && SideOriginal(n) != n && ModulatedMain(n) != n;
  }

  lemma MixLabelOnce(f: Filter, x: string)
    requires f.Mix? && f.mode == WithModulation && Buildable(f) && CleanNames(f) && Clean(x)
    requires Stages(f) == OwnStages(f)
    requires multiset(ModulatedLabels(f.name, Id(f.main), Id(f.side)))[x] == 1
    ensures CountOcc(Build(f), Ref(x)) == 1
  {
    ModulatedOwnLabels(f);
    LabelOccurrences(f, x);
  }

  /** Any clean modulated mix of the bare inputs "0" and "1" has the shape of the example. */
  lemma ModulatedMixCounts(f: Filter)
    requires f.Mix? && f.mode == WithModulation && Buildable(f) && CleanNames(f)
    requires Stages(f) == OwnStages(f)
    requires Clean(Id(f.main)) && Clean(Id(f.side)) && Id(f.main) != Id(f.side)
    requires |Id(f.main)| < |Id(f)| && |Id(f.side)| < |Id(f)|
    ensures |Split(Build(f), ';')| == 4
    ensures CountOcc(Build(f), Ref(Id(f))) == 1
    ensures CountOcc(Build(f), Ref(Id(f.main))) == 1
    ensures CountOcc(Build(f), Ref(Id(f.side))) == 1
  {
    SemicolonPerStage(f);
    ModulatedLabelCounts(f.name, Id(f.main), Id(f.side));
    MixLabelOnce(f, Id(f));
    MixLabelOnce(f, Id(f.main));
    MixLabelOnce(f, Id(f.side));
  }

  lemma StreamRefs(m: string, sd: string)
    requires m == "0" && sd == "1"
    ensures Ref(m) == "[0]" && Ref(sd) == "[1]"
  {
  }

  /**
   * The modulated mix of inputs "0" and "1" is three `;`-terminated stages (four parts once
   * split at `;`), its own label `[<id>]` occurs once, and `[0]` and `[1]` once each.
   */
  lemma ModulatedMixOfTwoInputs(suffix: string)
    requires Clean(suffix)
    ensures var mix := TwoInputMix(suffix);
      |Split(Build(mix), ';')| == 4
      && CountOcc(Build(mix), Ref(Id(mix))) == 1
      && CountOcc(Build(mix), "[0]") == 1
      && CountOcc(Build(mix), "[1]") == 1
  {
    var mix := TwoInputMix(suffix);
    TwoInputMixShape(suffix);
    var m, sd := Id(mix.main), Id(mix.side);
    assert m == "0" && sd == "1";
    LiteralClean(m);
    LiteralClean(sd);
    ModulatedMixCounts(mix);
    StreamRefs(m, sd);
  }

  function ConcatMainMix(concatSuffix: string, mixSuffix: string): Filter {
    NewAudioMixFilter(mixSuffix, NewAudioConcatFilter(concatSuffix, [NewInput("0"), NewInput("1")]),
                      NewInput("2"), WithModulation, 2, 10)
  }

  lemma ConcatMainMixShape(concatSuffix: string, mixSuffix: string)
    requires Clean(concatSuffix) && Clean(mixSuffix)
    ensures var mix := ConcatMainMix(concatSuffix, mixSuffix);
      Buildable(mix) && CleanNames(mix) && Buildable(mix.main)
      && Stages(mix.main) == OwnStages(mix.main)
      && Stages(mix) == OwnStages(mix.main) + OwnStages(mix)
  {
    var mix := ConcatMainMix(concatSuffix, mixSuffix);
    var cs := mix.main.inputs;
    assert cs[1..] == [Input("1")] && cs[1..][1..] == [];
    assert StagesEach(cs) == [];
    CleanAppend("concat_", concatSuffix);
    CleanAppend("mixed_", mixSuffix);
    LiteralClean("0");
    LiteralClean("1");
    LiteralClean("2");
  }

  lemma ConcatMainLabels(c: string, n: string)
    requires |c| > 1 && c[0] == 'c' && |n| > 0 && n[0] == 'm'
    ensures multiset(["0", "1"] + [c] + ModulatedLabels(n, c, "2"))[c] == 2
  {
    PrefixedLabelsDiffer(c, "0");
    PrefixedLabelsDiffer(c, "1");
    PrefixedLabelsDiffer(c, "2");
    assert c != n && c != SideModulate(n) && c != SideOriginal(n) && c != ModulatedMain(n) by {
      assert SideModulate(n)[0] == 's' && SideOriginal(n)[0] == 's' && ModulatedMain(n)[0] == 'm';
    }
  }

  /**
   * A concatenation as the main channel of a modulated mix: the concatenation's stage is the
   * first stage, the three mix stages follow it, and the bracketed concatenation id occurs
   * twice (written by its stage, read by the sidechaincompress stage).
   */
  lemma ConcatThenMix(concatSuffix: string, mixSuffix: string)
    requires Clean(concatSuffix) && Clean(mixSuffix)
    ensures var mix := ConcatMainMix(concatSuffix, mixSuffix);
      && Stages(mix) == OwnStages(mix.main) + OwnStages(mix)
      && Build(mix) == Build(mix.main) + Render(OwnStages(mix))
      && CountOcc(Build(mix), Ref(Id(mix.main))) == 2
  {
    var mix := ConcatMainMix(concatSuffix, mixSuffix);
    var concat := mix.main;
    ConcatMainMixShape(concatSuffix, mixSuffix);
    BuildRendersStages(mix);
    BuildRendersStages(concat);
    RenderAppend(OwnStages(concat), OwnStages(mix));
    var cstage := OwnStages(concat)[0];
    assert Ids(concat.inputs) == ["0", "1"];
    assert AllLabels(OwnStages(concat)) == ["0", "1"] + [Id(concat)] by {
      assert OwnStages(concat)[1..] == [];
    }
    ModulatedOwnLabels(mix);
    AllLabelsAppend(OwnStages(concat), OwnStages(mix));
    assert Id(concat)[..7] == "concat_";
    assert Id(mix)[..6] == "mixed_";
    ConcatMainLabels(Id(concat), Id(mix));
    assert Clean(Id(concat));
    LabelOccurrences(mix, Id(concat));
  }
}
