/**
 * What the compiled graph text promises: one `;` per stage, how often each bracketed label
 * occurs, that every label a stage reads was written by an earlier stage or is an input
 * stream, and the behaviour the package's own examples pin down.
 */
module FilterGraphProperties {
  import opened Text
  import opened FilterGraph
  import opened FilterGraphStages

  // ---------------------------------------------------------------- clean labels

  /** A label or parameter text holds none of the characters that delimit stages and labels. */
  predicate Clean(s: string) {
    '[' !in s && ']' !in s && ';' !in s
  }

  /** Every id in the tree is clean; `randString` ids are letters, stream indices digits. */
  predicate CleanNames(f: Filter)
    decreases f
  {
    Clean(f.name) &&
    match f
    case Input(_) => true
    case Concat(_, cs) => forall i :: 0 <= i < |cs| ==> CleanNames(cs[i])
    case Normalization(_, t) => CleanNames(t)
    case Resample(_, t, _) => CleanNames(t)
    case Volume(_, t, _) => CleanNames(t)
    case Mix(_, m, s, _, _, _) => CleanNames(m) && CleanNames(s)
  }

  predicate CleanStage(st: Stage) {
    Clean(st.filter)
    && (forall l :: l in st.inputs ==> Clean(l))
    && (forall l :: l in st.outputs ==> Clean(l))
  }

  lemma CleanAppend(a: string, b: string)
    requires Clean(a) && Clean(b)
    ensures Clean(a + b)
  {
  }

  lemma NumericClean(s: string)
    requires forall i :: 0 <= i < |s| ==> IsDigit(s[i]) || s[i] == '.' || s[i] == '-'
    ensures Clean(s)
  {
    forall c | c in s ensures c != '[' && c != ']' && c != ';' {
      var i :| 0 <= i < |s| && s[i] == c;
    }
  }

  lemma LiteralClean(s: string)
    requires forall i :: 0 <= i < |s| ==> s[i] != '[' && s[i] != ']' && s[i] != ';'
    ensures Clean(s)
  {
    forall c | c in s ensures c != '[' && c != ']' && c != ';' {
      var i :| 0 <= i < |s| && s[i] == c;
    }
  }

  lemma SidechainClean()
    ensures Clean(SidechainCompress)
  {
    LiteralClean("sidechaincompress=");
    LiteralClean("threshold=0.05");
    LiteralClean(":ratio=5");
    LiteralClean(":level_sc=0.8");
    CleanAppend("sidechaincompress=", "threshold=0.05");
    CleanAppend("sidechaincompress=" + "threshold=0.05", ":ratio=5");
    CleanAppend("sidechaincompress=" + "threshold=0.05" + ":ratio=5", ":level_sc=0.8");
  }

  lemma ResampleConstantsClean()
    ensures Clean("aformat=sample_fmts=fltp:sample_rates=") && Clean(":channel_layouts=stereo")
  {
    LiteralClean("aformat=sample_fmts=fltp:");
    LiteralClean("sample_rates=");
    assert "aformat=sample_fmts=fltp:sample_rates=" == "aformat=sample_fmts=fltp:" + "sample_rates=";
    CleanAppend("aformat=sample_fmts=fltp:", "sample_rates=");
    LiteralClean(":channel_layouts=stereo");
  }

  lemma ConcatParamsClean(n: nat)
    ensures Clean(ConcatParams(n))
  {
    LiteralClean("concat=n=");
    LiteralClean(":v=0:a=1");
    NumericClean(NatToString(n));
    CleanAppend("concat=n=", NatToString(n));
    CleanAppend("concat=n=" + NatToString(n), ":v=0:a=1");
  }

  lemma ResampleParamsClean(s: Sampling)
    ensures Clean(ResampleParams(s))
  {
    ResampleConstantsClean();
    NumericClean(SampleRate(s));
    CleanAppend("aformat=sample_fmts=fltp:sample_rates=", SampleRate(s));
    CleanAppend("aformat=sample_fmts=fltp:sample_rates=" + SampleRate(s), ":channel_layouts=stereo");
  }

  lemma VolumeParamsClean(g: int)
    ensures Clean(VolumeParams(g))
  {
    LiteralClean("volume=");
    NumericClean(FormatFixed(g, 2));
    CleanAppend("volume=", FormatFixed(g, 2));
  }

  lemma AmixParamsClean(wm: int, ws: int)
    ensures Clean(AmixParams(wm, ws))
  {
    LiteralClean("amix=weights=");
    LiteralClean(" ");
    NumericClean(FormatFixed(wm, 1));
    NumericClean(FormatFixed(ws, 1));
    CleanAppend("amix=weights=", FormatFixed(wm, 1));
    CleanAppend("amix=weights=" + FormatFixed(wm, 1), " ");
    CleanAppend("amix=weights=" + FormatFixed(wm, 1) + " ", FormatFixed(ws, 1));
  }

  lemma DerivedClean(n: string)
    requires Clean(n)
    ensures Clean(SideModulate(n)) && Clean(SideOriginal(n)) && Clean(ModulatedMain(n))
  {
    CleanAppend("scm_", n);
    CleanAppend("sco_", n);
    CleanAppend("mmc_", n);
  }

  lemma OneInStageClean(inId: string, params: string, n: string)
    requires Clean(inId) && Clean(params) && Clean(n)
    ensures CleanStage(Stage([inId], params, [n]))
  {
  }

  lemma ModulatedStagesClean(n: string, mainId: string, sideId: string, wm: int, ws: int)
    requires Clean(n) && Clean(mainId) && Clean(sideId)
    ensures CleanStage(Stage([sideId], "asplit=2", [SideModulate(n), SideOriginal(n)]))
    ensures CleanStage(Stage([mainId, SideModulate(n)], SidechainCompress, [ModulatedMain(n)]))
    ensures CleanStage(Stage([ModulatedMain(n), SideOriginal(n)], AmixParams(wm, ws), [n]))
  {
    LiteralClean("asplit=2");
    SidechainClean();
    AmixParamsClean(wm, ws);
    DerivedClean(n);
  }

  lemma MixOwnStagesClean(f: Filter)
    requires f.Mix? && KnownMode(f.mode) && Clean(f.name) && Clean(Id(f.main)) && Clean(Id(f.side))
    ensures forall st :: st in OwnStages(f) ==> CleanStage(st)
  {
    var sts := OwnStages(f);
    if f.mode == WithModulation {
      ModulatedStagesClean(f.name, Id(f.main), Id(f.side), f.mainWeight, f.sideWeight);
      assert forall st :: st in sts ==> st == sts[0] || st == sts[1] || st == sts[2];
    } else {
      AmixParamsClean(f.mainWeight, f.sideWeight);
      assert CleanStage(sts[0]);
    }
  }

  lemma ConcatOwnStagesClean(f: Filter)
    requires f.Concat? && CleanNames(f)
    ensures forall st :: st in OwnStages(f) ==> CleanStage(st)
  {
    ConcatParamsClean(|f.inputs|);
    forall l | l in Ids(f.inputs) ensures Clean(l) {
      var i :| 0 <= i < |f.inputs| && Ids(f.inputs)[i] == l;
    }
    assert CleanStage(OwnStages(f)[0]);
  }

  lemma OwnStagesClean(f: Filter)
    requires (f.Mix? ==> KnownMode(f.mode)) && CleanNames(f)
    ensures forall st :: st in OwnStages(f) ==> CleanStage(st)
  {
    match f
    case Input(_) =>
    case Concat(n, cs) =>
      ConcatOwnStagesClean(f);
    case Normalization(n, t) =>
      LiteralClean(Loudnorm);
      OneInStageClean(Id(t), Loudnorm, n);
    case Resample(n, t, s) =>
      ResampleParamsClean(s);
      OneInStageClean(Id(t), ResampleParams(s), n);
    case Volume(n, t, g) =>
      VolumeParamsClean(g);
      OneInStageClean(Id(t), VolumeParams(g), n);
    case Mix(n, m, sd, _, _, _) =>
      MixOwnStagesClean(f);
  }

  lemma {:induction false} StagesClean(f: Filter)
    requires Buildable(f) && CleanNames(f)
    ensures forall st :: st in Stages(f) ==> CleanStage(st)
    decreases f
  {
    OwnStagesClean(f);
    match f
    case Input(_) =>
    case Concat(_, cs) => StagesEachClean(cs);
    case Normalization(_, t) => StagesClean(t);
    case Resample(_, t, _) => StagesClean(t);
    case Volume(_, _, _) =>
    case Mix(_, m, s, _, _, _) =>
      StagesClean(m);
      StagesClean(s);
  }

  lemma {:induction false} StagesEachClean(cs: seq<Filter>)
    requires forall i :: 0 <= i < |cs| ==> Buildable(cs[i]) && CleanNames(cs[i])
    ensures forall st :: st in StagesEach(cs) ==> CleanStage(st)
    decreases cs
  {
    if |cs| > 0 {
      StagesClean(cs[0]);
      StagesEachClean(cs[1..]);
    }
  }

  // ---------------------------------------------------------------- one `;` per stage

  lemma {:induction false} RefsNoSemicolon(ls: seq<string>)
    requires forall l :: l in ls ==> Clean(l)
    ensures CountChar(Refs(ls), ';') == 0
  {
    if |ls| > 0 {
      assert ls[0] in ls;
      RefsNoSemicolon(ls[1..]);
      CountCharAbsent(ls[0], ';');
      CountCharAppend("[", ls[0], ';');
      CountCharAppend("[" + ls[0], "]", ';');
      CountCharAppend(Ref(ls[0]), Refs(ls[1..]), ';');
    }
  }

  lemma {:induction false} RenderSemicolons(sts: seq<Stage>)
    requires forall st :: st in sts ==> CleanStage(st)
    ensures CountChar(Render(sts), ';') == |sts|
  {
    if |sts| > 0 {
      var st := sts[0];
      assert st in sts;
      RenderSemicolons(sts[1..]);
      RefsNoSemicolon(st.inputs);
      RefsNoSemicolon(st.outputs);
      CountCharAbsent(st.filter, ';');
      CountCharAppend(Refs(st.inputs), st.filter, ';');
      CountCharAppend(Refs(st.inputs) + st.filter, Refs(st.outputs), ';');
      CountCharAppend(Refs(st.inputs) + st.filter + Refs(st.outputs), ";", ';');
      CountCharAppend(RenderStage(st), Render(sts[1..]), ';');
    }
  }

  /**
   * Every stage ends in the only `;` it holds, so splitting the text at `;` gives one part per
   * stage plus the empty remainder after the last one.
   */
  lemma SemicolonPerStage(f: Filter)
    requires Buildable(f) && CleanNames(f)
    ensures CountChar(Build(f), ';') == |Stages(f)|
    ensures |Split(Build(f), ';')| == |Stages(f)| + 1
  {
    BuildRendersStages(f);
    StagesClean(f);
    RenderSemicolons(Stages(f));
    SplitLength(Build(f), ';');
  }

  // ---------------------------------------------------------------- label occurrences

  /** The labels of every stage, inputs before outputs, stage after stage. */
  function AllLabels(sts: seq<Stage>): (r: seq<string>)
    ensures forall st :: st in sts ==> multiset(st.inputs) <= multiset(r)
  {
    if |sts| == 0 then [] else sts[0].inputs + sts[0].outputs + AllLabels(sts[1..])
  }

  lemma {:induction false} AllLabelsAppend(a: seq<Stage>, b: seq<Stage>)
    ensures AllLabels(a + b) == AllLabels(a) + AllLabels(b)
  {
    if |a| == 0 {
      assert a + b == b;
    } else {
      assert (a + b)[1..] == a[1..] + b;
      AllLabelsAppend(a[1..], b);
    }
  }

  lemma RefTail(l: string, rest: string)
    ensures (Ref(l) + rest)[1..] == l + "]" + rest
  {
    assert Ref(l) + rest == "[" + (l + "]" + rest);
  }

  lemma RefCount(l: string, rest: string, x: string)
    requires Clean(l) && Clean(x)
    ensures CountOcc(Ref(l) + rest, Ref(x)) == (if l == x then 1 else 0) + CountOcc(rest, Ref(x))
  {
    var s := Ref(l) + rest;
    var p := Ref(x);
    if l == x {
      CountOccAtStart(p, rest);
    } else {
      if |s| >= |p| {
        if |x| < |l| {
          assert s[..|p|][|x| + 1] == l[|x|];
          assert l[|x|] in l;
          assert s[..|p|][|x| + 1] != p[|x| + 1];
        } else if |x| > |l| {
          assert s[..|p|][|l| + 1] == ']';
          assert x[|l|] in x;
          assert s[..|p|][|l| + 1] != p[|l| + 1];
        } else {
          assert s[..|p|][1..|l| + 1] == l;
          assert p[1..|x| + 1] == x;
        }
      }
      RefTail(l, rest);
      CountOccSkip(l + "]", rest, p);
    }
  }

  lemma {:induction false} RefsCount(ls: seq<string>, rest: string, x: string)
    requires (forall l :: l in ls ==> Clean(l)) && Clean(x)
    ensures CountOcc(Refs(ls) + rest, Ref(x)) == multiset(ls)[x] + CountOcc(rest, Ref(x))
  {
    if |ls| == 0 {
      assert Refs(ls) + rest == rest;
    } else {
      assert ls[0] in ls;
      assert ls == [ls[0]] + ls[1..];
      RefsCount(ls[1..], rest, x);
      assert Refs(ls) + rest == Ref(ls[0]) + (Refs(ls[1..]) + rest);
      RefCount(ls[0], Refs(ls[1..]) + rest, x);
    }
  }

  lemma RenderStageThen(st: Stage, rest: string)
    ensures RenderStage(st) + rest == Refs(st.inputs) + (st.filter + (Refs(st.outputs) + (";" + rest)))
  {
    var a, b, c := Refs(st.inputs), st.filter, Refs(st.outputs);
    calc {
      RenderStage(st) + rest;
      (a + b + c + ";") + rest;
      { assert (a + b + c + ";") + rest == (a + b + c) + (";" + rest); }
      (a + b + c) + (";" + rest);
      { assert (a + b + c) + (";" + rest) == (a + b) + (c + (";" + rest)); }
      (a + b) + (c + (";" + rest));
      a + (b + (c + (";" + rest)));
    }
  }

  /** In rendered stages, the bracketed label `[x]` occurs once for each time a stage names `x`. */
  lemma {:induction false} RenderLabelCount(sts: seq<Stage>, x: string)
    requires (forall st :: st in sts ==> CleanStage(st)) && Clean(x)
    ensures CountOcc(Render(sts), Ref(x)) == multiset(AllLabels(sts))[x]
  {
    if |sts| > 0 {
      var st := sts[0];
      assert st in sts;
      var rest := Render(sts[1..]);
      RenderLabelCount(sts[1..], x);
      RenderStageThen(st, rest);
      RefsCount(st.inputs, st.filter + (Refs(st.outputs) + (";" + rest)), x);
      CountOccSkip(st.filter, Refs(st.outputs) + (";" + rest), Ref(x));
      RefsCount(st.outputs, ";" + rest, x);
      CountOccSkip(";", rest, Ref(x));
      assert AllLabels(sts) == st.inputs + st.outputs + AllLabels(sts[1..]);
    }
  }

  /** `strings.Count(f.Build(), "[x]")` is the number of times the stages name `x`. */
  lemma LabelOccurrences(f: Filter, x: string)
    requires Buildable(f) && CleanNames(f) && Clean(x)
    ensures CountOcc(Build(f), Ref(x)) == multiset(AllLabels(Stages(f)))[x]
  {
    BuildRendersStages(f);
    StagesClean(f);
    RenderLabelCount(Stages(f), x);
  }

  // ---------------------------------------------------------------- every label is defined before use

  /** The labels the stages write, in order. */
  function OutputsOf(sts: seq<Stage>): (r: seq<string>)
    ensures forall k, l :: 0 <= k < |sts| && l in sts[k].outputs ==> l in r
  {
    if |sts| == 0 then [] else sts[0].outputs + OutputsOf(sts[1..])
  }

  lemma {:induction false} OutputsAppend(a: seq<Stage>, b: seq<Stage>)
    ensures OutputsOf(a + b) == OutputsOf(a) + OutputsOf(b)
  {
    if |a| == 0 {
      assert a + b == b;
    } else {
      assert (a + b)[1..] == a[1..] + b;
      OutputsAppend(a[1..], b);
    }
  }

  /** The input streams the tree names: the ids of its `Input` leaves, anywhere in the tree. */
  function InputNames(f: Filter): set<string>
    decreases f
  {
    match f
    case Input(n) => {n}
    case Concat(_, cs) => InputNamesEach(cs)
    case Normalization(_, t) => InputNames(t)
    case Resample(_, t, _) => InputNames(t)
    case Volume(_, t, _) => InputNames(t)
    case Mix(_, m, s, _, _, _) => InputNames(m) + InputNames(s)
  }

  function InputNamesEach(cs: seq<Filter>): set<string>
    decreases cs
  {
    if |cs| == 0 then {} else InputNames(cs[0]) + InputNamesEach(cs[1..])
  }

  /** Every volume node that `Build` reaches reads an input stream directly. */
  predicate VolumesOverInputs(f: Filter)
    decreases f
  {
    match f
    case Input(_) => true
    case Concat(_, cs) => forall i :: 0 <= i < |cs| ==> VolumesOverInputs(cs[i])
    case Normalization(_, t) => VolumesOverInputs(t)
    case Resample(_, t, _) => VolumesOverInputs(t)
    case Volume(_, t, _) => t.Input?
    case Mix(_, m, s, _, _, _) => VolumesOverInputs(m) && VolumesOverInputs(s)
  }

  /** Each label a stage reads is an input stream or was written by an earlier stage. */
  ghost predicate Scoped(sts: seq<Stage>, streams: set<string>) {
    forall k, l :: 0 <= k < |sts| && l in sts[k].inputs ==> l in streams || l in OutputsOf(sts[..k])
  }

  ghost function OutputSet(sts: seq<Stage>): set<string> {
    set l | l in OutputsOf(sts)
  }

  lemma ScopedWeaken(sts: seq<Stage>, small: set<string>, large: set<string>)
    requires Scoped(sts, small) && small <= large
    ensures Scoped(sts, large)
  {
  }

  lemma ScopedAppend(a: seq<Stage>, b: seq<Stage>, streams: set<string>)
    requires Scoped(a, streams) && Scoped(b, streams + OutputSet(a))
    ensures Scoped(a + b, streams)
  {
    var s := a + b;
    forall k, l | 0 <= k < |s| && l in s[k].inputs
      ensures l in streams || l in OutputsOf(s[..k])
    {
      if k < |a| {
        assert s[k] == a[k] && s[..k] == a[..k];
      } else {
        var j := k - |a|;
        assert s[k] == b[j];
        assert l in streams + OutputSet(a) || l in OutputsOf(b[..j]);
        assert s[..k] == a + b[..j];
        OutputsAppend(a, b[..j]);
      }
    }
  }

  /** The id of a compiled node is written by its stages; an input's id is a stream. */
  lemma IdAvailable(f: Filter)
    requires Buildable(f)
    ensures Id(f) in InputNames(f) + OutputSet(Stages(f))
  {
    if !f.Input? {
      var own := OwnStages(f);
      var before := Stages(f)[..|Stages(f)| - |own|];
      assert Stages(f) == before + own;
      OutputsAppend(before, own);
      assert Id(f) in own[|own| - 1].outputs;
    }
  }

  lemma {:induction false} EachAvailable(cs: seq<Filter>, i: nat)
    requires forall j :: 0 <= j < |cs| ==> Buildable(cs[j])
    requires i < |cs|
    ensures Id(cs[i]) in InputNamesEach(cs) + OutputSet(StagesEach(cs))
    decreases cs
  {
    OutputsAppend(Stages(cs[0]), StagesEach(cs[1..]));
    if i == 0 {
      IdAvailable(cs[0]);
    } else {
      EachAvailable(cs[1..], i - 1);
    }
  }

  lemma OneStageScoped(st: Stage, streams: set<string>)
    requires forall l :: l in st.inputs ==> l in streams
    ensures Scoped([st], streams)
  {
  }

  lemma ModulatedScoped(f: Filter, streams: set<string>)
    requires f.Mix? && f.mode == WithModulation
    requires Id(f.main) in streams && Id(f.side) in streams
    ensures Scoped(OwnStages(f), streams)
  {
    var own := OwnStages(f);
    var n := f.name;
    assert OutputsOf(own[..1]) == [SideModulate(n), SideOriginal(n)] by {
      assert own[..1] == [own[0]];
      assert [own[0]][1..] == [];
    }
    assert OutputsOf(own[..2]) == [SideModulate(n), SideOriginal(n), ModulatedMain(n)] by {
      assert own[..2] == [own[0], own[1]];
      assert [own[0], own[1]][1..] == [own[1]];
      assert [own[1]][1..] == [];
    }
  }

  lemma OwnScoped(f: Filter, streams: set<string>)
    requires f.Mix? ==> KnownMode(f.mode)
    requires forall c :: c in Children(f) ==> Id(c) in streams
    ensures Scoped(OwnStages(f), streams)
  {
    match f
    case Input(_) =>
    case Concat(n, cs) =>
      assert forall l :: l in Ids(cs) ==> l in streams by {
        forall l | l in Ids(cs) ensures l in streams {
          var i :| 0 <= i < |cs| && Ids(cs)[i] == l;
          assert cs[i] in Children(f);
        }
      }
      OneStageScoped(OwnStages(f)[0], streams);
    case Normalization(_, t) =>
      assert t in Children(f);
      OneStageScoped(OwnStages(f)[0], streams);
    case Resample(_, t, _) =>
      assert t in Children(f);
      OneStageScoped(OwnStages(f)[0], streams);
    case Volume(_, t, _) =>
      assert t in Children(f);
      OneStageScoped(OwnStages(f)[0], streams);
    case Mix(_, m, s, mode, _, _) =>
      assert m in Children(f) && s in Children(f);
      if mode == WithModulation {
        ModulatedScoped(f, streams);
      } else {
        OneStageScoped(OwnStages(f)[0], streams);
      }
  }

  /**
   * Children before parents: in the compiled graph every label a stage reads is an input stream
   * or the output of an earlier stage, provided every volume node reads an input stream (a
   * volume node does not compile its child, see `VolumeOverFilterIsUnscoped`).
   */
  lemma {:induction false} StagesScoped(f: Filter)
    requires Buildable(f) && VolumesOverInputs(f)
    ensures Scoped(Stages(f), InputNames(f))
    decreases f
  {
    match f
    case Input(_) =>
    case Concat(_, cs) =>
      StagesEachScoped(cs);
      forall c | c in Children(f) ensures Id(c) in InputNames(f) + OutputSet(StagesEach(cs)) {
        var i :| 0 <= i < |cs| && cs[i] == c;
        EachAvailable(cs, i);
      }
      OwnScoped(f, InputNames(f) + OutputSet(StagesEach(cs)));
      ScopedAppend(StagesEach(cs), OwnStages(f), InputNames(f));
    case Normalization(_, t) =>
      StagesScoped(t);
      IdAvailable(t);
      OwnScoped(f, InputNames(f) + OutputSet(Stages(t)));
      ScopedAppend(Stages(t), OwnStages(f), InputNames(f));
    case Resample(_, t, _) =>
      StagesScoped(t);
      IdAvailable(t);
      OwnScoped(f, InputNames(f) + OutputSet(Stages(t)));
      ScopedAppend(Stages(t), OwnStages(f), InputNames(f));
    case Volume(_, t, _) =>
      assert Id(t) in InputNames(t);
      OwnScoped(f, InputNames(f));
    case Mix(_, m, s, _, _, _) =>
      var sm, ss := Stages(m), Stages(s);
      StagesScoped(m);
      StagesScoped(s);
      ScopedWeaken(sm, InputNames(m), InputNames(f));
      ScopedWeaken(ss, InputNames(s), InputNames(f) + OutputSet(sm));
      ScopedAppend(sm, ss, InputNames(f));
      IdAvailable(m);
      IdAvailable(s);
      OutputsAppend(sm, ss);
      OwnScoped(f, InputNames(f) + OutputSet(sm + ss));
      ScopedAppend(sm + ss, OwnStages(f), InputNames(f));
  }

  lemma {:induction false} StagesEachScoped(cs: seq<Filter>)
    requires forall i :: 0 <= i < |cs| ==> Buildable(cs[i]) && VolumesOverInputs(cs[i])
    ensures Scoped(StagesEach(cs), InputNamesEach(cs))
    decreases cs
  {
    if |cs| > 0 {
      StagesScoped(cs[0]);
      StagesEachScoped(cs[1..]);
      var all := InputNamesEach(cs);
      ScopedWeaken(Stages(cs[0]), InputNames(cs[0]), all);
      ScopedWeaken(StagesEach(cs[1..]), InputNamesEach(cs[1..]), all + OutputSet(Stages(cs[0])));
      ScopedAppend(Stages(cs[0]), StagesEach(cs[1..]), all);
    }
  }
}
