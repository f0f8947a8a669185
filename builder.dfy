/**
 * The fluent command builder: a mutable record of inputs, output options, output path and
 * filter graph, collapsed into one `ffmpeg ...` command line.
 */
module FluentBuilder {
  import opened Wrappers
  import opened Errors
  import opened Text
  import opened FilterGraph
  import opened FilterGraphStages
  import opened FilterGraphProperties
  import opened Encoders

  /** `FileInput`: one `-i` input, with an optional format and input options. */
  datatype FileInput = FileInput(path: string, format: string, options: seq<string>)

  /** `FileInput.String`: the options and a space, then `-f <format> ` when set, then `-i <path>`. */
  function InputText(fi: FileInput): string {
    (if |fi.options| != 0 then Join(fi.options, " ") + " " else "")
    + (if fi.format != "" then "-f " + fi.format + " " else "")
    + "-i " + fi.path
  }

  /** The space-separated pieces `InputText` writes, in order. */
  function InputPieces(fi: FileInput): (r: seq<string>)
    ensures |r| >= 2 && r[|r| - 2..] == ["-i", fi.path]
  {
    fi.options + (if fi.format != "" then ["-f", fi.format] else []) + ["-i", fi.path]
  }

  /** The loop over the inputs: ` <input.String()>` for each, in order. */
  function InputsText(inputs: seq<FileInput>): string {
    if |inputs| == 0 then "" else " " + InputText(inputs[0]) + InputsText(inputs[1..])
  }

  function InputsPieces(inputs: seq<FileInput>): seq<string> {
    if |inputs| == 0 then [] else InputPieces(inputs[0]) + InputsPieces(inputs[1..])
  }

  /** The graph text between the quotes: `Build` with one trailing `;` removed. */
  function GraphArgument(f: Filter): string {
    TrimSuffix(Build(f), ";")
  }

  function GraphText(graph: Option<Filter>): string {
    match graph
    case None => ""
    case Some(f) => " " + QuotedFlag + GraphArgument(f) + "\""
  }

  function GraphPieces(graph: Option<Filter>): seq<string> {
    match graph
    case None => []
    case Some(f) => [Flag, "\"" + GraphArgument(f) + "\""]
  }

  /** The loop over the output options: ` <opt>` for each, in order. */
  function OptionsText(opts: seq<string>): string {
    if |opts| == 0 then "" else " " + opts[0] + OptionsText(opts[1..])
  }

  /** `getFFmpegCmd` over the builder's fields. */
  function CommandLine(inputs: seq<FileInput>, graph: Option<Filter>, outputOptions: seq<string>,
                       output: string): string {
    "ffmpeg" + InputsText(inputs) + GraphText(graph) + OptionsText(outputOptions) + " " + output
  }

  /**
   * `Builder.Build`: no inputs is checked first, then an empty output path; otherwise the
   * encoder runs the collapsed command.
   */
  function BuildEncoder(inputs: seq<FileInput>, graph: Option<Filter>, outputOptions: seq<string>,
                        output: string): (r: Result<Encoder, Failure>)
    ensures r.Err? <==> |inputs| == 0 || output == ""
    ensures |inputs| == 0 ==> r == Err(NoInputsSpecified)
    ensures |inputs| > 0 && output == "" ==> r == Err(NoOutputPathSpecified)
    ensures r.Ok? ==> GetCommandLine(r.value) == CommandLine(inputs, graph, outputOptions, output)
  {
    if |inputs| == 0 then Err(NoInputsSpecified)
    else if output == "" then Err(NoOutputPathSpecified)
    else Ok(NewEncoder(CommandLine(inputs, graph, outputOptions, output)))
  }

  /** `Builder`: every setter changes one field in place and returns the builder itself. */
  class Builder {
    var inputs: seq<FileInput>
    // Collected by the program but never written into the command.
    var inputOptions: seq<string>
    var outputOptions: seq<string>
    var output: string
    var filterGraph: Option<Filter>

    /** The zero value `Builder{}`. */
    constructor ()
      ensures inputs == [] && inputOptions == [] && outputOptions == [] && output == "" && filterGraph == None
    {
      inputs, inputOptions, outputOptions, output, filterGraph := [], [], [], "", None;
    }

    method AddInput(input: FileInput) returns (self: Builder)
      modifies this
      ensures self == this && inputs == old(inputs) + [input]
      ensures inputOptions == old(inputOptions) && outputOptions == old(outputOptions)
      ensures output == old(output) && filterGraph == old(filterGraph)
    {
      inputs := inputs + [input];
      self := this;
    }

    method AddOutputOption(opt: string) returns (self: Builder)
      modifies this
      ensures self == this && outputOptions == old(outputOptions) + [opt]
      ensures inputs == old(inputs) && inputOptions == old(inputOptions)
      ensures output == old(output) && filterGraph == old(filterGraph)
    {
      outputOptions := outputOptions + [opt];
      self := this;
    }

    method SetOutput(path: string) returns (self: Builder)
      modifies this
      ensures self == this && output == path
      ensures inputs == old(inputs) && inputOptions == old(inputOptions)
      ensures outputOptions == old(outputOptions) && filterGraph == old(filterGraph)
    {
      output := path;
      self := this;
    }

    method SetFilterGraph(graph: Filter) returns (self: Builder)
      modifies this
      ensures self == this && filterGraph == Some(graph)
      ensures inputs == old(inputs) && inputOptions == old(inputOptions)
      ensures outputOptions == old(outputOptions) && output == old(output)
    {
      filterGraph := Some(graph);
      self := this;
    }

    function GetFFmpegCmd(): string
      reads this
    {
      CommandLine(inputs, filterGraph, outputOptions, output)
    }

    function Build(): Result<Encoder, Failure>
      reads this
    {
      BuildEncoder(inputs, filterGraph, outputOptions, output)
    }
  }

  // ---------------------------------------------------------------- the command, piece by piece

  lemma JoinPush(ps: seq<string>, x: string)
    requires |ps| > 0
    ensures Join(ps, " ") + " " + x == Join(ps + [x], " ")
  {
    JoinAppend(ps, [x], " ");
  }

  lemma JoinPair(a: string, b: string)
    ensures Join([a, b], " ") == a + " " + b
  {
    assert [a, b][1..] == [b];
  }

  /** The words after the options: `-f <format>` when set, then `-i <path>`. */
  lemma InputTailText(format: string, path: string)
    ensures Join((if format != "" then ["-f", format] else []) + ["-i", path], " ")
            == (if format != "" then "-f " + format + " " else "") + "-i " + path
  {
    JoinPair("-i", path);
    if format != "" {
      JoinAppend(["-f", format], ["-i", path], " ");
      JoinPair("-f", format);
    } else {
      assert [] + ["-i", path] == ["-i", path];
    }
  }

  lemma InputTextPieces(fi: FileInput)
    ensures InputText(fi) == Join(InputPieces(fi), " ")
  {
    var last := (if fi.format != "" then ["-f", fi.format] else []) + ["-i", fi.path];
    var lastText := (if fi.format != "" then "-f " + fi.format + " " else "") + "-i " + fi.path;
    InputTailText(fi.format, fi.path);
    assert InputPieces(fi) == fi.options + last;
    assert InputText(fi) == (if |fi.options| != 0 then Join(fi.options, " ") + " " else "") + lastText;
    if |fi.options| != 0 {
      JoinAppend(fi.options, last, " ");
    } else {
      assert fi.options + last == last;
    }
  }

  lemma {:induction false} InputsTextPieces(ps: seq<string>, inputs: seq<FileInput>)
    requires |ps| > 0
    ensures Join(ps, " ") + InputsText(inputs) == Join(ps + InputsPieces(inputs), " ")
    decreases |inputs|
  {
    if |inputs| > 0 {
      var first := InputPieces(inputs[0]);
      InputTextPieces(inputs[0]);
      JoinAppend(ps, first, " ");
      InputsTextPieces(ps + first, inputs[1..]);
      assert ps + first + InputsPieces(inputs[1..]) == ps + InputsPieces(inputs);
    } else {
      assert ps + InputsPieces(inputs) == ps;
    }
  }

  lemma {:induction false} OptionsTextPieces(ps: seq<string>, opts: seq<string>)
    requires |ps| > 0
    ensures Join(ps, " ") + OptionsText(opts) == Join(ps + opts, " ")
    decreases |opts|
  {
    if |opts| > 0 {
      JoinPush(ps, opts[0]);
      OptionsTextPieces(ps + [opts[0]], opts[1..]);
      assert ps + [opts[0]] + opts[1..] == ps + opts;
    } else {
      assert ps + opts == ps;
    }
  }

  lemma QuotedPiece(j: string, g: string)
    ensures j + (" " + QuotedFlag + g + "\"") == j + " " + Flag + " " + ("\"" + g + "\"")
  {
    QuotedFlagShape();
  }

  lemma GraphPush(ps: seq<string>, g: string)
    requires |ps| > 0
    ensures Join(ps, " ") + (" " + QuotedFlag + g + "\"") == Join(ps + [Flag, "\"" + g + "\""], " ")
  {
    var q := "\"" + g + "\"";
    QuotedPiece(Join(ps, " "), g);
    JoinPush(ps, Flag);
    JoinPush(ps + [Flag], q);
    assert ps + [Flag] + [q] == ps + [Flag, q];
  }

  lemma GraphTextPieces(ps: seq<string>, graph: Option<Filter>)
    requires |ps| > 0
    ensures Join(ps, " ") + GraphText(graph) == Join(ps + GraphPieces(graph), " ")
  {
    match graph
    case None =>
      assert ps + GraphPieces(graph) == ps;
    case Some(f) =>
      SomeGraphPieces(ps, f);
  }

  lemma SomeGraphPieces(ps: seq<string>, f: Filter)
    requires |ps| > 0
    ensures Join(ps, " ") + GraphText(Some(f)) == Join(ps + [Flag, "\"" + GraphArgument(f) + "\""], " ")
  {
    GraphPush(ps, GraphArgument(f));
  }

  /**
   * The command is its pieces joined by single spaces, in the order `getFFmpegCmd` writes
   * them: `ffmpeg`, each input's pieces, the graph flag and quoted graph when a graph is set,
   * the output options, the output path.
   */
  lemma CommandPieces(inputs: seq<FileInput>, graph: Option<Filter>, opts: seq<string>, output: string)
    ensures CommandLine(inputs, graph, opts, output)
            == Join(["ffmpeg"] + InputsPieces(inputs) + GraphPieces(graph) + opts + [output], " ")
  {
    var p1 := ["ffmpeg"] + InputsPieces(inputs);
    var p2 := p1 + GraphPieces(graph);
    var p3 := p2 + opts;
    assert Join(["ffmpeg"], " ") == "ffmpeg";
    InputsTextPieces(["ffmpeg"], inputs);
    GraphTextPieces(p1, graph);
    OptionsTextPieces(p2, opts);
    JoinPush(p3, output);
  }

  // ---------------------------------------------------------------- properties of the command

  lemma {:induction false} NotInJoin(ps: seq<string>, p: string)
    requires |p| > 0 && ' ' !in p
    requires forall x :: x in ps ==> !Occurs(x, p)
    ensures !Occurs(Join(ps, " "), p)
  {
    if |ps| > 1 {
      assert ps[0] in ps;
      assert forall x :: x in ps[1..] ==> x in ps;
      NotInJoin(ps[1..], p);
      NotAcrossSpace(ps[0], Join(ps[1..], " "), p);
    } else if |ps| == 1 {
      assert ps[0] in ps;
    } else {
      assert !OccursAt("", p, 0);
    }
  }

  /** A space-free pattern cannot occur across a space. */
  lemma NotAcrossSpace(a: string, b: string, p: string)
    requires |p| > 0 && ' ' !in p && !Occurs(a, p) && !Occurs(b, p)
    ensures !Occurs(a + " " + b, p)
  {
    var s := a + " " + b;
    forall i | 0 <= i && i + |p| <= |s| ensures !OccursAt(s, p, i) {
      if i + |p| <= |a| {
        assert a[i..i + |p|] == s[i..i + |p|];
        assert !OccursAt(a, p, i);
      } else if i > |a| {
        assert b[i - |a| - 1..i - |a| - 1 + |p|] == s[i..i + |p|];
        assert !OccursAt(b, p, i - |a| - 1);
      } else {
        assert s[i..i + |p|][|a| - i] == ' ';
      }
    }
  }

  lemma ShortLiteralsDoNotMention()
    ensures !Occurs("ffmpeg", Flag) && !Occurs("-f", Flag) && !Occurs("-i", Flag)
  {
    QuotedFlagShape();
  }

  /** The words of one input never mention the flag when its path, format and options do not. */
  lemma InputPiecesDoNotMention(fi: FileInput)
    requires !Occurs(fi.path, Flag) && !Occurs(fi.format, Flag)
    requires forall o :: o in fi.options ==> !Occurs(o, Flag)
    ensures forall x :: x in InputPieces(fi) ==> !Occurs(x, Flag)
  {
    ShortLiteralsDoNotMention();
  }

  lemma {:induction false} InputsPiecesDoNotMention(inputs: seq<FileInput>)
    requires forall k :: 0 <= k < |inputs| ==>
               !Occurs(inputs[k].path, Flag) && !Occurs(inputs[k].format, Flag)
               && forall o :: o in inputs[k].options ==> !Occurs(o, Flag)
    ensures forall x :: x in InputsPieces(inputs) ==> !Occurs(x, Flag)
  {
    if |inputs| > 0 {
      InputPiecesDoNotMention(inputs[0]);
      InputsPiecesDoNotMention(inputs[1..]);
    }
  }

  /** With no graph set, `-filter_complex` is not written, unless an argument itself holds it. */
  lemma NoGraphNoFlag(inputs: seq<FileInput>, opts: seq<string>, output: string)
    requires forall k :: 0 <= k < |inputs| ==>
               !Occurs(inputs[k].path, Flag) && !Occurs(inputs[k].format, Flag)
               && forall o :: o in inputs[k].options ==> !Occurs(o, Flag)
    requires forall o :: o in opts ==> !Occurs(o, Flag)
    requires !Occurs(output, Flag)
    ensures !Occurs(CommandLine(inputs, None, opts, output), Flag)
  {
    QuotedFlagShape();
    CommandPieces(inputs, None, opts, output);
    InputsPiecesDoNotMention(inputs);
    ShortLiteralsDoNotMention();
    var ps := ["ffmpeg"] + InputsPieces(inputs) + GraphPieces(None) + opts + [output];
    forall x | x in ps ensures !Occurs(x, Flag) {
      if x != "ffmpeg" && x != output && x !in opts {
        assert x in InputsPieces(inputs);
      }
    }
    NotInJoin(ps, Flag);
  }

  lemma {:induction false} RenderEndsWithSemicolon(sts: seq<Stage>)
    requires |sts| > 0
    ensures HasSuffix(Render(sts), ";")
  {
    if |sts| > 1 {
      RenderEndsWithSemicolon(sts[1..]);
    }
  }

  lemma StagesOfNonInput(f: Filter)
    requires Buildable(f) && !f.Input?
    ensures |Stages(f)| > 0
  {
    match f
    case Concat(_, cs) =>
    case Normalization(_, t) =>
    case Resample(_, t, _) =>
    case Volume(_, _, _) =>
    case Mix(_, m, s, _, _, _) =>
  }

  /**
   * Exactly one `;` is stripped: the graph argument followed by `;` is the built text, and it
   * holds one `;` fewer than there are stages.
   */
  lemma GraphArgumentTrim(f: Filter)
    requires Buildable(f) && CleanNames(f) && !f.Input?
    ensures GraphArgument(f) + ";" == Build(f)
    ensures CountChar(GraphArgument(f), ';') == |Stages(f)| - 1
  {
    BuildRendersStages(f);
    StagesOfNonInput(f);
    RenderEndsWithSemicolon(Stages(f));
    SemicolonPerStage(f);
    CountCharAppend(GraphArgument(f), ";", ';');
  }
}
