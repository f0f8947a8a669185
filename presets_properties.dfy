/**
 * What the two recipes' audio graphs look like once compiled: the exact stages, their count,
 * the weights as printed, and that every label a stage reads is one of the command's input
 * streams or the output of an earlier stage.
 */
module PresetProperties {
  import opened Wrappers
  import opened Text
  import opened FilterGraph
  import opened FilterGraphStages
  import opened FilterGraphProperties
  import opened Encoders
  import opened FluentBuilder
  import opened Presets

  /** The label of the root of the audio graph: input 1 itself, or the concatenation. */
  function RootName(n: nat, sfx: Suffixes): (r: string)
    ensures r == Id(AudioRoot(n, sfx))
  {
    if n == 1 then "1" else "concat_" + sfx.concat
  }

  /** The input streams of a command with n audios: the picture 0 and the audios 1..n. */
  function StreamNames(n: nat): set<string> {
    set k | 0 <= k <= n :: NatToString(k)
  }

  lemma {:induction false} InputsStageless(cs: seq<Filter>, names: set<string>)
    requires forall i :: 0 <= i < |cs| ==> cs[i].Input? && cs[i].name in names
    ensures forall i :: 0 <= i < |cs| ==> Buildable(cs[i])
    ensures StagesEach(cs) == []
    ensures InputNamesEach(cs) <= names
  {
    if |cs| > 0 {
      InputsStageless(cs[1..], names);
    }
  }

  /**
   * The root of the audio graph: one audio is read as input 1 with no stage of its own; any
   * other count is one concat stage reading the audio streams "1".."n" in order.
   */
  lemma RootStages(n: nat, sfx: Suffixes)
    ensures Buildable(AudioRoot(n, sfx)) && VolumesOverInputs(AudioRoot(n, sfx))
    ensures n == 1 ==> Stages(AudioRoot(n, sfx)) == []
    ensures n != 1 ==> Stages(AudioRoot(n, sfx)) == [Stage(Ids(AudioTracks(n)), ConcatParams(n), [RootName(n, sfx)])]
    ensures forall k :: 0 <= k < n ==> Ids(AudioTracks(n))[k] == NatToString(k + 1)
    ensures InputNames(AudioRoot(n, sfx)) <= StreamNames(n)
  {
    if n == 1 {
      SingleRoot(sfx);
    } else {
      TracksAreStreams(n);
      InputsStageless(AudioTracks(n), StreamNames(n));
    }
  }

  lemma TracksAreStreams(n: nat)
    ensures forall i :: 0 <= i < |AudioTracks(n)| ==> AudioTracks(n)[i].Input? && AudioTracks(n)[i].name in StreamNames(n)
  {
    var ts := AudioTracks(n);
    forall i | 0 <= i < |ts| ensures ts[i].Input? && ts[i].name in StreamNames(n) {
      assert ts[i].name == NatToString(i + 1);
    }
  }

  lemma SingleRoot(sfx: Suffixes)
    ensures AudioRoot(1, sfx) == Input("1") && "1" in StreamNames(1)
  {
    assert NatToString(1) == "1";
  }

  /** The audio chain of both recipes: the root's stages, loudnorm, then the 44.1 kHz aformat. */
  lemma ChainStages(n: nat, sfx: Suffixes)
    ensures Buildable(AudioChain(n, sfx)) && VolumesOverInputs(AudioChain(n, sfx))
    ensures Stages(AudioChain(n, sfx)) == Stages(AudioRoot(n, sfx)) +
      [Stage([RootName(n, sfx)], Loudnorm, ["norm_" + sfx.norm]),
       Stage(["norm_" + sfx.norm], ResampleParams(K44), ["norm_" + sfx.resample])]
    ensures |Stages(AudioChain(n, sfx))| == if n == 1 then 2 else 3
    ensures InputNames(AudioChain(n, sfx)) <= StreamNames(n)
  {
    RootStages(n, sfx);
  }

  /**
   * The video recipe's graph: the chain's stages, then the split of the prepared audio, the
   * sidechain compression of the picture's own audio (stream 0) by one copy, and the mix of
   * the compressed audio with the other copy, weighted 0.2 and 1.0.
   */
  lemma VideoStages(n: nat, sfx: Suffixes)
    ensures Buildable(VideoGraph(n, sfx)) && VolumesOverInputs(VideoGraph(n, sfx))
    ensures var m := "mixed_" + sfx.mix;
      Stages(VideoGraph(n, sfx)) == Stages(AudioChain(n, sfx)) +
      [Stage(["norm_" + sfx.resample], "asplit=2", [SideModulate(m), SideOriginal(m)]),
       Stage(["0", SideModulate(m)], SidechainCompress, [ModulatedMain(m)]),
       Stage([ModulatedMain(m), SideOriginal(m)], "amix=weights=0.2 1.0", [m])]
    ensures |Stages(VideoGraph(n, sfx))| == if n == 1 then 5 else 6
    ensures InputNames(VideoGraph(n, sfx)) <= StreamNames(n)
  {
    ChainStages(n, sfx);
    PresetWeights();
    assert NatToString(0) == "0";
  }

  /** The weights as `%.1f` prints them. */
  lemma PresetWeights()
    ensures AmixParams(2, 10) == "amix=weights=0.2 1.0"
  {
    assert Pow10(1) == 10;
    assert DivMod(2, 10) == (0, 2);
    assert DivMod(10, 10) == (1, 0);
    assert FormatFixed(2, 1) == "0.2";
    assert FormatFixed(10, 1) == "1.0";
  }

  /** Every label a stage of the video graph reads is stream 0..n or written by an earlier stage. */
  lemma VideoGraphScoped(n: nat, sfx: Suffixes)
    ensures Buildable(VideoGraph(n, sfx)) && Scoped(Stages(VideoGraph(n, sfx)), StreamNames(n))
  {
    VideoStages(n, sfx);
    StagesScoped(VideoGraph(n, sfx));
    ScopedWeaken(Stages(VideoGraph(n, sfx)), InputNames(VideoGraph(n, sfx)), StreamNames(n));
  }

  /** The same for the still-image recipe's graph. */
  lemma ImageGraphScoped(n: nat, sfx: Suffixes)
    ensures Buildable(AudioChain(n, sfx)) && Scoped(Stages(AudioChain(n, sfx)), StreamNames(n))
  {
    ChainStages(n, sfx);
    StagesScoped(AudioChain(n, sfx));
    ScopedWeaken(Stages(AudioChain(n, sfx)), InputNames(AudioChain(n, sfx)), StreamNames(n));
  }

  /** The arguments `-i <path>` of the audio inputs, in order. */
  function AudioPieces(paths: seq<string>): (r: seq<string>)
    ensures |r| == 2 * |paths|
  {
    if |paths| == 0 then [] else AudioPieces(paths[..|paths| - 1]) + ["-i", paths[|paths| - 1]]
  }

  lemma {:induction false} InputsPiecesAppend(a: seq<FileInput>, b: seq<FileInput>)
    ensures InputsPieces(a + b) == InputsPieces(a) + InputsPieces(b)
  {
    if |a| > 0 {
      assert (a + b)[1..] == a[1..] + b;
      InputsPiecesAppend(a[1..], b);
    } else {
      assert a + b == b;
    }
  }

  /** One plain input per audio file, in the order given. */
  lemma {:induction false} AudioInputsEach(paths: seq<string>)
    ensures forall k :: 0 <= k < |paths| ==> AudioInputs(paths)[k] == PlainInput(paths[k])
  {
    if |paths| > 0 {
      AudioInputsEach(paths[..|paths| - 1]);
    }
  }

  lemma PlainPieces(p: string)
    ensures InputPieces(PlainInput(p)) == ["-i", p]
  {
    var fi := PlainInput(p);
    assert fi.options == [] && fi.format == "";
  }

  lemma OnePiece(fi: FileInput)
    ensures InputsPieces([fi]) == InputPieces(fi)
  {
    assert [fi][1..] == [];
  }

  lemma {:induction false} AudioInputsPieces(paths: seq<string>)
    ensures InputsPieces(AudioInputs(paths)) == AudioPieces(paths)
  {
    if |paths| > 0 {
      var init := paths[..|paths| - 1];
      var last := PlainInput(paths[|paths| - 1]);
      assert AudioInputs(paths) == AudioInputs(init) + [last];
      InputsPiecesAppend(AudioInputs(init), [last]);
      OnePiece(last);
      PlainPieces(paths[|paths| - 1]);
      AudioInputsPieces(init);
      assert AudioPieces(paths) == AudioPieces(init) + ["-i", paths[|paths| - 1]];
    }
  }

  /** `CommandPieces` with the input arguments split in two. */
  lemma CommandWords(inputs: seq<FileInput>, first: seq<string>, rest: seq<string>,
                     graph: Option<Filter>, opts: seq<string>, output: string)
    requires InputsPieces(inputs) == first + rest
    ensures CommandLine(inputs, graph, opts, output)
            == Join(["ffmpeg"] + first + rest + GraphPieces(graph) + opts + [output], " ")
  {
    CommandPieces(inputs, graph, opts, output);
    assert ["ffmpeg"] + (first + rest) == ["ffmpeg"] + first + rest;
  }

  /**
   * A recipe's command line, with the picture's words, the graph and the options left abstract:
   * `ffmpeg`, the picture's words, `-i <audio>` per audio, the graph flag and the quoted graph,
   * the options, the output path.
   */
  lemma RecipeWords(picture: FileInput, audioPaths: seq<string>, g: Filter, opts: seq<string>, output: string)
    requires output != ""
    ensures var r := BuildEncoder([picture] + AudioInputs(audioPaths), Some(g), opts, output);
      r.Ok? && GetCommandLine(r.value) ==
      Join(["ffmpeg"] + InputPieces(picture) + AudioPieces(audioPaths)
           + [Flag, "\"" + GraphArgument(g) + "\""] + opts + [output], " ")
  {
    var inputs := [picture] + AudioInputs(audioPaths);
    InputsPiecesAppend([picture], AudioInputs(audioPaths));
    AudioInputsPieces(audioPaths);
    OnePiece(picture);
    CommandWords(inputs, InputPieces(picture), AudioPieces(audioPaths), Some(g), opts, output);
  }

  /**
   * The video recipe's command line, word by word: `ffmpeg -i <video>`, one `-i <audio>` per
   * audio, the quoted graph, the maps of the picture's video and of the mixed audio, and the
   * output path.
   */
  lemma VideoCommand(videoPath: string, audioPaths: seq<string>, output: string, sfx: Suffixes)
    requires output != ""
    ensures var g := VideoGraph(|audioPaths|, sfx);
      GetCommandLine(VideoRecipe(videoPath, audioPaths, output, sfx).value) ==
      Join(["ffmpeg", "-i", videoPath] + AudioPieces(audioPaths)
           + [Flag, "\"" + GraphArgument(g) + "\""] + ["-map 0:v", MapOption("mixed_" + sfx.mix)] + [output], " ")
  {
    var g := VideoGraph(|audioPaths|, sfx);
    RecipeWords(PlainInput(videoPath), audioPaths, g, VideoOptions(Id(g)), output);
    PlainPieces(videoPath);
    assert Id(g) == "mixed_" + sfx.mix;
    WordsShape("ffmpeg", ["-i", videoPath]);
  }

  /** The picture's words spelt out. */
  lemma WordsShape(h: string, first: seq<string>)
    ensures |first| == 2 ==> [h] + first == [h, first[0], first[1]]
    ensures |first| == 3 ==> [h] + first == [h, first[0], first[1], first[2]]
  {
  }

  lemma ImagePieces(p: string)
    ensures InputPieces(ImageInput(p)) == ["-loop 1", "-i", p]
  {
    var fi := ImageInput(p);
    assert fi.options == ["-loop 1"] && fi.format == "";
  }

  /**
   * The still-image recipe's command line: the looped image, the audios, the quoted graph, the
   * still-image options, and the maps of the picture and of the resampled audio.
   */
  lemma ImageCommand(imagePath: string, audioPaths: seq<string>, output: string, sfx: Suffixes)
    requires output != ""
    ensures var g := AudioChain(|audioPaths|, sfx);
      GetCommandLine(ImageRecipe(imagePath, audioPaths, output, sfx).value) ==
      Join(["ffmpeg", "-loop 1", "-i", imagePath] + AudioPieces(audioPaths)
           + [Flag, "\"" + GraphArgument(g) + "\""]
           + (StillImageOptions + ["-map 0:v", MapOption("norm_" + sfx.resample)]) + [output], " ")
  {
    var g := AudioChain(|audioPaths|, sfx);
    RecipeWords(ImageInput(imagePath), audioPaths, g, ImageOptions(Id(g)), output);
    ImagePieces(imagePath);
    assert Id(g) == "norm_" + sfx.resample;
    assert ImageOptions(Id(g)) == StillImageOptions + ["-map 0:v", MapOption("norm_" + sfx.resample)];
    WordsShape("ffmpeg", ["-loop 1", "-i", imagePath]);
  }

  /**
   * With suffixes free of brackets and semicolons, the graph argument of the video recipe is
   * the compiled graph without its last `;`, one `;` between each two stages.
   */
  lemma VideoGraphArgument(n: nat, sfx: Suffixes)
    requires Clean(sfx.concat) && Clean(sfx.norm) && Clean(sfx.resample) && Clean(sfx.mix)
    ensures GraphArgument(VideoGraph(n, sfx)) + ";" == Build(VideoGraph(n, sfx))
    ensures CountChar(GraphArgument(VideoGraph(n, sfx)), ';') == if n == 1 then 4 else 5
  {
    VideoStages(n, sfx);
    CleanGraphNames(n, sfx);
    GraphArgumentTrim(VideoGraph(n, sfx));
  }

  /** The same for the still-image recipe: two or three stages, so one or two `;`. */
  lemma ImageGraphArgument(n: nat, sfx: Suffixes)
    requires Clean(sfx.concat) && Clean(sfx.norm) && Clean(sfx.resample)
    ensures GraphArgument(AudioChain(n, sfx)) + ";" == Build(AudioChain(n, sfx))
    ensures CountChar(GraphArgument(AudioChain(n, sfx)), ';') == if n == 1 then 1 else 2
  {
    ChainStages(n, sfx);
    CleanChainNames(n, sfx);
    GraphArgumentTrim(AudioChain(n, sfx));
  }

  lemma CleanGraphNames(n: nat, sfx: Suffixes)
    requires Clean(sfx.concat) && Clean(sfx.norm) && Clean(sfx.resample) && Clean(sfx.mix)
    ensures CleanNames(VideoGraph(n, sfx))
  {
    CleanChainNames(n, sfx);
    NumericClean("0");
    LiteralClean("mixed_");
    CleanAppend("mixed_", sfx.mix);
  }

  lemma CleanChainNames(n: nat, sfx: Suffixes)
    requires Clean(sfx.concat) && Clean(sfx.norm) && Clean(sfx.resample)
    ensures CleanNames(AudioChain(n, sfx))
  {
    var ts := AudioTracks(n);
    forall i | 0 <= i < n ensures CleanNames(ts[i]) {
      NumericClean(NatToString(i + 1));
    }
    NumericClean("1");
    LiteralClean("concat_");
    LiteralClean("norm_");
    CleanAppend("concat_", sfx.concat);
    CleanAppend("norm_", sfx.norm);
    CleanAppend("norm_", sfx.resample);
  }
}
