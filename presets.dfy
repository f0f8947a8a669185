/**
 * The two encoding recipes: a video or a still image as input 0, the audio files as inputs
 * 1..n, and an audio graph that concatenates the audios (when there are several), normalizes
 * and resamples them and, for the video, mixes the result against the video's own audio.
 *
 * Each recipe is a method that drives a `Builder` as the program does, proved equal to a
 * function that states the recipe outright; the lemmas below are about those functions.
 */
module Presets {
  import opened Wrappers
  import opened Errors
  import opened Text
  import opened FilterGraph
  import opened FilterGraphStages
  import opened FilterGraphProperties
  import opened Encoders
  import opened FluentBuilder

  /** The random suffixes the recipe's filter constructors draw, in the order they are drawn. */
  datatype Suffixes = Suffixes(concat: string, norm: string, resample: string, mix: string)

  function PlainInput(path: string): FileInput {
    FileInput(path, "", [])
  }

  /** The still image is looped so that it lasts as long as the audio. */
  function ImageInput(path: string): FileInput {
    FileInput(path, "", ["-loop 1"])
  }

  /** One plain input per audio file, in the order given. */
  function AudioInputs(paths: seq<string>): (r: seq<FileInput>)
    ensures |r| == |paths|
  {
    if |paths| == 0 then [] else AudioInputs(paths[..|paths| - 1]) + [PlainInput(paths[|paths| - 1])]
  }

  /** The graph inputs `1`..`n`: audio `k` is input stream `k + 1`, stream 0 being the picture. */
  function AudioTracks(n: nat): (r: seq<Filter>)
    ensures |r| == n && forall k :: 0 <= k < n ==> r[k] == Input(NatToString(k + 1))
  {
    if n == 0 then [] else AudioTracks(n - 1) + [NewInput(NatToString(n))]
  }

  /** A single audio is used as it is; any other count, zero included, is concatenated. */
  function AudioRoot(n: nat, sfx: Suffixes): Filter {
    if n == 1 then NewInput("1") else NewAudioConcatFilter(sfx.concat, AudioTracks(n))
  }

  /** Normalize, then resample to 44.1 kHz. */
  function AudioChain(n: nat, sfx: Suffixes): Filter {
    NewAudioResampleFilter(sfx.resample, NewAudioNormalizationFilter(sfx.norm, AudioRoot(n, sfx)), K44)
  }

  /** The picture's own audio (input 0) as main, the prepared audio as side, weights 0.2 and 1.0. */
  function VideoGraph(n: nat, sfx: Suffixes): Filter {
    NewAudioMixFilter(sfx.mix, NewInput("0"), AudioChain(n, sfx), WithModulation, 2, 10)
  }

  function MapOption(id: string): string {
    "-map [" + id + "]"
  }

  function VideoOptions(rootId: string): seq<string> {
    ["-map 0:v", MapOption(rootId)]
  }

  /** Pixel format, codec, the x264 tuning for a still picture, and stop at the shorter input. */
  const StillImageOptions := ["-pix_fmt yuv420p", "-c:v libx264", "-tune stillimage", "-shortest"]

  function ImageOptions(rootId: string): seq<string> {
    StillImageOptions + VideoOptions(rootId)
  }

  /** What `GetAudiosVideoEnc` returns. Input 0 is always present, so only the output can be missing. */
  function VideoRecipe(videoPath: string, audioPaths: seq<string>, output: string, sfx: Suffixes): (r: Result<Encoder, Failure>)
    ensures r.Err? <==> output == ""
    ensures r.Err? ==> r.error == NoOutputPathSpecified
  {
    var graph := VideoGraph(|audioPaths|, sfx);
    BuildEncoder([PlainInput(videoPath)] + AudioInputs(audioPaths), Some(graph), VideoOptions(Id(graph)), output)
  }

  /** What `GetAudiosImageEnc` returns. */
  function ImageRecipe(imagePath: string, audioPaths: seq<string>, output: string, sfx: Suffixes): (r: Result<Encoder, Failure>)
    ensures r.Err? <==> output == ""
    ensures r.Err? ==> r.error == NoOutputPathSpecified
  {
    var graph := AudioChain(|audioPaths|, sfx);
    BuildEncoder([ImageInput(imagePath)] + AudioInputs(audioPaths), Some(graph), ImageOptions(Id(graph)), output)
  }

  // ---------------------------------------------------------------- the recipes as the program runs them

  /** Adds one plain input per audio file and collects the matching graph inputs. */
  method AddAudioInputs(builder: Builder, audioPaths: seq<string>) returns (aFilterInput: seq<Filter>)
    modifies builder
    ensures builder.inputs == old(builder.inputs) + AudioInputs(audioPaths)
    ensures aFilterInput == AudioTracks(|audioPaths|)
    ensures builder.inputOptions == old(builder.inputOptions) && builder.outputOptions == old(builder.outputOptions)
    ensures builder.output == old(builder.output) && builder.filterGraph == old(builder.filterGraph)
  {
    aFilterInput := [];
    var i := 0;
    while i < |audioPaths|
      invariant 0 <= i <= |audioPaths|
      invariant builder.inputs == old(builder.inputs) + AudioInputs(audioPaths[..i])
      invariant aFilterInput == AudioTracks(i)
      invariant builder.inputOptions == old(builder.inputOptions) && builder.outputOptions == old(builder.outputOptions)
      invariant builder.output == old(builder.output) && builder.filterGraph == old(builder.filterGraph)
    {
      var _ := builder.AddInput(PlainInput(audioPaths[i]));
      assert audioPaths[..i + 1][..i] == audioPaths[..i];
      aFilterInput := aFilterInput + [NewInput(NatToString(i + 1))];
      i := i + 1;
    }
    assert audioPaths[..i] == audioPaths;
  }

  /** The audio inputs and the root of the audio graph, shared by both recipes. */
  method AddAudioTrack(builder: Builder, audioPaths: seq<string>, sfx: Suffixes) returns (graphRoot: Filter)
    modifies builder
    ensures builder.inputs == old(builder.inputs) + AudioInputs(audioPaths)
    ensures graphRoot == AudioRoot(|audioPaths|, sfx)
    ensures builder.inputOptions == old(builder.inputOptions) && builder.outputOptions == old(builder.outputOptions)
    ensures builder.output == old(builder.output) && builder.filterGraph == old(builder.filterGraph)
  {
    if |audioPaths| == 1 {
      var _ := builder.AddInput(PlainInput(audioPaths[0]));
      graphRoot := NewInput("1");
    } else {
      var aFilterInput := AddAudioInputs(builder, audioPaths);
      graphRoot := NewAudioConcatFilter(sfx.concat, aFilterInput);
    }
  }

  /** `GetAudiosVideoEnc`, with the constructors' random suffixes passed in. */
  method GetAudiosVideoEnc(videoPath: string, audioPaths: seq<string>, output: string, sfx: Suffixes)
    returns (r: Result<Encoder, Failure>)
    ensures r == VideoRecipe(videoPath, audioPaths, output, sfx)
  {
    var builder := new Builder();
    var _ := builder.AddInput(PlainInput(videoPath));
    var videoTrack := NewInput("0");
    var graphRoot := AddAudioTrack(builder, audioPaths, sfx);
    graphRoot := NewAudioNormalizationFilter(sfx.norm, graphRoot);
    graphRoot := NewAudioResampleFilter(sfx.resample, graphRoot, K44);
    graphRoot := NewAudioMixFilter(sfx.mix, videoTrack, graphRoot, WithModulation, 2, 10);
    var _ := builder.SetFilterGraph(graphRoot);
    var b := builder.AddOutputOption("-map 0:v");
    var _ := b.AddOutputOption(MapOption(Id(graphRoot)));
    var _ := builder.SetOutput(output);
    r := builder.Build();
  }

  method AddStillImageOptions(builder: Builder)
    modifies builder
    ensures builder.outputOptions == old(builder.outputOptions) + StillImageOptions
    ensures builder.inputs == old(builder.inputs) && builder.inputOptions == old(builder.inputOptions)
    ensures builder.output == old(builder.output) && builder.filterGraph == old(builder.filterGraph)
  {
    var b := builder.AddOutputOption("-pix_fmt yuv420p");
    b := b.AddOutputOption("-c:v libx264");
    b := b.AddOutputOption("-tune stillimage");
    b := b.AddOutputOption("-shortest");
  }

  /** `GetAudiosImageEnc`, with the constructors' random suffixes passed in. */
  method GetAudiosImageEnc(imagePath: string, audioPaths: seq<string>, output: string, sfx: Suffixes)
    returns (r: Result<Encoder, Failure>)
    ensures r == ImageRecipe(imagePath, audioPaths, output, sfx)
  {
    var builder := new Builder();
    var _ := builder.AddInput(ImageInput(imagePath));
    var graphRoot := AddAudioTrack(builder, audioPaths, sfx);
    graphRoot := NewAudioNormalizationFilter(sfx.norm, graphRoot);
    graphRoot := NewAudioResampleFilter(sfx.resample, graphRoot, K44);
    var _ := builder.SetFilterGraph(graphRoot);
    AddStillImageOptions(builder);
    var b := builder.AddOutputOption("-map 0:v");
    var _ := b.AddOutputOption(MapOption(Id(graphRoot)));
    assert builder.outputOptions == StillImageOptions + ["-map 0:v"] + [MapOption(Id(graphRoot))];
    assert builder.outputOptions == ImageOptions(Id(graphRoot));
    var _ := builder.SetOutput(output);
    r := builder.Build();
  }
}
