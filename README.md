# encode-box, modelled in Dafny

encode-box is a job runner. It takes an encoding request: a job id, the storage key of a video,
the storage keys of one or more audio tracks, and the key of a still image. It then works through
the job in order:

- fetches every asset from a remote object store, retrying with an exponential back-off;
- picks an encoding recipe from the mix of assets present;
- compiles an audio filter graph into an `ffmpeg` command line;
- splits that command into process arguments, keeping the quoted filter graph as one argument;
- reads ffmpeg's diagnostic output into progress records, keeping the last five lines for error
  reports;
- removes the local files and, on request, the remote objects.

The Dafny project follows the program's packages, one module each:

- `FilterGraph`, `FilterGraphStages`, `FilterGraphProperties`, `FilterGraphExamples`: the filter
  graph nodes and their text.
  - Each node is a value of a closed datatype.
  - `Build` writes the text exactly as the Go `Build` methods do.
  - `Stages` states the same graph as a list of stages (input labels, filter, output labels).
  - `BuildRendersStages` proves the two agree. Everything else about the text (one `;` per stage,
    label counts, children before parents) is proved on the stages.
- `FluentBuilder`: the fluent command builder. `Builder` is a class whose setters update its
  fields in place. `BuildEncoder` and `CommandLine` state the command it collapses into.
- `Encoders`: the argument splitting of `Encoder.Start`.
  - `SplitArguments` is the imperative loop that rewrites the argument slice in place.
  - It is proved equal to the function `Arguments`.
  - `ArgumentsRoundTrip` shows that a graph containing spaces comes back as one argument.
- `Presets`, `PresetProperties`: the video and still-image recipes. Each is a method driving a
  `Builder`, proved equal to a function stating the recipe. The lemmas give the resulting graph
  stage by stage and the command line word by word.
- `ConsoleParser`, `ConsoleParserProperties`, `RingLog`: ffmpeg's output.
  - The line splitter follows FFmpeg's two line terminators.
  - Progress lines are parsed into records, including the integer size parser with its int64
    wrap-around.
  - A five-slot ring buffer (a class over an `array`) holds the last lines.
  - The test examples of the console parser are proved as lemmas.
- `Assets`, `EncodeBox`, `Server`: the job itself.
  - The asset collection is a sequence of `Asset` objects whose `path` field is filled in place.
  - The retry loop keeps its int8 counter.
  - The download of a collection, the clean-up, and the choice of encoder are modelled.
  - In the HTTP layer, the request checks and the removal of the stored keys are modelled.
- `Text`: the few pieces of Go's `strings`, `strconv` and `fmt` the program relies on (`Split`,
  `Join`, `TrimSpace`, `TrimSuffix`, `ParseInt`, `%d`, `%.1f`). Lemmas cover them, for example
  `JoinSplit` and `SplitJoin`.
- `Wrappers`, `Errors`: `Option` and `Result`, and one `Failure` constructor per error the modelled
  code can produce.

The operations that touch the outside world take that world as a parameter, so each becomes a
plain function of its input:

| operation | parameter |
|---|---|
| download | a function from (key, attempt) to a result |
| delete | a function from key to an optional error |
| request body parser | a function from body to a result |
| audio-only recipe | a function from (audio paths, output) to a result |
| random suffixes of filter ids | a `Suffixes` record |
| `rand.Int63` source | a sequence of draws |

## Model

| member | source | states |
|---|---|---|
| Assets.MediaTag | pkg/encode-box/asset.go:12-18 | The three roles take the `iota` values 0, 1, 2. |
| Assets.MediaTagsDistinct | pkg/encode-box/asset.go:14-18 | Two roles share a tag exactly when they are the same role. |
| Assets.Asset.constructor | pkg/encode-box/asset.go:4-11 | A new asset has the given key and role and an empty path. |
| Assets.NewAssetCollectionFrom | pkg/encode-box/asset.go:24-52 | The collection is one fresh asset per planned entry, with an empty path. It holds the video if its key is set, every audio key in order, then the image if its key is set. No asset appears twice. |
| Assets.PlannedLength | pkg/encode-box/asset.go:27-50 | There is one asset per set key and one per audio track. |
| Assets.PlannedByMedia | pkg/encode-box/asset.go:24-52 | The audio keys by role are exactly the request's, in order. There is one video (image) key exactly when that key is set. |
| Assets.PlannedOfMedia | pkg/encode-box/asset.go:27-50 | The keys of one role in a request's collection: the video key if set and the role is video, the audio keys if the role is audio, the image key if set and the role is image. |
| Assets.OfMediaAppend | pkg/encode-box/asset.go:77-85 | Selecting by role distributes over concatenation. |
| Assets.FindPaths | pkg/encode-box/asset.go:77-85 | The loop returns the paths of the assets of the role, in collection order. |
| Assets.VideosPaths | pkg/encode-box/asset.go:55-60 | The video paths, in order. |
| Assets.AudiosPaths | pkg/encode-box/asset.go:63-67 | The audio paths, in order. |
| Assets.ImagesPaths | pkg/encode-box/asset.go:70-74 | The image paths, in order. |
| Assets.PathsOfCount | pkg/encode-box/asset.go:77-85 | There is one path per asset of the role. |
| Assets.CollectionPathCounts | pkg/encode-box/asset.go:24-85 | A collection made from a request has as many audio paths as audio keys, and one video (image) path exactly when that key is set. |
| EncodeBox.Backoff | pkg/encode-box/encode-box.go:101-111 | One wait per failed attempt. |
| EncodeBox.BackoffWaits | pkg/encode-box/encode-box.go:110-111 | The wait after attempt i is 2^i seconds. |
| EncodeBox.BackoffTotal | pkg/encode-box/encode-box.go:107-111 | n failed attempts wait 2^n - 1 seconds in total. |
| EncodeBox.ElevenAttemptsWait | pkg/encode-box/encode-box.go:107-109 | Attempts 0 to 10 wait 2047 seconds in total, as the comment computes. |
| EncodeBox.FirstSuccess | pkg/encode-box/encode-box.go:101-105 | Gives the first attempt whose download succeeds: every earlier attempt failed. It is absent exactly when every attempt fails. |
| EncodeBox.FailedAttempts | pkg/encode-box/encode-box.go:101-112 | At most maxRetry + 1 attempts fail, and all of them fail before the stop. Stopping before the bound means the next attempt succeeded. |
| EncodeBox.DownloadAsset | pkg/encode-box/encode-box.go:99-117 | The retry loop succeeds exactly when some attempt from 0 to maxRetry succeeds. On failure the error is the last attempt's. The path becomes the first successful download, and is left alone otherwise. After every failed attempt it sleeps `time.Duration(2^attempt) * time.Second`, an int64 count of nanoseconds that wraps around. |
| EncodeBox.DelaySecs | pkg/encode-box/encode-box.go:110 | Below attempt 63 the delay is exactly 2^attempt seconds. |
| EncodeBox.SleepIsBackoff | pkg/encode-box/encode-box.go:110-111 | Up to attempt 33 the sleep is 2^attempt seconds exactly, and positive. |
| EncodeBox.SleepsFollowBackoff | pkg/encode-box/encode-box.go:106-111 | With at most 34 failed attempts, each sleep is its back-off in nanoseconds. This covers the bound of 10 set in `cmd/server.go`. |
| EncodeBox.SleepWrapsAtThirtyFour | pkg/encode-box/encode-box.go:110-111 | After attempt 34 the nanosecond product leaves int64 and the sleep is negative, so `time.Sleep` returns at once. |
| EncodeBox.Int8Succ | pkg/encode-box/encode-box.go:101 | The int8 counter's `++` wraps from 127 to -128. |
| EncodeBox.CounterCycles | pkg/encode-box/encode-box.go:20-22 | With a bound of 127 the loop guard never fails. The counter repeats every 256 increments. |
| EncodeBox.CounterFromZero | pkg/encode-box/encode-box.go:101 | The counter after n increments from 0 is n, or n - 256 once past 127. |
| EncodeBox.Keys | pkg/encode-box/encode-box.go:96-97 | The keys of the collection, in order. |
| EncodeBox.FirstFailure | pkg/encode-box/encode-box.go:113-116 | It is absent exactly when every key has a successful attempt. Otherwise it is the last error of a key whose every attempt fails, with no such key earlier. |
| EncodeBox.FirstFailureStep | pkg/encode-box/encode-box.go:125-137 | Adding one key keeps an earlier failure. Otherwise the new key's failure, if any, comes next. |
| EncodeBox.BatchOutcomeOf | pkg/encode-box/encode-box.go:123-139 | With no key the wait blocks. Otherwise it returns success exactly when every key has a successful attempt, and else the error of a key whose every attempt fails, with no such key earlier, wrapped. |
| EncodeBox.DownloadAssets | pkg/encode-box/encode-box.go:91-140 | The outcome is `BatchOutcomeOf` for the collection's keys. An empty collection starts no task, and its wait never returns. Every asset's path is the result of its own retry loop. |
| EncodeBox.CleanUpAssets | pkg/encode-box/encode-box.go:143-155 | Every asset's old path is handed to the file system, in order. Every path is then reset to "". |
| EncodeBox.CleanedCollectionHasNoPaths | pkg/encode-box/encode-box.go:151-152 | After the clean-up no role has a path left. |
| EncodeBox.WrapRecipe | pkg/encode-box/encode-box.go:179-183 | A recipe's error is wrapped as an encoder-creation error. An encoder passes through unchanged. |
| EncodeBox.SetupEnc | pkg/encode-box/encode-box.go:158-184 | "No suitable encoder" happens exactly when there is no audio, or both a video and an image. Every other error is a wrapped recipe error. With audio and exactly one picture source, an encoder results exactly when the output path is set. |
| EncodeBox.AllPaths | pkg/encode-box/asset.go:77-85 | The paths of all assets, in order. |
| EncodeBox.PathsOfAppend | pkg/encode-box/asset.go:77-85 | Paths by role distribute over concatenation. |
| EncodeBox.PathsOfEach | pkg/encode-box/asset.go:77-85 | Every path of a role belongs to some asset. |
| EncodeBox.PlannedRoles | pkg/encode-box/asset.go:24-52 | A collection from a request holds up to one video first, then the audios, then up to one image. |
| EncodeBox.AudioPathsOf | pkg/encode-box/asset.go:35-42 | The audio paths are the paths of the assets that follow the video, one per audio key. |
| EncodeBox.AudioRun | pkg/encode-box/asset.go:27-50 | In a collection made from a request, the audios are exactly the assets after the video and before the image. |
| EncodeBox.RunPaths | pkg/encode-box/asset.go:77-85 | When exactly the assets lo..hi-1 have the role, the role's paths are theirs. |
| EncodeBox.PathsOfPlanned | pkg/encode-box/encode-box.go:169-174 | `VideosPaths()[0]` is the first asset's path and `ImagesPaths()[0]` the last one's. The audio paths follow the request order. |
| EncodeBox.SetupEncVideoCommand | pkg/encode-box/encode-box.go:168-169 | With a video and no image, the command reads the video first, then each audio in request order, then the graph, the maps and the output. |
| EncodeBox.SetupEncImageCommand | pkg/encode-box/encode-box.go:170-172 | With an image and no video, the command loops the picture under the audios, with the still-image options. |
| EncodeBox.SetupEncAudiosOnly | pkg/encode-box/encode-box.go:173-174 | With neither a video nor an image, the audio-only recipe gets every audio path, in order. |
| EncodeBox.DownloadedPathsReachEncoder | pkg/encode-box/encode-box.go:52-87 | After a successful download, the audio paths given to the recipe are exactly the downloaded files, in request order. |
| Server.MakeEncodingRequest | cmd/server.go:207-223 | A missing body, then a parse error, then an empty job id, then an empty audio list is rejected, in that order. Anything else is the parsed request, unchanged. The result is valid exactly when none of these applies. |
| Server.VideoAndImagePassValidation | cmd/server.go:216-221 | A request with both a video and an image passes the checks and is refused only when the encoder is chosen. |
| Server.AcceptedRequestDownloadReturns | cmd/server.go:219-221 | The collection of an accepted request holds at least one asset, so its download wait is never the blocked one. |
| Server.AcceptedRequestHasAudio | cmd/server.go:219-221 | For an accepted request, "no suitable encoder" means exactly that both a video and an image are set. |
| Server.Failing | cmd/server.go:177-198 | The keys whose deletion failed, at most one per key tried. |
| Server.FailingMembers | cmd/server.go:179-198 | A key is listed exactly when it was tried and its deletion failed. |
| Server.FailingAppend | cmd/server.go:179-198 | The failures of two runs of keys add up in order. |
| Server.NoFailures | cmd/server.go:200-203 | Nothing is listed exactly when every deletion succeeds. |
| Server.TryDelete | cmd/server.go:180-183 | Adds the key exactly when its deletion fails. |
| Server.CleanUpFromObjectStore | cmd/server.go:176-204 | Every stored key is tried. The call returns no error exactly when every deletion succeeds. Otherwise the message lists every failed key, in order, joined by ", ". |
| Server.StoredKeysArePlanned | cmd/server.go:178-198 | The keys removed are the keys of the downloaded collection, in the same order. |
| FilterGraph.SampleRate | pkg/encoder/filtergraph/audio-resample.go:41-47 | Each sampling constant prints as five digits, and K44 is exactly "44100". |
| FilterGraph.Children | pkg/encoder/filtergraph/filtergraph.go:10-15 | The children of each kind, in order, each smaller than its parent. |
| FilterGraph.NewInput | pkg/encoder/filtergraph/input.go:17-24 | The id is the stream index given, and there are no children. |
| FilterGraph.NewAudioConcatFilter | pkg/encoder/filtergraph/audio-concat.go:15-20 | The id is `concat_<suffix>` and the children are the inputs, in order. |
| FilterGraph.NewAudioNormalizationFilter | pkg/encoder/filtergraph/audio-normalization.go:14-19 | The id is `norm_<suffix>` and the one child is the target. |
| FilterGraph.NewAudioResampleFilter | pkg/encoder/filtergraph/audio-resample.go:14-19 | The id is `norm_<suffix>` (the same prefix as normalization), the one child is the target, and the format is kept. |
| FilterGraph.NewAudioVolumeFilter | pkg/encoder/filtergraph/audio-volume.go:11-18 | The id is `vol_<suffix>`, the one child is the target, and the gain is kept. |
| FilterGraph.NewAudioMixFilter | pkg/encoder/filtergraph/audio-mix.go:28-39 | The id is `mixed_<suffix>`. The children are main then side. The mode and weights are kept. |
| FilterGraph.KeptLetters | pkg/encoder/filtergraph/filtergraph.go:24-36 | Only draws whose low six bits index the alphabet give a letter, so every letter is in the alphabet. |
| FilterGraph.KeptLettersPrefix | pkg/encoder/filtergraph/filtergraph.go:33-38 | More draws only extend the kept letters. |
| FilterGraph.RandString | pkg/encoder/filtergraph/filtergraph.go:31-40 | Returns exactly n letters, the first n kept from the draws. Fails exactly when fewer than n are kept. |
| FilterGraphStages.Ids | pkg/encoder/filtergraph/audio-concat.go:29-31 | The ids of the children, in order. |
| FilterGraphStages.OwnStages | pkg/encoder/filtergraph/audio-mix.go:41-114 | Each node adds no stage (input), three stages (modulated mix) or one stage (every other kind). Its last stage writes its own id. |
| FilterGraphStages.RenderAppend | pkg/encoder/filtergraph/audio-concat.go:22-34 | Writing stages distributes over concatenation. |
| FilterGraphStages.OwnStagesRender | pkg/encoder/filtergraph/audio-mix.go:53-114 | The text each kind writes after its children matches the Go format strings: the concat, loudnorm, aformat, volume and amix stages, and the asplit/sidechaincompress/amix triple. |
| FilterGraphStages.BuildRendersStages | pkg/encoder/filtergraph/audio-concat.go:22-34 | `Build` writes exactly the stages: the children's first, then the node's own. |
| FilterGraphStages.BuildEachRendersStages | pkg/encoder/filtergraph/audio-concat.go:25-28 | The same for a list of children, in order. |
| FilterGraphProperties.ConcatParamsClean | pkg/encoder/filtergraph/audio-concat.go:32 | The concat parameters hold no bracket or semicolon. |
| FilterGraphProperties.ResampleParamsClean | pkg/encoder/filtergraph/audio-resample.go:29-30 | The resample parameters hold no bracket or semicolon. |
| FilterGraphProperties.VolumeParamsClean | pkg/encoder/filtergraph/audio-volume.go:22 | The volume parameter holds no bracket or semicolon. |
| FilterGraphProperties.AmixParamsClean | pkg/encoder/filtergraph/audio-mix.go:61-66 | The amix weights hold no bracket or semicolon. |
| FilterGraphProperties.StagesClean | pkg/encoder/filtergraph/audio-mix.go:41-114 | With bracket-free ids, no stage holds a stray bracket or semicolon. |
| FilterGraphProperties.RenderSemicolons | pkg/encoder/filtergraph/audio-concat.go:32 | Clean stages hold one `;` each. |
| FilterGraphProperties.SemicolonPerStage | pkg/encoder/filtergraph/filtergraph_test.go:67-85 | A built graph holds one `;` per stage, so splitting at `;` gives one part per stage plus one. |
| FilterGraphProperties.AllLabels | pkg/encoder/filtergraph/audio-concat.go:29-32 | Every label a stage names is among the graph's labels. |
| FilterGraphProperties.RenderLabelCount | pkg/encoder/filtergraph/filtergraph_test.go:20-32 | The bracketed label `[x]` occurs in the text once for each time a stage names x. |
| FilterGraphProperties.LabelOccurrences | pkg/encoder/filtergraph/filtergraph_test.go:67-85 | The same count for a built graph. |
| FilterGraphProperties.OutputsOf | pkg/encoder/filtergraph/audio-mix.go:72-114 | Every label a stage writes is among the outputs. |
| FilterGraphProperties.IdAvailable | pkg/encoder/filtergraph/filtergraph.go:10-21 | A node's id is either an input stream or written by its own stages. |
| FilterGraphProperties.ScopedAppend | pkg/encoder/filtergraph/audio-concat.go:25-32 | Scoped stage lists compose when the second reads only what the first made available. |
| FilterGraphProperties.StagesScoped | pkg/encoder/filtergraph/audio-mix.go:41-51 | Children come before parents: every label a stage reads is an input stream or the output of an earlier stage, provided volume nodes read input streams. |
| FilterGraphProperties.StagesEachScoped | pkg/encoder/filtergraph/audio-concat.go:25-28 | The same for a list of children. |
| FilterGraphExamples.StageCountsByKind | pkg/encoder/filtergraph/audio-mix.go:41-114 | The stages each kind adds: one for concat, normalization, resample and plain mix, and three for a modulated mix. A volume node writes one stage and nothing of its child's. |
| FilterGraphExamples.ConcatCountsChildren | pkg/encoder/filtergraph/audio-concat.go:32 | The concat stage's `n` is the number of children. |
| FilterGraphExamples.UnknownModeIsNoGraph | pkg/encoder/filtergraph/audio-mix.go:41-51 | A mix with an unknown mode writes "invalid mix filter", which holds no stage. |
| FilterGraphExamples.VolumeOverFilterIsUnscoped | pkg/encoder/filtergraph/audio-volume.go:20-23 | A volume node over a compiled filter reads a label nothing defines. |
| FilterGraphExamples.ConcatOfTwoInputs | pkg/encoder/filtergraph/filtergraph_test.go:11-17 | Concatenating inputs 0 and 1 is the single stage `[0][1]concat=n=2:v=0:a=1[<id>];`. |
| FilterGraphExamples.ModulatedMixCounts | pkg/encoder/filtergraph/audio-mix.go:72-114 | A clean modulated mix whose two children have distinct ids, each shorter than its own, is three stages. Its own label and each child's label occur once in it. |
| FilterGraphExamples.ModulatedMixOfTwoInputs | pkg/encoder/filtergraph/filtergraph_test.go:20-32 | The modulated mix of inputs 0 and 1 is three stages, four parts once split at `;`. Its own label occurs once, and `[0]` and `[1]` once each. |
| FilterGraphExamples.ConcatThenMix | pkg/encoder/filtergraph/filtergraph_test.go:67-85 | A concat as the main channel of a modulated mix is written first, the three mix stages follow, and its label occurs twice. |
| FluentBuilder.InputPieces | pkg/encoder/encode-fluent-interface.go:98-111 | An input's words end in `-i <path>`. |
| FluentBuilder.InputTextPieces | pkg/encoder/encode-fluent-interface.go:98-111 | `FileInput.String` is its words joined by single spaces: the options, `-f <format>` when set, then `-i <path>`. |
| FluentBuilder.BuildEncoder | pkg/encoder/encode-fluent-interface.go:77-85 | Fails exactly when there are no inputs or no output path, with the inputs checked first. Otherwise the encoder's command is the collapsed command line. |
| FluentBuilder.Builder.constructor | pkg/encoder/encode-fluent-interface.go:10-21 | The zero builder: no inputs, no options, no output, no graph. |
| FluentBuilder.Builder.AddInput | pkg/encoder/encode-fluent-interface.go:24-27 | Appends the input, changes nothing else, and returns the builder itself. |
| FluentBuilder.Builder.AddOutputOption | pkg/encoder/encode-fluent-interface.go:30-33 | Appends the option, changes nothing else, and returns the builder itself. |
| FluentBuilder.Builder.SetOutput | pkg/encoder/encode-fluent-interface.go:36-39 | Sets the output path, changes nothing else, and returns the builder itself. |
| FluentBuilder.Builder.SetFilterGraph | pkg/encoder/encode-fluent-interface.go:42-45 | Sets the graph, changes nothing else, and returns the builder itself. |
| FluentBuilder.CommandPieces | pkg/encoder/encode-fluent-interface.go:48-74 | The command is its words joined by single spaces, in this order: `ffmpeg`, each input's words, the flag and the quoted graph (when set), the output options, then the output path. |
| FluentBuilder.NoGraphNoFlag | pkg/encoder/encode-fluent-interface.go:58-63 | With no graph set, `-filter_complex` does not appear, unless an argument holds it. |
| FluentBuilder.GraphArgumentTrim | pkg/encoder/encode-fluent-interface.go:62 | Exactly one trailing `;` is stripped, so the quoted graph holds one `;` fewer than it has stages. |
| Encoders.NewEncoder | pkg/encoder/encoder.go:26-35 | The encoder runs exactly the command it is given. |
| Encoders.MatchFrom | pkg/encoder/encoder.go:45 | A match of `-filter_complex "(.+?)"` found from position `i` on starts its group after `i` plus the quoted flag, and the group ends before the end of the command. |
| Encoders.GroupAt | pkg/encoder/encoder.go:45 | The lazy group `(.+?)` is non-empty. It holds no newline and ends at the first quote after its first character. |
| Encoders.MatchFromFlag | pkg/encoder/encoder.go:45 | A match is preceded by the flag `-filter_complex` and its opening quote. |
| Encoders.MatchFromGroup | pkg/encoder/encoder.go:45 | The bounds a match reports are the group `GroupAt` finds right after the flag. |
| Encoders.FindFilterGraph | pkg/encoder/encoder.go:45-49 | The graph found is non-empty and holds no newline, and no quote after its first character. |
| Encoders.OverwriteFrom | pkg/encoder/encoder.go:53-59 | The overwrite keeps the length and the arguments already passed. Indexing past the end is the one error. |
| Encoders.SplitArguments | pkg/encoder/encoder.go:39-59 | The in-place loop computes exactly the argument list `Arguments` states. |
| Encoders.OverwriteSkip | pkg/encoder/encoder.go:54-57 | Arguments that are not flags are passed over. |
| Encoders.TrailingFlagFails | pkg/encoder/encoder.go:55-56 | A `-filter_complex` in the last position indexes past the end. |
| Encoders.NoQuoteNoMatch | pkg/encoder/encoder.go:45-46 | A command with no quote has no graph. |
| Encoders.ArgumentsWithoutGraph | pkg/encoder/encoder.go:52 | Without a graph, the arguments are the words after the program name, and joining them back gives the command. |
| Encoders.FindsGraph | pkg/encoder/encoder.go:45-49 | In a command with a quoted graph after the flag, the graph found is that graph. |
| Encoders.OverwriteOneFlag | pkg/encoder/encoder.go:53-59 | One flag among plain words: its successor becomes the graph, and nothing else changes. |
| Encoders.ReplaceGraph | pkg/encoder/encoder.go:50 | Replacing the first occurrence of the graph with `fg` splices it out at the flag. |
| Encoders.ArgumentsRoundTrip | pkg/encoder/encoder.go:37-59 | A graph with spaces reaches ffmpeg as the one argument after `-filter_complex`. Every other word becomes one argument, in order. |
| Presets.AudioInputs | pkg/encoder/presets.go:21-33 | One plain input per audio file. |
| Presets.AudioTracks | pkg/encoder/presets.go:28-33 | Audio k is graph input k + 1, since stream 0 is the picture. |
| Presets.AddAudioInputs | pkg/encoder/presets.go:27-33 | Adds one input per audio file, in order, and returns their graph inputs. Nothing else changes. |
| Presets.AddAudioTrack | pkg/encoder/presets.go:20-36 | Adds the audio inputs and returns the root of the audio graph. |
| Presets.VideoRecipe | pkg/encoder/presets.go:12-56 | The recipe fails exactly when the output path is empty. |
| Presets.GetAudiosVideoEnc | pkg/encoder/presets.go:12-56 | Driving the builder yields exactly the video recipe. |
| Presets.AddStillImageOptions | pkg/encoder/presets.go:94-102 | Appends the still-image output options, in order. |
| Presets.ImageRecipe | pkg/encoder/presets.go:61-110 | The recipe fails exactly when the output path is empty. |
| Presets.GetAudiosImageEnc | pkg/encoder/presets.go:61-110 | Driving the builder yields exactly the still-image recipe. |
| PresetProperties.RootName | pkg/encoder/presets.go:21-36 | The label of the audio root: input 1 itself, or the concat. |
| PresetProperties.RootStages | pkg/encoder/presets.go:21-36 | One audio adds no stage. Several audios add one concat stage reading streams 1..n in order. |
| PresetProperties.ChainStages | pkg/encoder/presets.go:37-41 | The audio chain is the root's stages, then loudnorm, then the 44.1 kHz aformat. |
| PresetProperties.VideoStages | pkg/encoder/presets.go:44-47 | The video graph is the chain's stages, then the split, the sidechain compression of stream 0, and the mix weighted 0.2 and 1.0. |
| PresetProperties.PresetWeights | pkg/encoder/filtergraph/audio-mix.go:106-108 | The weights print as `0.2 1.0`. |
| PresetProperties.VideoGraphScoped | pkg/encoder/presets.go:12-56 | Every label the video graph reads is a stream or an earlier output. |
| PresetProperties.ImageGraphScoped | pkg/encoder/presets.go:67-91 | Every label the still-image graph reads is a stream or an earlier output. |
| PresetProperties.AudioInputsPieces | pkg/encoder/presets.go:28-29 | The audio inputs write `-i <path>` per file, in order. |
| PresetProperties.VideoCommand | pkg/encoder/presets.go:12-56 | The video command, word by word: `ffmpeg -i <video>`, the audios, the quoted graph, `-map 0:v`, the audio map, then the output. |
| PresetProperties.ImageCommand | pkg/encoder/presets.go:61-110 | The still-image command, word by word: the looped image, the audios, the quoted graph, the still-image options, the two maps, then the output. |
| PresetProperties.VideoGraphArgument | pkg/encoder/presets.go:44-47 | The quoted video graph is the built graph without its last `;`, holding 4 or 5 `;`. |
| PresetProperties.ImageGraphArgument | pkg/encoder/presets.go:84-91 | The quoted still-image graph holds 1 or 2 `;`. |
| RingLog.SlotAfter | pkg/encoder/console-parser/ring-log-buffer.go:19-22 | A slot holds "" or a line that was pushed. |
| RingLog.Window | pkg/encoder/console-parser/ring-log-buffer.go:15-17 | The ring has `size` slots. |
| RingLog.WindowHoldsRecent | pkg/encoder/console-parser/ring-log-buffer.go:19-22 | After k pushes the ring holds exactly the last min(k, size) lines, push t in slot t mod size. Unreached slots are empty. |
| RingLog.WindowPush | pkg/encoder/console-parser/ring-log-buffer.go:19-22 | One push overwrites exactly the slot of its push number. |
| RingLog.RingLogBuffer.constructor | pkg/encoder/console-parser/ring-log-buffer.go:15-17 | `size` empty slots and index 0. |
| RingLog.RingLogBuffer.Push | pkg/encoder/console-parser/ring-log-buffer.go:19-22 | Writes the line at the current index and advances the index modulo the size. |
| RingLog.RingLogBuffer.String | pkg/encoder/console-parser/ring-log-buffer.go:24-26 | All slots joined with newlines, in storage order. |
| RingLog.StringSplitsIntoSlots | pkg/encoder/console-parser/ring-log-buffer.go:24-26 | When no line holds a newline, the text reads back as the slots. |
| ConsoleParser.DropCR | pkg/encoder/console-parser/console-parser.go:103-108 | Removes exactly one trailing `\r`, if present. |
| ConsoleParser.ScanFfmpegOutput | pkg/encoder/console-parser/console-parser.go:82-100 | A `\n` ends a line, then end of stream, then a `\r` (the progress line). Otherwise more data is needed. The consumed bytes are the token plus its terminator. |
| ConsoleParserProperties.DropCRDropsOne | pkg/encoder/console-parser/console-parser.go:103-108 | Exactly one `\r` is dropped. |
| ConsoleParserProperties.NewlineFirst | pkg/encoder/console-parser/console-parser.go:86-89 | A buffered `\n` wins over any earlier `\r`. |
| ConsoleParserProperties.ProgressLineSplit | pkg/encoder/console-parser/console-parser.go:94-97 | Mid-stream, a line ended by `\r` is a token of its own. |
| ConsoleParserProperties.NeedsMoreData | pkg/encoder/console-parser/console-parser.go:99 | With no line end buffered, the scanner asks for more. |
| ConsoleParserProperties.ScanAllLines | pkg/encoder/console-parser/console-parser.go:82-100 | Once the end of the stream is reported, a stream without `\r` yields exactly its newline-separated lines. |
| ConsoleParserProperties.SingleLineStream | pkg/encoder/console-parser/console-parser.go:91-93 | A stream of one line and no line break yields that line, mid-stream or at its end. |
| ConsoleParserProperties.ScanStreamProgress | pkg/encoder/console-parser/console-parser.go:94-97 | Mid-stream, a progress line ended by `\r`, with no `\n` buffered, comes out alone and without the `\r`. |
| ConsoleParserProperties.ScanStreamNewline | pkg/encoder/console-parser/console-parser.go:86-89 | Mid-stream, a line ended by `\n` comes out with one `\r` before the `\n` dropped. |
| ConsoleParserProperties.ScanStreamLines | pkg/encoder/console-parser/console-parser.go:40-100 | Mid-stream too, a stream without `\r` yields exactly its newline-separated lines. |
| ConsoleParserProperties.ScanStreamProgressLines | pkg/encoder/console-parser/console-parser.go:40-100 | A run of progress lines, each ended by `\r`, yields every one of them, in order and without the `\r`. |
| ConsoleParserProperties.ScanStreamNewlineThenProgress | pkg/encoder/console-parser/console-parser.go:82-100 | A `\n`-terminated line followed by a `\r`-terminated one yields two lines, the second without its `\r`. |
| ConsoleParserProperties.ScanStreamNewlineOutranks | pkg/encoder/console-parser/console-parser.go:86-89 | When a `\n` is buffered behind a `\r`, both lines come out as one, and the `\r` is kept. |
| ConsoleParserProperties.TwoProgressLinesStream | pkg/encoder/console-parser/console-parser.go:94-97 | `frame=1\rframe=2\r` yields `frame=1` and `frame=2`. |
| ConsoleParser.ParseComponentString | pkg/encoder/console-parser/console-parser.go:161-167 | A token is a pair exactly when it holds one `=`. The pair then reads back as the token. |
| ConsoleParserProperties.PairRoundTrip | pkg/encoder/console-parser/console-parser.go:161-167 | `key=value` reads back as (key, value). |
| ConsoleParserProperties.TwoEqualsIsNoPair | pkg/encoder/console-parser/console-parser.go:163-164 | Two `=` make a token invalid. |
| ConsoleParser.WrapInt64 | pkg/encoder/console-parser/console-parser.go:186 | int64 arithmetic wraps modulo 2^64 and leaves in-range values alone. |
| ConsoleParser.ParseInt | pkg/encoder/console-parser/console-parser.go:123-128 | `strconv.ParseInt` accepts an optional sign and decimal digits, for values the width holds. |
| ConsoleParserProperties.ParseIntRoundTrip | pkg/encoder/console-parser/console-parser.go:123-128 | Any value in range reads back from its decimal text. |
| ConsoleParserProperties.ParseIntOutOfRange | pkg/encoder/console-parser/console-parser.go:178-181 | Too many digits for the width is an error, not a truncation. |
| ConsoleParser.MultiplierFrom | pkg/encoder/console-parser/console-parser.go:191-198 | 1024^j for the first j matching the element, or -1 exactly when none does. |
| ConsoleParser.GetSizeMultiplier | pkg/encoder/console-parser/console-parser.go:191-198 | -1 exactly when the unit is not in the table. Otherwise 1024 to the power of its index. |
| ConsoleParser.FindSizeMatch | pkg/encoder/console-parser/console-parser.go:171-173 | The leftmost position where `(\d+)([a-zA-Z]+)` matches. No earlier position matches. |
| ConsoleParser.ParseSize | pkg/encoder/console-parser/console-parser.go:170-188 | The result is an int64 value. It is "invalid format" exactly when no digits-then-letters run exists. |
| ConsoleParserProperties.SizeProduct | pkg/encoder/console-parser/console-parser.go:170-198 | A number and a unit, in any case, give number x 1024^k kilobytes, wrapped to int64. |
| ConsoleParserProperties.SizeRoundTrip | pkg/encoder/console-parser/console-parser.go:170-198 | When the product fits, the size reads back exactly. |
| ConsoleParserProperties.UnknownUnitIsZero | pkg/encoder/console-parser/console-parser.go:182-185 | A unit outside the table gives 0 and no error. |
| ConsoleParserProperties.NoDigitNoSize | pkg/encoder/console-parser/console-parser.go:173-176 | Text without a digit is an error. |
| ConsoleParserProperties.SizeWrapsAround | pkg/encoder/console-parser/console-parser.go:186 | 2^43 gigabytes wraps to the most negative int64. |
| ConsoleParserProperties.SizeExampleKilo | pkg/encoder/console-parser/console-parser_test.go:30-33 | `10kb` is 10. |
| ConsoleParserProperties.SizeExampleMega | pkg/encoder/console-parser/console-parser_test.go:34-39 | `10Mb` and `10mb` are 10240. |
| ConsoleParserProperties.SizeExampleGiga | pkg/encoder/console-parser/console-parser_test.go:40-45 | `10Gb` and `10GB` are 10485760. |
| ConsoleParserProperties.SizeExampleLetters | pkg/encoder/console-parser/console-parser_test.go:46-48 | Letters alone are an error. |
| ConsoleParser.ParseProgress | pkg/encoder/console-parser/console-parser.go:112-158 | The loop fills the zero record field by field. It fails exactly when some token is not a single `=` pair. |
| ConsoleParser.FailsIffBadToken | pkg/encoder/console-parser/console-parser.go:116-120 | Whether the fold fails depends only on the tokens. |
| ConsoleParserProperties.FieldsComponents | pkg/encoder/console-parser/console-parser.go:113-114 | A line of fields, with blanks after `=` and at the end, splits into exactly its `key=value` pairs. |
| ConsoleParserProperties.WellFormedLineParses | pkg/encoder/console-parser/console-parser.go:112-158 | A line of well-formed fields never fails. Its record is the fields applied in order. |
| ConsoleParserProperties.SampleLineProgress | pkg/encoder/console-parser/console-parser_test.go:12-22 | The sample line gives 2349 frames, 335 fps and 10 kB. |
| ConsoleParserProperties.TwoEqualsComponents | pkg/encoder/console-parser/console-parser.go:113-114 | Three plain words around two `=` make a line with one component. |
| ConsoleParserProperties.TwoEqualsLine | pkg/encoder/console-parser/console-parser.go:116-120 | Three plain words around two `=` fail to parse. |
| ConsoleParserProperties.TwoEqualsLineFails | pkg/encoder/console-parser/console-parser_test.go:24-28 | `sdjsdjksjkd=sdjsdhdj=jjsj` fails. |
| ConsoleParser.ProgressLines | pkg/encoder/console-parser/console-parser.go:65-75 | At most one record per line. |
| ConsoleParser.ParseOutput | pkg/encoder/console-parser/console-parser.go:39-79 | Emits exactly the records of the `f` lines that parse, in order. Returns the ring buffer of the last five lines. |
| ConsoleParserProperties.OnlyFrameLines | pkg/encoder/console-parser/console-parser.go:65-67 | Lines not starting with `f` never give a record. |
| ConsoleParserProperties.ProgressLinesAppend | pkg/encoder/console-parser/console-parser.go:47-76 | The records of a split stream concatenate in order. |
| ConsoleParserProperties.OutputTailHoldsRecent | pkg/encoder/console-parser/console-parser.go:47-61 | The returned text holds the last five lines, each in its slot. |
| ConsoleParserProperties.OutputTestEmitsOne | pkg/encoder/console-parser/console-parser_test.go:67-80 | The one unterminated progress line emits exactly one record. |
| ConsoleParserProperties.GibberishEmitsNothing | pkg/encoder/console-parser/console-parser_test.go:51-64 | `shiny!` emits no record. |
| Text.TrimSuffix | pkg/encoder/encode-fluent-interface.go:62 | Removes one copy of the suffix when present, and leaves the text alone otherwise. |
| Text.SplitLength | pkg/encoder/console-parser/console-parser.go:162-163 | A split has one more part than there are separators. |
| Text.JoinSplit | cmd/server.go:201 | Joining the parts of a split gives back the text. |
| Text.SplitJoin | pkg/encoder/console-parser/ring-log-buffer.go:24-26 | Splitting joined parts gives back the parts, when no part holds the separator. |
| Text.NatToStringRoundTrip | pkg/encoder/filtergraph/audio-concat.go:32 | `%d` output reads back as the number. |
| Text.FormatUnsignedReadBack | pkg/encoder/filtergraph/audio-mix.go:61-63 | `%.1f` and `%.2f` output reads back as the value. |

## Left out

- EncodeBox.DownloadAsset: it requires `0 <= maxRetry < 127`.
  - With 127 the int8 counter wraps from 127 to -128, so a key that never downloads keeps the loop
    running forever; `CounterCycles` states this.
  - A negative bound makes no attempt and then dereferences a nil path.
- EncodeBox.DownloadAssets: the download tasks are modelled one after the other, not concurrently.
  - The error reported is the first failing asset's in collection order. The program reports
    whichever task fails first in time.
  - The goroutines still running after the early return are not modelled.
- EncodeBox.DownloadAsset: the sleeps are returned as the list of `time.Duration` values, in
  nanoseconds. No clock is modelled.
- EncodeBox.DelaySecs: from attempt 63 on, converting 2^attempt to int64 is out of range. Go leaves
  the result to the implementation. The model takes the smallest int64, as amd64 gives, and the
  sleep is then 0.
- EncodeBox.DownloadAssets: with an empty collection no task starts and the wait never returns.
  The model gives this as the outcome `Blocked`. A request that `MakeEncodingRequest` accepts has
  at least one audio key, so its collection never blocks (`AcceptedRequestDownloadReturns`).
- `Encode` is left out: the goroutine, the select over progress, error and cancellation channels,
  and the state changes it reports. What it calls is modelled.
- `GetAudiosOnlyEnc` is not part of this model. `SetupEnc` takes it as a function parameter.
- `parseBody` (JSON decoding of the request or of a Dapr event) is not part of this model.
  `MakeEncodingRequest` takes it as a function parameter.
- The object store's `Download` and `Delete`, and `os.Remove` are function parameters. An error
  from `os.Remove` is only logged, and `CleanUpAssets` ignores it the same way.
- EncodeBox.CleanUpAssets and EncodeBox.DownloadAssets require the collection's assets to be
  distinct objects. This always holds for a collection built by `NewAssetCollectionFrom`.
- The rest of `cmd/server.go` is left out: HTTP and Dapr handlers, environment variables, ports.
- Encoders.NewEncoder: the context, its cancel function and the progress and error channels are
  left out. The subprocess launched by `Start`, its stderr pipe and `cmd.Wait` are left out too.
  Only the argument splitting is modelled.
- ConsoleParser.ParseOutput: it takes the lines the scanner yields. `ScanStream` states how
  `bufio.Scanner` turns a stream into lines through `ScanFfmpegOutput`, for a stream whose bytes
  arrive in one read, with the end of the stream reported by the next read. How ffmpeg's writes
  are cut into reads is not modelled. For example, a `\r\n` split across two reads gives an extra
  empty line. Cancellation via the context and scanner errors are left out.
- ConsoleParser.ParseProgress: the floating-point fields `q` and `speed` are not part of the record,
  nor is the clock field `time`.
- ConsoleParser.ParseInt: only the decimal base used here is modelled.
- Filter weights are modelled as tenths and the gain as hundredths, because floating point is left
  out. `%.1f` and `%.2f` print them.
- FilterGraph.NewAudioNormalizationFilter: only loudnorm. `audio-normalization.go` takes no
  algorithm parameter, so the Dynaudnorm and Speechnorm cases of the filter graph tests are not
  part of this model.
- Presets.GetAudiosVideoEnc: `presets.go:44` calls `NewAudioMixFilter` with three arguments, but
  the constructor at `audio-mix.go:28` takes four. The model uses the modulated mode with weights
  0.2 and 1.0, which is the graph the encoder test expects.
- FilterGraph.RandString: the random source is a finite sequence of draws. When the draws run out
  the model returns `None`; the program would keep drawing.
- FilterGraphExamples.ConcatThenMix: weaker than the composite test. It states the stage order and
  how often the bracketed concatenation id occurs. It does not state the string positions of
  "concat" and "mix", or the count of the bare id.
- Strings are sequences of characters. The line scanner treats each byte as one character, and
  `ToLower` covers ASCII letters only, the only letters the size pattern admits.
- Logging is left out.
