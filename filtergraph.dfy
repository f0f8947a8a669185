/**
 * The audio filter graph of `-filter_complex`: a closed set of node kinds, each of which
 * compiles to `[in]...filter=params[out];` stages after its children have compiled.
 *
 * In the program every node draws its id from `randString(5)` when it is constructed; here
 * the constructors take that suffix as a parameter, and `RandString` models the drawing.
 */
module FilterGraph {
  import opened Text
  import opened Wrappers

  // ---------------------------------------------------------------- node kinds

  /** Go's `uint8`, the representation of `AudioMixMode`. */
  newtype uint8 = x: int | 0 <= x < 256

  const WithoutModulation: uint8 := 0
  const WithModulation: uint8 := 1

  /** The two `Sampling` constants; the Go type is a string, only these values are used. */
  datatype Sampling = K44 | K48

  function SampleRate(s: Sampling): (r: string)
    ensures |r| == 5 && AllDigits(r)
    ensures s == K44 <==> r == "44100"
  {
    match s
    case K44 => "44100"
    case K48 => "48000"
  }

  /**
   * A node of the filter tree. `name` is the node's id. Weights are tenths and the volume
   * gain hundredths: the program holds them as float32 and prints them with `%.1f` and
   * `%.2f`.
   */
  datatype Filter =
    | Input(name: string)
    | Concat(name: string, inputs: seq<Filter>)
    | Normalization(name: string, target: Filter)
    | Resample(name: string, target: Filter, targetFormat: Sampling)
    | Volume(name: string, target: Filter, targetVolume: int)
    | Mix(name: string, main: Filter, side: Filter, mode: uint8, mainWeight: int, sideWeight: int)

  /** `Filter.Id`: every kind returns the name its constructor gave it. */
  function Id(f: Filter): string {
    f.name
  }

  /** `Node.children`: the filters that have to be compiled before this one, in order. */
  function Children(f: Filter): (r: seq<Filter>)
    ensures forall c :: c in r ==> c < f
    ensures f.Input? ==> r == []
    ensures f.Concat? ==> r == f.inputs
    ensures (f.Normalization? || f.Resample? || f.Volume?) ==> r == [f.target]
    ensures f.Mix? ==> r == [f.main, f.side]
  {
    match f
    case Input(_) => []
    case Concat(_, cs) => cs
    case Normalization(_, t) => [t]
    case Resample(_, t, _) => [t]
    case Volume(_, t, _) => [t]
    case Mix(_, m, s, _, _, _) => [m, s]
  }

  // ---------------------------------------------------------------- constructors

  /** `NewInput`: the id is the stream index given, unchanged, and there are no children. */
  function NewInput(name: string): (r: Filter)
    ensures Id(r) == name && Children(r) == []
  {
    Input(name)
  }

  function NewAudioConcatFilter(suffix: string, inputs: seq<Filter>): (r: Filter)
    ensures r.Concat? && Id(r) == "concat_" + suffix && Children(r) == inputs
  {
    Concat("concat_" + suffix, inputs)
  }

  function NewAudioNormalizationFilter(suffix: string, target: Filter): (r: Filter)
    ensures r.Normalization? && Id(r) == "norm_" + suffix && Children(r) == [target]
  {
    Normalization("norm_" + suffix, target)
  }

  /** The resample node shares the `norm_` prefix with the normalization node. */
  function NewAudioResampleFilter(suffix: string, target: Filter, targetFormat: Sampling): (r: Filter)
    ensures r.Resample? && Id(r) == "norm_" + suffix && Children(r) == [target]
    ensures r.targetFormat == targetFormat
  {
    Resample("norm_" + suffix, target, targetFormat)
  }

  /** The gain is meant to lie in 0..1; the constructor does not check it. */
  function NewAudioVolumeFilter(suffix: string, target: Filter, targetVolume: int): (r: Filter)
    ensures r.Volume? && Id(r) == "vol_" + suffix && Children(r) == [target]
    ensures r.targetVolume == targetVolume
  {
    Volume("vol_" + suffix, target, targetVolume)
  }

  /** Children are [main, side]: main is index 0 and side index 1, in children and weights alike. */
  function NewAudioMixFilter(suffix: string, main: Filter, side: Filter, mode: uint8,
                             mainWeight: int, sideWeight: int): (r: Filter)
    ensures r.Mix? && Id(r) == "mixed_" + suffix && Children(r) == [main, side]
    ensures r.mode == mode && r.mainWeight == mainWeight && r.sideWeight == sideWeight
  {
    Mix("mixed_" + suffix, main, side, mode, mainWeight, sideWeight)
  }

  // ---------------------------------------------------------------- compiling

  const Loudnorm := "loudnorm=I=-16:TP=-1.5:LRA=11"
  const SidechainCompress := "sidechaincompress=" + "threshold=0.05" + ":ratio=5" + ":level_sc=0.8"
  const InvalidMix := "invalid mix filter"

  function Ref(id: string): string {
    "[" + id + "]"
  }

  /** The bracketed ids of the given filters, in order. */
  function RefsOf(cs: seq<Filter>): string {
    if |cs| == 0 then "" else Ref(Id(cs[0])) + RefsOf(cs[1..])
  }

  function ConcatParams(n: nat): string {
    "concat=n=" + NatToString(n) + ":v=0:a=1"
  }

  function ResampleParams(s: Sampling): string {
    "aformat=sample_fmts=fltp:sample_rates=" + SampleRate(s) + ":channel_layouts=stereo"
  }

  function VolumeParams(gain: int): string {
    "volume=" + FormatFixed(gain, 2)
  }

  function AmixParams(mainWeight: int, sideWeight: int): string {
    "amix=weights=" + FormatFixed(mainWeight, 1) + " " + FormatFixed(sideWeight, 1)
  }

  /** The labels the modulated mix derives from its own id. */
  function SideModulate(id: string): string { "scm_" + id }
  function SideOriginal(id: string): string { "sco_" + id }
  function ModulatedMain(id: string): string { "mmc_" + id }

  /** A stage with one input: normalization, resample and volume. */
  function SimpleStage(inId: string, params: string, id: string): string {
    Ref(inId) + params + Ref(id) + ";"
  }

  /** A stage with two inputs: concatenation of two, amix and sidechaincompress. */
  function PairStage(first: string, second: string, params: string, id: string): string {
    Ref(first) + Ref(second) + params + Ref(id) + ";"
  }

  function ConcatStage(cs: seq<Filter>, id: string): string {
    RefsOf(cs) + ConcatParams(|cs|) + Ref(id) + ";"
  }

  /** The side channel duplicated into the modulating and the original copy. */
  function AsplitStage(sideId: string, id: string): string {
    Ref(sideId) + "asplit=2" + (Ref(SideModulate(id)) + Ref(SideOriginal(id))) + ";"
  }

  /** `withModulation`'s three stages after the children: asplit, sidechaincompress, amix. */
  function ModulatedStagesText(id: string, mainId: string, sideId: string,
                               mainWeight: int, sideWeight: int): string {
    AsplitStage(sideId, id)
    + PairStage(mainId, SideModulate(id), SidechainCompress, ModulatedMain(id))
    + PairStage(ModulatedMain(id), SideOriginal(id), AmixParams(mainWeight, sideWeight), id)
  }

  /** `Filter.Build`: the `-filter_complex` text of the subtree rooted at `f`. */
  function Build(f: Filter): string
    decreases f
  {
    match f
    case Input(_) => ""
    case Concat(n, cs) => BuildEach(cs) + ConcatStage(cs, n)
    case Normalization(n, t) => Build(t) + SimpleStage(Id(t), Loudnorm, n)
    case Resample(n, t, s) => Build(t) + SimpleStage(Id(t), ResampleParams(s), n)
    case Volume(n, t, g) => SimpleStage(Id(t), VolumeParams(g), n)
    case Mix(n, m, s, mode, wm, ws) =>
      if mode == WithModulation then Build(m) + Build(s) + ModulatedStagesText(n, Id(m), Id(s), wm, ws)
      else if mode == WithoutModulation then Build(m) + Build(s) + PairStage(Id(m), Id(s), AmixParams(wm, ws), n)
      else InvalidMix
  }

  /** The children's texts one after another, as the `range` loops over `children` write them. */
  function BuildEach(cs: seq<Filter>): string
    decreases cs
  {
    if |cs| == 0 then "" else Build(cs[0]) + BuildEach(cs[1..])
  }

  // ---------------------------------------------------------------- ids

  const LetterBytes := "abcdefghijklmnopqrstuvwxyzABCDEFGHIJKLMNOPQRSTUVWXYZ"
  const LetterIdxBits: nat := 6
  /** `1<<letterIdxBits - 1`. */
  const LetterIdxMask: nat := 63

  /**
   * The letters `randString` keeps from a sequence of `rand.Int63()` draws: `draw & 63` is the
   * draw's low six bits, and a draw is kept only when that index falls inside the alphabet.
   */
  function KeptLetters(draws: seq<nat>): (r: string)
    ensures |r| <= |draws|
  {
    if |draws| == 0 then ""
    else
      var rest := KeptLetters(draws[..|draws| - 1]);
      var idx := draws[|draws| - 1] % (LetterIdxMask + 1);
      if idx < |LetterBytes| then rest + [LetterBytes[idx]] else rest
  }

  /** Every kept letter is one of the alphabet's. */
  lemma {:induction false} KeptLettersAlphabet(draws: seq<nat>)
    ensures forall i :: 0 <= i < |KeptLetters(draws)| ==> KeptLetters(draws)[i] in LetterBytes
  {
    if |draws| > 0 {
      KeptLettersAlphabet(draws[..|draws| - 1]);
    }
  }

  lemma ExtendedPrefix(a: string, x: string, c: string)
    requires a + x <= c
    ensures a <= c
  {
    assert forall i :: 0 <= i < |a| ==> a[i] == (a + x)[i];
  }

  lemma PrefixTake(a: string, c: string)
    requires a <= c
    ensures c[..|a|] == a
  {
  }

  lemma {:induction false} KeptLettersPrefix(draws: seq<nat>, k: nat)
    requires k <= |draws|
    ensures KeptLetters(draws[..k]) <= KeptLetters(draws)
    decreases |draws| - k
  {
    if k < |draws| {
      KeptLettersPrefix(draws, k + 1);
      KeptLettersStep(draws, k);
      var idx := draws[k] % (LetterIdxMask + 1);
      ExtendedPrefix(KeptLetters(draws[..k]), if idx < |LetterBytes| then [LetterBytes[idx]] else [], KeptLetters(draws));
    } else {
      assert draws[..k] == draws;
    }
  }

  lemma KeptLettersStep(draws: seq<nat>, k: nat)
    requires k < |draws|
    ensures var idx := draws[k] % (LetterIdxMask + 1);
      KeptLetters(draws[..k + 1])
      == KeptLetters(draws[..k]) + (if idx < |LetterBytes| then [LetterBytes[idx]] else [])
  {
    assert draws[..k + 1][..k] == draws[..k];
  }

  /**
   * `randString(n)`, with the random source replaced by the finite sequence of draws it
   * would read. The result is the first `n` kept letters; `None` stands for the draws running
   * out before `n` letters were kept.
   */
  method RandString(n: nat, draws: seq<nat>) returns (r: Option<string>)
    ensures r.Some? <==> |KeptLetters(draws)| >= n
    ensures r.Some? ==> |r.value| == n && r.value == KeptLetters(draws)[..n]
    ensures r.Some? ==> forall i :: 0 <= i < n ==> r.value[i] in LetterBytes
  {
    var b := new char[n];
    var i, k := 0, 0;
    while i < n
      invariant 0 <= i <= n && 0 <= k <= |draws|
      invariant KeptLetters(draws[..k]) == b[..i]
      decreases |draws| - k
    {
      if k == |draws| {
        assert draws[..k] == draws;
        return None;
      }
      var idx := draws[k] % (LetterIdxMask + 1);
      KeptLettersStep(draws, k);
      if idx < |LetterBytes| {
        ghost var kept := b[..i];
        var c := LetterBytes[idx];
        b[i] := c;
        assert b[..i] == kept;
        assert b[..i + 1] == kept + [c];
        i := i + 1;
      }
      k := k + 1;
    }
    assert b[..] == b[..i];
    KeptLettersPrefix(draws, k);
    PrefixTake(b[..], KeptLetters(draws));
    KeptLettersAlphabet(draws);
    r := Some(b[..]);
  }
}
