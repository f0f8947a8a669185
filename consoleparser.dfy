/**
 * Reading ffmpeg's stderr: the split function that cuts the stream into lines at `\n`, or at
 * `\r` for the progress line ffmpeg rewrites in place; the `key=value` tokens of a progress
 * line; the integer fields and the size with its unit; and the loop that keeps the last five
 * lines while it emits every progress record it can parse.
 *
 * Bytes are read as characters one for one.
 */
module ConsoleParser {
  import opened Wrappers
  import opened Errors
  import opened Text
  import opened RingLog

  // ---------------------------------------------------------------- the line splitter

  /** What one call of the split function returns: how much to consume, and a token or none. */
  datatype ScanStep = ScanStep(advance: nat, token: Option<string>)

  /** `dropCR`: removes one trailing `\r`, if there is one. */
  function DropCR(data: string): (r: string)
    ensures |data| > 0 && data[|data| - 1] == '\r' ==> r + "\r" == data
    ensures !(|data| > 0 && data[|data| - 1] == '\r') ==> r == data
  {
    if |data| > 0 && data[|data| - 1] == '\r' then data[..|data| - 1] else data
  }

  /**
   * `scanFfmpegOutput`: a buffered `\n` ends a line (one `\r` before it dropped); at the end
   * of the stream the rest is the last line; otherwise a `\r` ends the progress line; and with
   * neither, more data is needed.
   */
  function ScanFfmpegOutput(data: string, atEOF: bool): (r: ScanStep)
    ensures r.advance <= |data|
    ensures r.token.None? <==> r.advance == 0
    ensures r.token.None? <==> (|data| == 0 || (!atEOF && '\n' !in data && '\r' !in data))
    ensures r.token.Some? ==>
      var t := r.token.value; var used := data[..r.advance];
      used == t + "\n" || used == t + "\r\n" || used == t + "\r" || used == t
    ensures r.token.Some? && '\n' in data ==> data[r.advance - 1] == '\n' && '\n' !in data[..r.advance - 1]
    ensures r.token.Some? && '\n' !in data && !atEOF ==> data[r.advance - 1] == '\r' && '\r' !in data[..r.advance - 1]
    ensures r.token.Some? && '\n' !in data && atEOF ==> r.advance == |data|
  {
    if atEOF && |data| == 0 then ScanStep(0, None)
    else match IndexOfChar(data, '\n', 0)
      case Some(i) =>
        assert data[..i + 1] == data[..i] + "\n";
        assert '\n' !in data[..i];
        ScanStep(i + 1, Some(DropCR(data[..i])))
      case None =>
        assert '\n' !in data;
        if atEOF then
          assert data[..|data|] == data;
          ScanStep(|data|, Some(DropCR(data)))
        else match IndexOfChar(data, '\r', 0)
          case Some(i) =>
            assert data[..i + 1] == data[..i] + "\r";
            assert '\r' !in data[..i];
            ScanStep(i + 1, Some(DropCR(data[..i])))
          case None =>
            assert '\r' !in data;
            ScanStep(0, None)
  }

  /**
   * The lines the scanner yields once the end of the stream has been reported: every call of
   * the split function has `atEOF` set.
   */
  function ScanAll(data: string): seq<string>
    decreases |data|
  {
    var step := ScanFfmpegOutput(data, true);
    match step.token
    case None => []
    case Some(t) => [t] + ScanAll(data[step.advance..])
  }

  /**
   * The lines `bufio.Scanner` yields for a stream whose bytes arrive in one read, the end of
   * the stream being reported by the read after it: the split function runs with `atEOF`
   * unset as long as it finds a token, and `ScanAll` takes what is left at the end.
   */
  function ScanStream(data: string): seq<string>
    decreases |data|
  {
    var step := ScanFfmpegOutput(data, false);
    match step.token
    case Some(t) => [t] + ScanStream(data[step.advance..])
    case None => ScanAll(data)
  }

  // ---------------------------------------------------------------- key=value tokens

  /** `parseComponentString`: a token is a pair exactly when it splits into two parts on `=`. */
  function ParseComponentString(str: string): (r: Result<(string, string), Failure>)
    ensures r.Ok? <==> CountChar(str, '=') == 1
    ensures r.Ok? ==> r.value.0 + "=" + r.value.1 == str && '=' !in r.value.0 && '=' !in r.value.1
    ensures r.Err? ==> r.error == InvalidPair(str)
  {
    var pair := Split(str, '=');
    SplitLength(str, '=');
    if |pair| != 2 then Err(InvalidPair(str))
    else
      JoinSplit(str, '=');
      SplitPartsHaveNoSeparator(str, '=');
      assert pair[0] in pair && pair[1] in pair;
      assert Join(pair, "=") == pair[0] + "=" + pair[1] by {
        assert pair[1..] == [pair[1]];
      }
      Ok((pair[0], pair[1]))
  }

  // ---------------------------------------------------------------- integers

  /** The two widths the progress fields are parsed at. */
  datatype IntWidth = Bits32 | Bits64

  /** 2^(bits - 1): the values of the width are -Bound .. Bound - 1. */
  function Bound(w: IntWidth): int {
    match w
    case Bits32 => 0x8000_0000
    case Bits64 => 0x8000_0000_0000_0000
  }

  predicate InSignedRange(v: int, w: IntWidth) {
    -Bound(w) <= v < Bound(w)
  }

  /** Go's int64 arithmetic, which wraps around modulo 2^64. */
  function WrapInt64(x: int): (r: int)
    ensures InSignedRange(r, Bits64)
    ensures InSignedRange(x, Bits64) ==> r == x
  {
    (x + 0x8000_0000_0000_0000) % 0x1_0000_0000_0000_0000 - 0x8000_0000_0000_0000
  }

  /**
   * `strconv.ParseInt(s, 10, bits)`: an optional sign, then one or more decimal digits,
   * and a value the width holds; anything else is an error.
   */
  function ParseInt(s: string, w: IntWidth): (r: Option<int>)
    ensures r.Some? ==> InSignedRange(r.value, w)
    ensures r.Some? ==> |s| > 0 && (var d := if s[0] == '+' || s[0] == '-' then s[1..] else s; |d| > 0 && AllDigits(d))
  {
    if |s| == 0 then None
    else
      var negative := s[0] == '-';
      var digits := if s[0] == '+' || s[0] == '-' then s[1..] else s;
      if |digits| == 0 || !AllDigits(digits) then None
      else
        var magnitude: int := DigitsValue(digits);
        var v := if negative then -magnitude else magnitude;
        if InSignedRange(v, w) then Some(v) else None
  }

  /** `strconv.FormatInt(v, 10)`. */
  function IntToString(v: int): string {
    if v < 0 then "-" + NatToString(-v) else NatToString(v)
  }

  // ---------------------------------------------------------------- sizes

  /** The units `parseSize` knows, in the order it searches them: kilobytes first. */
  const Units: seq<string> := ["kb", "mb", "gb"]

  function Pow1024(k: nat): (r: nat)
    ensures r >= 1
  {
    if k == 0 then 1 else 1024 * Pow1024(k - 1)
  }

  /**
   * `getSizeMultiplier` from position `k` on: 1024^j for the first j with `data[j] == element`,
   * or -1 when there is none.
   */
  function MultiplierFrom(element: string, data: seq<string>, k: nat): (r: int)
    ensures r == -1 <==> forall j :: k <= j < |data| ==> data[j] != element
    ensures r != -1 ==> exists j :: k <= j < |data| && data[j] == element && r == Pow1024(j)
                                     && forall i :: k <= i < j ==> data[i] != element
    decreases |data| - k
  {
    if k >= |data| then -1
    else if data[k] == element then Pow1024(k)
    else MultiplierFrom(element, data, k + 1)
  }

  function GetSizeMultiplier(element: string, data: seq<string>): (r: int)
    ensures r == -1 <==> element !in data
    ensures r != -1 ==> exists j :: 0 <= j < |data| && data[j] == element && r == Pow1024(j)
  {
    MultiplierFrom(element, data, 0)
  }

  /** The end of the run of digits that starts at `i`. */
  function DigitRunEnd(s: string, i: nat): (j: nat)
    requires i <= |s|
    ensures i <= j <= |s| && (forall k :: i <= k < j ==> IsDigit(s[k])) && (j < |s| ==> !IsDigit(s[j]))
    decreases |s| - i
  {
    if i < |s| && IsDigit(s[i]) then DigitRunEnd(s, i + 1) else i
  }

  /** The end of the run of ASCII letters that starts at `i`. */
  function LetterRunEnd(s: string, i: nat): (j: nat)
    requires i <= |s|
    ensures i <= j <= |s| && (forall k :: i <= k < j ==> IsAsciiLetter(s[k])) && (j < |s| ==> !IsAsciiLetter(s[j]))
    decreases |s| - i
  {
    if i < |s| && IsAsciiLetter(s[i]) then LetterRunEnd(s, i + 1) else i
  }

  /**
   * `(\d+)([a-zA-Z]+)` tried at position `i`: the digit run greedily, then at least one letter,
   * all the letters. Giving back digits never helps, since the next character is then a digit.
   * The result is (start, end of the digits, end of the letters).
   */
  function SizeMatchAt(s: string, i: nat): (r: Option<(nat, nat, nat)>)
    requires i <= |s|
    ensures r.Some? ==> r.value.0 == i < r.value.1 < r.value.2 <= |s|
  {
    if i < |s| && IsDigit(s[i]) then
      var d := DigitRunEnd(s, i);
      if d < |s| && IsAsciiLetter(s[d]) then Some((i, d, LetterRunEnd(s, d))) else None
    else None
  }

  /** `FindStringSubmatch`: the leftmost position at which the pattern matches. */
  function FindSizeMatch(s: string, i: nat): (r: Option<(nat, nat, nat)>)
    requires i <= |s|
    ensures r.Some? ==> i <= r.value.0 <= |s| && SizeMatchAt(s, r.value.0) == r
    ensures r.Some? ==> forall k :: i <= k < r.value.0 ==> SizeMatchAt(s, k).None?
    ensures r.None? ==> forall k :: i <= k <= |s| ==> SizeMatchAt(s, k).None?
    decreases |s| - i
  {
    if i == |s| then None
    else
      var m := SizeMatchAt(s, i);
      if m.Some? then m else FindSizeMatch(s, i + 1)
  }

  /**
   * `parseSize`: the leftmost digits-then-letters run, the digits as an int64 times the unit's
   * multiplier (int64, wrapping), in kilobytes. No such run is an error; a unit outside the table
   * gives 0 with no error, because the error returned there is the nil one from `ParseInt`.
   */
  function ParseSize(raw: string): (r: Result<int, Failure>)
    ensures r.Ok? ==> InSignedRange(r.value, Bits64)
    ensures FindSizeMatch(raw, 0).None? <==> r == Err(InvalidSizeFormat)
  {
    match FindSizeMatch(raw, 0)
    case None => Err(InvalidSizeFormat)
    case Some((s, d, e)) =>
      var unit := ToLower(raw[d..e]);
      match ParseInt(raw[s..d], Bits64)
      case None => Err(IntOutOfRange(raw[s..d]))
      case Some(size) =>
        var multiplier := GetSizeMultiplier(unit, Units);
        if multiplier == -1 then Ok(0) else Ok(WrapInt64(size * multiplier))
  }

  // ---------------------------------------------------------------- progress records

  /**
   * `EncodingProgress`, the fields `parseProgress` fills from integers and text. Quality,
   * time and speed are floating point or clock values and are not part of the record here.
   */
  datatype EncodingProgress = EncodingProgress(frames: int, fps: int, size: int, bitrate: string)

  const NoProgress := EncodingProgress(0, 0, 0, "")

  /** The tokens of a progress line: trimmed, blanks after `=` removed, split on single spaces. */
  function Components(line: string): seq<string> {
    Split(CollapseAfterEquals(TrimSpace(line)), ' ')
  }

  /** The `switch` on the key: a value that does not parse leaves the field as it was. */
  function ApplyComponent(p: EncodingProgress, key: string, value: string): EncodingProgress {
    if key == "frame" then
      (match ParseInt(value, Bits64) case Some(n) => p.(frames := n) case None => p)
    else if key == "fps" then
      (match ParseInt(value, Bits32) case Some(n) => p.(fps := n) case None => p)
    else if key == "size" then
      (match ParseSize(value) case Ok(n) => p.(size := n) case Err(_) => p)
    else if key == "bitrate" then p.(bitrate := value)
    else p
  }

  /** The loop of `parseProgress` from record `p` on: the first token that is not a pair fails it. */
  function ApplyComponents(p: EncodingProgress, comps: seq<string>): Result<EncodingProgress, Failure>
    decreases |comps|
  {
    if |comps| == 0 then Ok(p)
    else match ParseComponentString(comps[0])
      case Err(e) => Err(e)
      case Ok((key, value)) => ApplyComponents(ApplyComponent(p, key, value), comps[1..])
  }

  function ProgressOf(line: string): Result<EncodingProgress, Failure> {
    ApplyComponents(NoProgress, Components(line))
  }

  /** `parseProgress`: fills a zero record field by field, one token at a time. */
  method ParseProgress(line: string) returns (r: Result<EncodingProgress, Failure>)
    ensures r == ProgressOf(line)
    ensures r.Err? <==> exists i :: 0 <= i < |Components(line)| && CountChar(Components(line)[i], '=') != 1
  {
    var components := Components(line);
    var p := NoProgress;
    for i := 0 to |components|
      invariant ApplyComponents(p, components[i..]) == ProgressOf(line)
      invariant forall k :: 0 <= k < i ==> CountChar(components[k], '=') == 1
    {
      assert components[i..][1..] == components[i + 1..];
      match ParseComponentString(components[i])
      case Err(e) =>
        PairFailureIsFirstBad(p, components, line);
        return Err(e);
      case Ok((key, value)) =>
        p := ApplyComponent(p, key, value);
    }
    assert components[|components|..] == [];
    PairFailureIsFirstBad(p, components, line);
    r := Ok(p);
  }

  /** Whether the fold fails depends only on the tokens, not on the record carried along. */
  lemma {:induction false} FailsIffBadToken(p: EncodingProgress, comps: seq<string>)
    ensures ApplyComponents(p, comps).Err? <==> exists i :: 0 <= i < |comps| && CountChar(comps[i], '=') != 1
    decreases |comps|
  {
    if |comps| > 0 {
      var r := ParseComponentString(comps[0]);
      if r.Ok? {
        FailsIffBadToken(ApplyComponent(p, r.value.0, r.value.1), comps[1..]);
        if exists i :: 0 <= i < |comps| && CountChar(comps[i], '=') != 1 {
          var i :| 0 <= i < |comps| && CountChar(comps[i], '=') != 1;
          assert comps[1..][i - 1] == comps[i];
        }
        if exists i :: 0 <= i < |comps[1..]| && CountChar(comps[1..][i], '=') != 1 {
          var i :| 0 <= i < |comps[1..]| && CountChar(comps[1..][i], '=') != 1;
          assert comps[i + 1] == comps[1..][i];
        }
      }
    }
  }

  lemma PairFailureIsFirstBad(p: EncodingProgress, comps: seq<string>, line: string)
    requires comps == Components(line)
    ensures ProgressOf(line).Err? <==> exists i :: 0 <= i < |comps| && CountChar(comps[i], '=') != 1
  {
    FailsIffBadToken(NoProgress, comps);
  }

  // ---------------------------------------------------------------- the output loop

  /** Only a line starting with `f` can be the `frame=` progress line. */
  predicate MayBeProgress(line: string) {
    HasPrefix(line, "f")
  }

  /** The records `ParseOutput` emits for the lines, in order: lines that fail are skipped. */
  function ProgressLines(lines: seq<string>): (r: seq<EncodingProgress>)
    ensures |r| <= |lines|
  {
    if |lines| == 0 then []
    else
      var last := lines[|lines| - 1];
      var earlier := ProgressLines(lines[..|lines| - 1]);
      if MayBeProgress(last) && ProgressOf(last).Ok? then earlier + [ProgressOf(last).value] else earlier
  }

  lemma ProgressLinesStep(lines: seq<string>, i: nat)
    requires i < |lines|
    ensures lines[..i + 1] == lines[..i] + [lines[i]]
    ensures ProgressLines(lines[..i + 1])
            == if MayBeProgress(lines[i]) && ProgressOf(lines[i]).Ok?
               then ProgressLines(lines[..i]) + [ProgressOf(lines[i]).value]
               else ProgressLines(lines[..i])
  {
    assert lines[..i + 1][..i] == lines[..i];
  }

  /** How many lines of log `ParseOutput` keeps. */
  const TailSize: nat := 5

  /**
   * `ParseOutput` over the lines the scanner yields: every line goes into a five-slot ring
   * buffer, the progress records are emitted in order, and the buffer's text is returned.
   */
  method ParseOutput(lines: seq<string>) returns (tail: string, progress: seq<EncodingProgress>)
    ensures progress == ProgressLines(lines)
    ensures tail == Join(Window(lines, TailSize), "\n")
  {
    var stack := new RingLogBuffer(TailSize);
    progress := [];
    for i := 0 to |lines|
      invariant fresh(stack) && fresh(stack.content)
      invariant stack.Valid() && stack.size == TailSize
      invariant stack.pushed == lines[..i]
      invariant progress == ProgressLines(lines[..i])
    {
      var line := lines[i];
      stack.Push(line);
      ProgressLinesStep(lines, i);
      if HasPrefix(line, "f") {
        var p := ParseProgress(line);
        if p.Ok? {
          progress := progress + [p.value];
        }
      }
    }
    assert lines[..|lines|] == lines;
    tail := stack.String();
  }
}
