/**
 * Properties of the console parser: how the split function cuts a stream, that pairs and
 * integers read back what was written, the size table, and the progress records of the sample
 * lines.
 */
module ConsoleParserProperties {
  import opened Wrappers
  import opened Errors
  import opened Text
  import opened RingLog
  import opened ConsoleParser

  // ---------------------------------------------------------------- the line splitter

  /** Exactly one `\r` is dropped, even when the text before it ends with another. */
  lemma DropCRDropsOne(s: string)
    ensures DropCR(s + "\r") == s
  {
    assert (s + "\r")[..|s|] == s;
  }

  /** A buffered `\n` wins over any `\r` before it: the line is what precedes the first `\n`. */
  lemma NewlineFirst(a: string, b: string, atEOF: bool)
    requires '\n' !in a
    ensures ScanFfmpegOutput(a + "\n" + b, atEOF) == ScanStep(|a| + 1, Some(DropCR(a)))
  {
    var data := a + "\n" + b;
    assert data[|a|] == '\n';
    assert forall k :: 0 <= k < |a| ==> data[k] == a[k];
    IndexOfCharAt(data, '\n', 0, |a|);
    assert data[..|a|] == a;
  }

  /** Mid-stream, a progress line ended by `\r` is a token of its own when no `\n` is buffered. */
  lemma ProgressLineSplit(p: string, rest: string)
    requires '\n' !in p && '\n' !in rest && '\r' !in p
    ensures ScanFfmpegOutput(p + "\r" + rest, false) == ScanStep(|p| + 1, Some(p))
  {
    var data := p + "\r" + rest;
    assert data[|p|] == '\r';
    assert forall k :: 0 <= k < |p| ==> data[k] == p[k];
    assert '\n' !in data by {
      forall k | 0 <= k < |data| ensures data[k] != '\n' {
        if k < |p| { assert data[k] in p; }
        else if k > |p| { assert data[k] == rest[k - |p| - 1]; assert data[k] in rest; }
      }
    }
    IndexOfCharAt(data, '\r', 0, |p|);
    assert data[..|p|] == p;
    assert !(|p| > 0 && p[|p| - 1] == '\r') by {
      if |p| > 0 { assert p[|p| - 1] in p; }
    }
  }

  /** Without `\n` or `\r` in the buffer, and the stream still open, the scanner asks for more. */
  lemma NeedsMoreData(data: string)
    requires '\n' !in data && '\r' !in data
    ensures ScanFfmpegOutput(data, false) == ScanStep(0, None)
  {
  }

  /**
   * A stream without `\r`, read to its end, yields its `\n`-separated lines: the text is each
   * line followed by a newline, and the scanner gives back exactly those lines.
   */
  lemma {:induction false} ScanAllLines(data: string)
    requires '\r' !in data
    ensures ScanAll(data + "\n") == Split(data, '\n')
    decreases |data|
  {
    var s := data + "\n";
    if '\n' in data {
      var i := IndexOfChar(data, '\n', 0).value;
      var a, b := data[..i], data[i + 1..];
      assert data == a + "\n" + b;
      assert '\n' !in a;
      assert s == a + "\n" + (b + "\n");
      NewlineFirst(a, b + "\n", true);
      assert '\r' !in a && '\r' !in b;
      assert !(|a| > 0 && a[|a| - 1] == '\r') by {
        if |a| > 0 { assert a[|a| - 1] in a; }
      }
      assert s[|a| + 1..] == b + "\n";
      ScanAllLines(b);
      SplitAppendSeparator(a, b, '\n');
      SplitNoSeparator(a, '\n');
      assert a + ['\n'] + b == data;
    } else {
      NewlineFirst(data, "", true);
      assert s == data + "\n" + "";
      assert !(|data| > 0 && data[|data| - 1] == '\r') by {
        if |data| > 0 { assert data[|data| - 1] in data; }
      }
      assert s[|data| + 1..] == "";
      SplitNoSeparator(data, '\n');
    }
  }

  /** Mid-stream, a progress line ended by `\r` is yielded on its own, without the `\r`. */
  lemma ScanStreamProgress(p: string, rest: string)
    requires '\n' !in p && '\n' !in rest && '\r' !in p
    ensures ScanStream(p + "\r" + rest) == [p] + ScanStream(rest)
  {
    ProgressLineSplit(p, rest);
    assert (p + "\r" + rest)[|p| + 1..] == rest;
  }

  /** Mid-stream, a line ended by `\n` is yielded with one `\r` before the `\n` dropped. */
  lemma ScanStreamNewline(a: string, rest: string)
    requires '\n' !in a
    ensures ScanStream(a + "\n" + rest) == [DropCR(a)] + ScanStream(rest)
  {
    NewlineFirst(a, rest, false);
    assert (a + "\n" + rest)[|a| + 1..] == rest;
  }

  /** Progress lines as ffmpeg writes them: each followed by a `\r` and no `\n`. */
  function CrTerminated(lines: seq<string>): string {
    if |lines| == 0 then "" else lines[0] + "\r" + CrTerminated(lines[1..])
  }

  lemma {:induction false} CrTerminatedNoNewline(lines: seq<string>)
    requires forall i :: 0 <= i < |lines| ==> '\n' !in lines[i]
    ensures '\n' !in CrTerminated(lines)
  {
    if |lines| > 0 {
      CrTerminatedNoNewline(lines[1..]);
      assert '\n' !in lines[0];
    }
  }

  /**
   * A run of progress lines, each overwritten in place by the next through a `\r`, yields
   * every one of them, in order and without the `\r`.
   */
  lemma {:induction false} ScanStreamProgressLines(lines: seq<string>)
    requires forall i :: 0 <= i < |lines| ==> '\n' !in lines[i] && '\r' !in lines[i]
    ensures ScanStream(CrTerminated(lines)) == lines
  {
    if |lines| > 0 {
      CrTerminatedNoNewline(lines[1..]);
      ScanStreamProgress(lines[0], CrTerminated(lines[1..]));
      ScanStreamProgressLines(lines[1..]);
    }
  }

  lemma NoTrailingCR(a: string)
    requires '\r' !in a
    ensures DropCR(a) == a
  {
    if |a| > 0 {
      assert a[|a| - 1] in a;
    }
  }

  /** A `\n`-terminated line followed by a `\r`-terminated one yields two lines, the second without its `\r`. */
  lemma ScanStreamNewlineThenProgress(a: string, p: string, data: string)
    requires '\n' !in a && '\r' !in a && '\n' !in p && '\r' !in p
    requires data == a + "\n" + p + "\r"
    ensures ScanStream(data) == [a, p]
  {
    var tail := p + "\r" + "";
    assert data == a + "\n" + tail;
    ScanStreamNewline(a, tail);
    NoTrailingCR(a);
    ScanStreamProgress(p, "");
    ScanStreamEmpty();
  }

  lemma ScanStreamEmpty()
    ensures ScanStream("") == []
  {
  }

  /**
   * A `\n` buffered after a `\r` still wins: a progress line and a `\n`-terminated line that
   * arrive in the same read come out as one line that keeps the `\r`.
   */
  lemma ScanStreamNewlineOutranks(p: string, a: string, data: string)
    requires '\n' !in p && '\n' !in a && '\r' !in a && |a| > 0
    requires data == p + "\r" + a + "\n"
    ensures ScanStream(data) == [p + "\r" + a]
  {
    var line := p + "\r" + a;
    assert data == line + "\n" + "";
    assert '\n' !in line by {
      forall k | 0 <= k < |line| ensures line[k] != '\n' {
        if k < |p| { assert line[k] in p; }
        else if k > |p| { assert line[k] == a[k - |p| - 1]; assert line[k] in a; }
      }
    }
    ScanStreamNewline(line, "");
    assert line[|line| - 1] == a[|a| - 1];
    assert a[|a| - 1] in a;
    ScanStreamEmpty();
  }

  /** Mid-stream too, a stream without `\r` yields exactly its `\n`-separated lines. */
  lemma {:induction false} ScanStreamLines(data: string)
    requires '\r' !in data
    ensures ScanStream(data + "\n") == Split(data, '\n')
    decreases |data|
  {
    if '\n' in data {
      var i := IndexOfChar(data, '\n', 0).value;
      var a, b := data[..i], data[i + 1..];
      assert data == a + "\n" + b;
      assert '\n' !in a && '\r' !in a && '\r' !in b;
      assert data + "\n" == a + "\n" + (b + "\n");
      ScanStreamNewline(a, b + "\n");
      NoTrailingCR(a);
      ScanStreamLines(b);
      SplitAppendSeparator(a, b, '\n');
      SplitNoSeparator(a, '\n');
      assert a + ['\n'] + b == data;
    } else {
      assert data + "\n" == data + "\n" + "";
      ScanStreamNewline(data, "");
      NoTrailingCR(data);
      ScanStreamEmpty();
      SplitNoSeparator(data, '\n');
    }
  }

  /** Two progress lines, each ended by `\r`, come out as two lines. */
  lemma TwoProgressLinesStream()
    ensures ScanStream("frame=1\rframe=2\r") == ["frame=1", "frame=2"]
  {
    var lines := ["frame=1", "frame=2"];
    assert CrTerminated(lines) == "frame=1\rframe=2\r" by {
      assert lines[1..][1..] == [];
    }
    ScanStreamProgressLines(lines);
  }

  // ---------------------------------------------------------------- pairs

  /** A key and a value without `=` read back from `key=value`. */
  lemma PairRoundTrip(key: string, value: string)
    requires '=' !in key && '=' !in value
    ensures ParseComponentString(key + "=" + value) == Ok((key, value))
  {
    SplitAppendSeparator(key, value, '=');
    SplitNoSeparator(key, '=');
    SplitNoSeparator(value, '=');
    assert key + "=" + value == key + ['='] + value;
  }

  /** Two `=` in a token make it a non-pair, as in `a=b=c`. */
  lemma TwoEqualsIsNoPair(a: string, b: string, c: string)
    ensures ParseComponentString(a + "=" + b + "=" + c).Err?
  {
    CountCharAppend(a, "=", '=');
    CountCharAppend(a + "=", b, '=');
    CountCharAppend(a + "=" + b, "=", '=');
    CountCharAppend(a + "=" + b + "=", c, '=');
  }

  // ---------------------------------------------------------------- integers

  /** `ParseInt` reads back what `FormatInt` writes, for every value the width holds. */
  lemma ParseIntRoundTrip(v: int, w: IntWidth)
    requires InSignedRange(v, w)
    ensures ParseInt(IntToString(v), w) == Some(v)
  {
    var s := IntToString(v);
    if v < 0 {
      NatToStringRoundTrip(-v);
      assert s[1..] == NatToString(-v);
    } else {
      NatToStringRoundTrip(v);
    }
  }

  /** A number of digits too large for the width is an error, not a truncated value. */
  lemma ParseIntOutOfRange(n: nat, w: IntWidth)
    requires n >= Bound(w)
    ensures ParseInt(NatToString(n), w).None?
  {
    NatToStringRoundTrip(n);
  }

  // ---------------------------------------------------------------- sizes

  lemma {:induction false} DigitsEndAt(s: string, i: nat, j: nat)
    requires i <= j <= |s| && (forall k :: i <= k < j ==> IsDigit(s[k])) && (j < |s| ==> !IsDigit(s[j]))
    ensures DigitRunEnd(s, i) == j
    decreases j - i
  {
    if i < j {
      DigitsEndAt(s, i + 1, j);
    }
  }

  lemma {:induction false} LettersEndAt(s: string, i: nat, j: nat)
    requires i <= j <= |s| && (forall k :: i <= k < j ==> IsAsciiLetter(s[k])) && (j < |s| ==> !IsAsciiLetter(s[j]))
    ensures LetterRunEnd(s, i) == j
    decreases j - i
  {
    if i < j {
      LettersEndAt(s, i + 1, j);
    }
  }

  predicate AllLetters(u: string) {
    forall k :: 0 <= k < |u| ==> IsAsciiLetter(u[k])
  }

  /** `<digits><letters>` matches at 0: the digits, then all the letters. */
  lemma SizeTextMatches(d: string, u: string)
    requires |d| > 0 && AllDigits(d) && |u| > 0 && AllLetters(u)
    ensures FindSizeMatch(d + u, 0) == Some((0, |d|, |d| + |u|))
  {
    var s := d + u;
    assert forall k :: 0 <= k < |d| ==> s[k] == d[k];
    assert forall k :: |d| <= k < |s| ==> s[k] == u[k - |d|];
    DigitsEndAt(s, 0, |d|);
    LettersEndAt(s, |d|, |s|);
  }

  lemma SizeTextShape(d: string, u: string)
    requires |d| > 0 && AllDigits(d) && |u| > 0 && AllLetters(u)
    ensures FindSizeMatch(d + u, 0) == Some((0, |d|, |d| + |u|))
    ensures (d + u)[0..|d|] == d && (d + u)[|d|..|d| + |u|] == u
  {
    var s := d + u;
    SizeTextMatches(d, u);
    assert s[0..|d|] == d;
    assert s[|d|..|d| + |u|] == u;
  }

  lemma SizeMatchValue(raw: string, d: string, u: string, size: int)
    requires FindSizeMatch(raw, 0) == Some((0, |d|, |d| + |u|))
    requires |raw| == |d| + |u| && raw[0..|d|] == d && raw[|d|..|d| + |u|] == u
    requires ParseInt(d, Bits64) == Some(size)
    ensures var m := GetSizeMultiplier(ToLower(u), Units);
      ParseSize(raw) == if m == -1 then Ok(0) else Ok(WrapInt64(size * m))
  {
  }

  /** Where the match is known, `parseSize` is the digits' value times the unit's multiplier. */
  lemma SizeTextValue(d: string, u: string, size: int)
    requires |d| > 0 && AllDigits(d) && |u| > 0 && AllLetters(u)
    requires ParseInt(d, Bits64) == Some(size)
    ensures var m := GetSizeMultiplier(ToLower(u), Units);
      ParseSize(d + u) == if m == -1 then Ok(0) else Ok(WrapInt64(size * m))
  {
    SizeTextShape(d, u);
    SizeMatchValue(d + u, d, u, size);
  }

  /** The units of the table are distinct, so each one picks its own power of 1024. */
  lemma UnitMultiplier(k: nat)
    requires k < |Units|
    ensures GetSizeMultiplier(Units[k], Units) == Pow1024(k)
  {
    assert Units[0] != Units[1] && Units[0] != Units[2] && Units[1] != Units[2];
  }

  lemma MulAtLeast(n: nat, m: nat)
    requires m >= 1
    ensures n <= n * m
  {
  }

  /**
   * A size written as a number and a unit of the table, in any letter case, is the number times
   * 1024^k kilobytes, wrapped to int64.
   */
  lemma SizeProduct(n: nat, u: string, k: nat)
    requires |u| > 0 && AllLetters(u) && k < |Units| && ToLower(u) == Units[k]
    requires n < Bound(Bits64)
    ensures ParseSize(NatToString(n) + u) == Ok(WrapInt64(n * Pow1024(k)))
  {
    ParseIntRoundTrip(n, Bits64);
    SizeTextValue(NatToString(n), u, n);
    UnitMultiplier(k);
  }

  /** When the product fits in an int64, the size reads back exactly. */
  lemma SizeRoundTrip(n: nat, u: string, k: nat)
    requires |u| > 0 && AllLetters(u) && k < |Units| && ToLower(u) == Units[k]
    requires n * Pow1024(k) < Bound(Bits64)
    ensures ParseSize(NatToString(n) + u) == Ok(n * Pow1024(k))
  {
    MulAtLeast(n, Pow1024(k));
    SizeProduct(n, u, k);
  }

  /** A unit outside the table gives a size of 0, and no error. */
  lemma UnknownUnitIsZero(n: nat, u: string)
    requires |u| > 0 && AllLetters(u) && ToLower(u) !in Units
    requires n < Bound(Bits64)
    ensures ParseSize(NatToString(n) + u) == Ok(0)
  {
    ParseIntRoundTrip(n, Bits64);
    SizeTextValue(NatToString(n), u, n);
  }

  /** Text without a digit has no size in it. */
  lemma NoDigitNoSize(s: string)
    requires forall k :: 0 <= k < |s| ==> !IsDigit(s[k])
    ensures ParseSize(s) == Err(InvalidSizeFormat)
  {
  }

  lemma WrapAtBound(n: int, p: int)
    requires n == 0x800_0000_0000 && p == 0x10_0000
    ensures WrapInt64(n * p) == -0x8000_0000_0000_0000
  {
    assert n * p == 0x8000_0000_0000_0000;
  }

  lemma GigaUnit()
    ensures Units[2] == "gb" && Pow1024(2) == 0x10_0000
  {
    assert Pow1024(1) == 1024;
  }

  /** The product is int64 arithmetic: 2^43 gigabytes wraps to the most negative int64. */
  lemma SizeWrapsAround(n: nat, u: string)
    requires n == 0x800_0000_0000
    requires |u| > 0 && AllLetters(u) && ToLower(u) == "gb"
    ensures ParseSize(NatToString(n) + u) == Ok(-0x8000_0000_0000_0000)
  {
    GigaUnit();
    SizeProduct(n, u, 2);
    WrapAtBound(n, Pow1024(2));
  }

  /** Ten of any unit of the table, in any letter case. */
  lemma SizeTen(u: string, k: nat)
    requires |u| > 0 && AllLetters(u) && k < |Units| && ToLower(u) == Units[k]
    ensures ParseSize("10" + u) == Ok(10 * Pow1024(k))
  {
    assert NatToString(10) == "10";
    assert Pow1024(k) <= 1048576 by {
      assert Pow1024(1) == 1024 && Pow1024(2) == 1048576;
    }
    SizeRoundTrip(10, u, k);
  }

  /** Ten of a unit of the table written as two letters in some letter case. */
  lemma TenOfTwoLetterUnit(s: string, k: nat)
    requires |s| == 4 && s[0] == '1' && s[1] == '0' && k < |Units|
    requires IsAsciiLetter(s[2]) && IsAsciiLetter(s[3]) && [ToLowerAscii(s[2]), ToLowerAscii(s[3])] == Units[k]
    ensures ParseSize(s) == Ok(10 * Pow1024(k))
  {
    var u := [s[2], s[3]];
    assert s == "10" + u;
    assert ToLower(u) == [ToLowerAscii(s[2]), ToLowerAscii(s[3])];
    SizeTen(u, k);
  }

  /** `10kb` and `10kB` are 10 kilobytes. */
  lemma SizeExampleKilo(s: string)
    requires s == "10kb" || s == "10kB"
    ensures ParseSize(s) == Ok(10)
  {
    TenOfTwoLetterUnit(s, 0);
  }

  /** `10Mb` and `10mb` are 10240 kilobytes. */
  lemma SizeExampleMega(s: string)
    requires s == "10Mb" || s == "10mb"
    ensures ParseSize(s) == Ok(10240)
  {
    TenOfTwoLetterUnit(s, 1);
    assert Pow1024(1) == 1024;
  }

  /** `10Gb` and `10GB` are 10485760 kilobytes. */
  lemma SizeExampleGiga(s: string)
    requires s == "10Gb" || s == "10GB"
    ensures ParseSize(s) == Ok(10485760)
  {
    TenOfTwoLetterUnit(s, 2);
    assert Pow1024(2) == 1048576;
  }

  /** Letters alone are no size. */
  lemma SizeExampleLetters()
    ensures ParseSize("dshsdhsd") == Err(InvalidSizeFormat)
  {
    NoDigitNoSize("dshsdhsd");
  }

  // ---------------------------------------------------------------- progress lines

  /** One field of a progress line as ffmpeg writes it: `key=`, padding blanks, then the value. */
  datatype Field = Field(key: string, pad: string, value: string)

  /** No blank and no `=` anywhere in the text. */
  predicate Plain(s: string) {
    forall k :: 0 <= k < |s| ==> !IsUnicodeSpace(s[k]) && s[k] != '='
  }

  /** The padding ffmpeg writes: plain spaces. */
  predicate Blanks(s: string) {
    forall k :: 0 <= k < |s| ==> s[k] == ' '
  }

  predicate WellFormedField(f: Field) {
    |f.key| > 0 && |f.value| > 0 && Plain(f.key) && Plain(f.value) && Blanks(f.pad)
  }

  /** Visible ASCII other than `=`: a cheaper sufficient condition for `Plain`. */
  predicate Printable(s: string) {
    forall k :: 0 <= k < |s| ==> '!' <= s[k] <= '<' || '>' <= s[k] <= '~'
  }

  lemma PrintablePlain(s: string)
    requires Printable(s)
    ensures Plain(s)
  {
  }

  lemma PrintableField(f: Field)
    requires |f.key| > 0 && |f.value| > 0 && Printable(f.key) && Printable(f.value) && Blanks(f.pad)
    ensures WellFormedField(f)
  {
    PrintablePlain(f.key);
    PrintablePlain(f.value);
  }

  function Written(f: Field): string {
    f.key + "=" + f.pad + f.value
  }

  function Pair(f: Field): string {
    f.key + "=" + f.value
  }

  function WrittenAll(fs: seq<Field>): (r: seq<string>)
    ensures |r| == |fs|
  {
    if |fs| == 0 then [] else [Written(fs[0])] + WrittenAll(fs[1..])
  }

  function PairsAll(fs: seq<Field>): (r: seq<string>)
    ensures |r| == |fs|
  {
    if |fs| == 0 then [] else [Pair(fs[0])] + PairsAll(fs[1..])
  }

  /** The record the fields fill, one `switch` case after the other. */
  function ApplyFields(p: EncodingProgress, fs: seq<Field>): EncodingProgress
    decreases |fs|
  {
    if |fs| == 0 then p else ApplyFields(ApplyComponent(p, fs[0].key, fs[0].value), fs[1..])
  }

  lemma {:induction false} CollapseNoEquals(a: string, b: string)
    requires '=' !in a
    ensures CollapseAfterEquals(a + b) == a + CollapseAfterEquals(b)
    decreases |a|
  {
    if |a| > 0 {
      assert (a + b)[0] == a[0];
      assert (a + b)[1..] == a[1..] + b;
      assert a[0] in a;
      CollapseNoEquals(a[1..], b);
    } else {
      assert a + b == b;
    }
  }

  lemma {:induction false} DropBlanks(pad: string, rest: string)
    requires Blanks(pad) && |rest| > 0 && !IsReSpace(rest[0])
    ensures DropReSpaces(pad + rest) == rest
    decreases |pad|
  {
    if |pad| > 0 {
      assert (pad + rest)[1..] == pad[1..] + rest;
      DropBlanks(pad[1..], rest);
    } else {
      assert pad + rest == rest;
    }
  }

  lemma PlainHasNo(s: string)
    requires Plain(s)
    ensures '=' !in s && ' ' !in s
    ensures |s| > 0 ==> !IsReSpace(s[0]) && !IsUnicodeSpace(s[0]) && !IsUnicodeSpace(s[|s| - 1])
  {
  }

  /** The blanks after one field's `=` go, and the rest of the line is untouched. */
  lemma CollapseField(f: Field, rest: string)
    requires WellFormedField(f)
    ensures CollapseAfterEquals(Written(f) + rest) == Pair(f) + CollapseAfterEquals(rest)
  {
    PlainHasNo(f.key);
    PlainHasNo(f.value);
    var after := f.pad + f.value + rest;
    assert Written(f) + rest == f.key + ("=" + after);
    CollapseNoEquals(f.key, "=" + after);
    assert ("=" + after)[1..] == after;
    DropBlanks(f.pad, f.value + rest);
    assert after == f.pad + (f.value + rest);
    CollapseNoEquals(f.value, rest);
  }

  lemma {:induction false} CollapseFields(fs: seq<Field>)
    requires |fs| > 0 && forall i :: 0 <= i < |fs| ==> WellFormedField(fs[i])
    ensures CollapseAfterEquals(Join(WrittenAll(fs), " ")) == Join(PairsAll(fs), " ")
    decreases |fs|
  {
    if |fs| == 1 {
      CollapseField(fs[0], "");
      assert Written(fs[0]) + "" == Written(fs[0]);
    } else {
      var tail := Join(WrittenAll(fs[1..]), " ");
      assert WrittenAll(fs)[1..] == WrittenAll(fs[1..]);
      assert PairsAll(fs)[1..] == PairsAll(fs[1..]);
      assert Join(WrittenAll(fs), " ") == Written(fs[0]) + (" " + tail);
      CollapseField(fs[0], " " + tail);
      assert (" " + tail)[1..] == tail;
      CollapseFields(fs[1..]);
    }
  }

  /** A line of fields starts and ends with a character that is not blank. */
  lemma {:induction false} WrittenLineEnds(fs: seq<Field>, line: string)
    requires |fs| > 0 && forall i :: 0 <= i < |fs| ==> WellFormedField(fs[i])
    requires line == Join(WrittenAll(fs), " ")
    ensures |line| > 0 && !IsUnicodeSpace(line[0]) && !IsUnicodeSpace(line[|line| - 1])
    decreases |fs|
  {
    var f := fs[0];
    assert WellFormedField(f);
    PlainHasNo(f.key);
    if |fs| == 1 {
      PlainHasNo(f.value);
      assert line == f.key + "=" + f.pad + f.value;
      assert line[|line| - 1] == f.value[|f.value| - 1];
    } else {
      var rest := Join(WrittenAll(fs[1..]), " ");
      assert WrittenAll(fs)[1..] == WrittenAll(fs[1..]);
      WrittenLineEnds(fs[1..], rest);
      assert line == Written(f) + " " + rest;
      assert line[|line| - 1] == rest[|rest| - 1];
    }
    assert line[0] == f.key[0];
  }

  lemma {:induction false} TrimTrailing(line: string, trail: string)
    requires |line| > 0 && !IsUnicodeSpace(line[|line| - 1]) && Blanks(trail)
    ensures TrimRightSpace(line + trail) == line
    decreases |trail|
  {
    if |trail| > 0 {
      var t := trail[..|trail| - 1];
      assert (line + trail)[..|line + trail| - 1] == line + t;
      TrimTrailing(line, t);
    } else {
      assert line + trail == line;
    }
  }

  /** Trimming removes the trailing blanks and nothing else. */
  lemma TrimBlanksEnd(line: string, trail: string)
    requires |line| > 0 && !IsUnicodeSpace(line[0]) && !IsUnicodeSpace(line[|line| - 1])
    requires Blanks(trail)
    ensures TrimSpace(line + trail) == line
  {
    TrimTrailing(line, trail);
    assert (line + trail)[0] == line[0];
  }

  lemma TrimFields(fs: seq<Field>, trail: string)
    requires |fs| > 0 && forall i :: 0 <= i < |fs| ==> WellFormedField(fs[i])
    requires Blanks(trail)
    ensures TrimSpace(Join(WrittenAll(fs), " ") + trail) == Join(WrittenAll(fs), " ")
  {
    var line := Join(WrittenAll(fs), " ");
    WrittenLineEnds(fs, line);
    TrimBlanksEnd(line, trail);
  }

  /**
   * A progress line made of well-formed fields, with any blanks after the `=` signs and at the
   * end, splits into exactly the `key=value` pairs.
   */
  lemma FieldsComponents(fs: seq<Field>, trail: string)
    requires |fs| > 0 && forall i :: 0 <= i < |fs| ==> WellFormedField(fs[i])
    requires Blanks(trail)
    ensures Components(Join(WrittenAll(fs), " ") + trail) == PairsAll(fs)
  {
    TrimFields(fs, trail);
    CollapseFields(fs);
    forall q | q in PairsAll(fs) ensures ' ' !in q {
      PairsHaveNoBlank(fs, q);
    }
    SplitJoin(PairsAll(fs), ' ');
  }

  lemma {:induction false} PairsHaveNoBlank(fs: seq<Field>, q: string)
    requires forall i :: 0 <= i < |fs| ==> WellFormedField(fs[i])
    requires q in PairsAll(fs)
    ensures ' ' !in q
    decreases |fs|
  {
    PlainHasNo(fs[0].key);
    PlainHasNo(fs[0].value);
    if q != Pair(fs[0]) {
      PairsHaveNoBlank(fs[1..], q);
    }
  }

  lemma {:induction false} ApplyPairs(p: EncodingProgress, fs: seq<Field>)
    requires forall i :: 0 <= i < |fs| ==> WellFormedField(fs[i])
    ensures ApplyComponents(p, PairsAll(fs)) == Ok(ApplyFields(p, fs))
    decreases |fs|
  {
    if |fs| > 0 {
      PlainHasNo(fs[0].key);
      PlainHasNo(fs[0].value);
      PairRoundTrip(fs[0].key, fs[0].value);
      assert PairsAll(fs)[1..] == PairsAll(fs[1..]);
      ApplyPairs(ApplyComponent(p, fs[0].key, fs[0].value), fs[1..]);
    }
  }

  /**
   * A line ffmpeg writes never fails: its record is the fields applied in order to the zero
   * record, whatever the padding.
   */
  lemma WellFormedLineParses(fs: seq<Field>, trail: string)
    requires |fs| > 0 && forall i :: 0 <= i < |fs| ==> WellFormedField(fs[i])
    requires Blanks(trail)
    ensures ProgressOf(Join(WrittenAll(fs), " ") + trail) == Ok(ApplyFields(NoProgress, fs))
  {
    FieldsComponents(fs, trail);
    ApplyPairs(NoProgress, fs);
  }

  lemma ApplyStep(p: EncodingProgress, fs: seq<Field>, k: nat)
    requires k < |fs|
    ensures ApplyFields(p, fs[k..]) == ApplyFields(ApplyComponent(p, fs[k].key, fs[k].value), fs[k + 1..])
  {
    assert fs[k..][1..] == fs[k + 1..];
  }

  /**
   * The sample line of the parser's test, field by field: the key, the blanks ffmpeg pads the
   * value with, and the value.
   */
  const SampleFields := [
    Field("frame", " ", "2349"), Field("fps", "", "335"), Field("q", "", "28.0"),
    Field("size", "       ", "10kB"), Field("time", "", "00:01:31.60"),
    Field("bitrate", "   ", "0.0kbits/s"), Field("speed", "", "13.1x")]

  /** `frame= 2349 fps=335 q=28.0 size=       10kB time=00:01:31.60 bitrate=   0.0kbits/s speed=13.1x` */
  const SampleLine := Join(WrittenAll(SampleFields), " ")

  lemma SampleCountFieldsWellFormed()
    ensures WellFormedField(SampleFields[0]) && WellFormedField(SampleFields[1]) && WellFormedField(SampleFields[2])
  {
    PrintableField(SampleFields[0]);
    PrintableField(SampleFields[1]);
    PrintableField(SampleFields[2]);
  }

  lemma SampleSizeFieldsWellFormed()
    ensures WellFormedField(SampleFields[3]) && WellFormedField(SampleFields[4])
  {
    PrintableField(SampleFields[3]);
    PrintableField(SampleFields[4]);
  }

  lemma SampleRateFieldsWellFormed()
    ensures WellFormedField(SampleFields[5]) && WellFormedField(SampleFields[6])
  {
    PrintableField(SampleFields[5]);
    PrintableField(SampleFields[6]);
  }

  lemma SampleFieldsWellFormed()
    ensures forall i :: 0 <= i < |SampleFields| ==> WellFormedField(SampleFields[i])
  {
    SampleCountFieldsWellFormed();
    SampleSizeFieldsWellFormed();
    SampleRateFieldsWellFormed();
  }

  lemma SampleCounts(fs: seq<Field>)
    requires fs == SampleFields
    ensures ApplyComponent(NoProgress, fs[0].key, fs[0].value) == NoProgress.(frames := 2349)
    ensures ApplyComponent(NoProgress.(frames := 2349), fs[1].key, fs[1].value) == EncodingProgress(2349, 335, 0, "")
  {
    SampleCountTexts(fs[0].value, fs[1].value);
    FrameComponent(NoProgress, fs[0].key, fs[0].value, 2349);
    FpsComponent(NoProgress.(frames := 2349), fs[1].key, fs[1].value, 335);
  }

  lemma SampleCountTexts(frames: string, fps: string)
    requires frames == "2349" && fps == "335"
    ensures frames == IntToString(2349) && fps == IntToString(335)
  {
    assert NatToString(2349) == "2349";
    assert NatToString(335) == "335";
  }

  /** A `frame` pair whose value is an int64 in decimal sets the frame count. */
  lemma FrameComponent(p: EncodingProgress, key: string, value: string, n: int)
    requires key == "frame" && value == IntToString(n) && InSignedRange(n, Bits64)
    ensures ApplyComponent(p, key, value) == p.(frames := n)
  {
    ParseIntRoundTrip(n, Bits64);
  }

  /** An `fps` pair whose value is an int32 in decimal sets the frame rate. */
  lemma FpsComponent(p: EncodingProgress, key: string, value: string, n: int)
    requires key == "fps" && value == IntToString(n) && InSignedRange(n, Bits32)
    ensures ApplyComponent(p, key, value) == p.(fps := n)
  {
    ParseIntRoundTrip(n, Bits32);
  }

  lemma SampleSize(fs: seq<Field>, p: EncodingProgress)
    requires fs == SampleFields
    ensures ApplyComponent(p, fs[3].key, fs[3].value) == p.(size := 10)
  {
    SizeExampleKilo(fs[3].value);
  }

  lemma SampleOthers(fs: seq<Field>, p: EncodingProgress)
    requires fs == SampleFields
    ensures ApplyComponent(p, fs[2].key, fs[2].value) == p
    ensures ApplyComponent(p, fs[4].key, fs[4].value) == p
    ensures ApplyComponent(p, fs[5].key, fs[5].value) == p.(bitrate := "0.0kbits/s")
    ensures ApplyComponent(p, fs[6].key, fs[6].value) == p
  {
  }

  lemma SampleFieldsApplied(fs: seq<Field>)
    requires fs == SampleFields
    ensures ApplyFields(NoProgress, fs) == EncodingProgress(2349, 335, 10, "0.0kbits/s")
  {
    var p1 := NoProgress.(frames := 2349);
    var p2 := EncodingProgress(2349, 335, 0, "");
    var p3 := EncodingProgress(2349, 335, 10, "");
    var p4 := EncodingProgress(2349, 335, 10, "0.0kbits/s");
    SampleCounts(fs);
    SampleSize(fs, p2);
    SampleOthers(fs, p2);
    SampleOthers(fs, p3);
    SampleOthers(fs, p4);
    assert fs[0..] == fs;
    ApplyStep(NoProgress, fs, 0);
    ApplyStep(p1, fs, 1);
    ApplyStep(p2, fs, 2);
    ApplyStep(p2, fs, 3);
    ApplyStep(p3, fs, 4);
    ApplyStep(p3, fs, 5);
    ApplyStep(p4, fs, 6);
    assert fs[7..] == [];
  }

  /**
   * The sample line of the parser's test: 2349 frames, 335 fps, 10 kB, and the bitrate as it is
   * written; quality, time and speed are not fields of the record here.
   */
  lemma SampleLineProgress()
    ensures ProgressOf(SampleLine) == Ok(EncodingProgress(2349, 335, 10, "0.0kbits/s"))
  {
    SampleFieldsWellFormed();
    WellFormedLineParses(SampleFields, "");
    assert SampleLine + "" == SampleLine;
    SampleFieldsApplied(SampleFields);
  }

  /** The line of the output test, with four blanks after its last field. */
  const OutputTestFields := [
    Field("frame", "   ", "85"), Field("fps", "", "0.0"), Field("q", "", "28.0"),
    Field("size", "       ", "0kB"), Field("time", "", "00:00:01.04"),
    Field("bitrate", "   ", "0.4kbits/s"), Field("speed", "   ", "2x")]

  /** `frame=   85 fps=0.0 q=28.0 size=       0kB time=00:00:01.04 bitrate=   0.4kbits/s speed=   2x    ` */
  const OutputTestLine := Join(WrittenAll(OutputTestFields), " ") + "    "

  lemma OutputTestCountFieldsWellFormed()
    ensures WellFormedField(OutputTestFields[0]) && WellFormedField(OutputTestFields[1]) && WellFormedField(OutputTestFields[2])
  {
    PrintableField(OutputTestFields[0]);
    PrintableField(OutputTestFields[1]);
    PrintableField(OutputTestFields[2]);
  }

  lemma OutputTestSizeFieldsWellFormed()
    ensures WellFormedField(OutputTestFields[3]) && WellFormedField(OutputTestFields[4])
  {
    PrintableField(OutputTestFields[3]);
    PrintableField(OutputTestFields[4]);
  }

  lemma OutputTestRateFieldsWellFormed()
    ensures WellFormedField(OutputTestFields[5]) && WellFormedField(OutputTestFields[6])
  {
    PrintableField(OutputTestFields[5]);
    PrintableField(OutputTestFields[6]);
  }

  lemma OutputTestFieldsWellFormed()
    ensures forall i :: 0 <= i < |OutputTestFields| ==> WellFormedField(OutputTestFields[i])
  {
    OutputTestCountFieldsWellFormed();
    OutputTestSizeFieldsWellFormed();
    OutputTestRateFieldsWellFormed();
  }

  lemma OutputTestCounts(fs: seq<Field>)
    requires fs == OutputTestFields
    ensures ApplyComponent(NoProgress, fs[0].key, fs[0].value) == NoProgress.(frames := 85)
    ensures ApplyComponent(NoProgress.(frames := 85), fs[1].key, fs[1].value) == NoProgress.(frames := 85)
  {
    OutputTestCountText(fs[0].value);
    FrameComponent(NoProgress, fs[0].key, fs[0].value, 85);
    assert !IsDigit(fs[1].value[1]);
  }

  lemma OutputTestCountText(frames: string)
    requires frames == "85"
    ensures frames == IntToString(85)
  {
    assert NatToString(85) == "85";
  }

  lemma OutputTestOthers(fs: seq<Field>, p: EncodingProgress)
    requires fs == OutputTestFields
    ensures ApplyComponent(p, fs[2].key, fs[2].value) == p
    ensures ApplyComponent(p, fs[3].key, fs[3].value) == p.(size := 0)
    ensures ApplyComponent(p, fs[4].key, fs[4].value) == p
    ensures ApplyComponent(p, fs[5].key, fs[5].value) == p.(bitrate := "0.4kbits/s")
    ensures ApplyComponent(p, fs[6].key, fs[6].value) == p
  {
    var u := fs[3].value[1..];
    assert fs[3].value == NatToString(0) + u;
    assert ToLower(u) == "kb";
    SizeRoundTrip(0, u, 0);
  }

  lemma OutputTestApplied(fs: seq<Field>)
    requires fs == OutputTestFields
    ensures ApplyFields(NoProgress, fs) == EncodingProgress(85, 0, 0, "0.4kbits/s")
  {
    var p1 := NoProgress.(frames := 85);
    var p2 := EncodingProgress(85, 0, 0, "0.4kbits/s");
    OutputTestCounts(fs);
    OutputTestOthers(fs, p1);
    OutputTestOthers(fs, p2);
    assert fs[0..] == fs;
    ApplyStep(NoProgress, fs, 0);
    ApplyStep(p1, fs, 1);
    ApplyStep(p1, fs, 2);
    ApplyStep(p1, fs, 3);
    ApplyStep(p1, fs, 4);
    ApplyStep(p1, fs, 5);
    ApplyStep(p2, fs, 6);
    assert fs[7..] == [];
  }

  /** A stream holding one line and no line break yields that line. */
  lemma SingleLineStream(data: string)
    requires |data| > 0 && '\n' !in data && '\r' !in data
    ensures ScanAll(data) == [data]
    ensures ScanStream(data) == [data]
  {
    assert data[|data|..] == "";
    assert !(|data| > 0 && data[|data| - 1] == '\r') by {
      assert data[|data| - 1] in data;
    }
  }

  /** The output test's stream is exactly its one line. */
  lemma OutputTestScans()
    ensures ScanStream(OutputTestLine) == [OutputTestLine]
  {
    OutputTestFieldsWellFormed();
    NoLineBreak(OutputTestFields, "    ");
    SingleLineStream(OutputTestLine);
  }

  lemma OutputTestRecord()
    ensures ProgressOf(OutputTestLine) == Ok(EncodingProgress(85, 0, 0, "0.4kbits/s"))
  {
    OutputTestFieldsWellFormed();
    WellFormedLineParses(OutputTestFields, "    ");
    OutputTestApplied(OutputTestFields);
  }

  lemma OutputTestStartsWithF()
    ensures MayBeProgress(OutputTestLine)
  {
    OutputTestFieldsWellFormed();
    var line := Join(WrittenAll(OutputTestFields), " ");
    WrittenLineEnds(OutputTestFields, line);
    assert WrittenAll(OutputTestFields)[0] == Written(OutputTestFields[0]);
    assert line[0] == 'f';
    assert OutputTestLine[0] == 'f';
  }

  /**
   * The output test: the stream is the one progress line, unterminated, so `ParseOutput` emits
   * exactly one record: 85 frames, an fps field that does not parse as an integer and stays 0,
   * a size of 0, and the bitrate as written.
   */
  lemma OutputTestEmitsOne()
    ensures ProgressLines(ScanStream(OutputTestLine)) == [EncodingProgress(85, 0, 0, "0.4kbits/s")]
  {
    OutputTestScans();
    OutputTestRecord();
    OutputTestStartsWithF();
    assert [OutputTestLine][..0] == [];
  }

  /** A line of fields holds no line break. */
  lemma {:induction false} NoLineBreak(fs: seq<Field>, trail: string)
    requires |fs| > 0 && forall i :: 0 <= i < |fs| ==> WellFormedField(fs[i])
    requires Blanks(trail) && '\n' !in trail && '\r' !in trail
    ensures var line := Join(WrittenAll(fs), " ") + trail; '\n' !in line && '\r' !in line
  {
    var line := Join(WrittenAll(fs), " ");
    forall k | 0 <= k < |line| ensures line[k] != '\n' && line[k] != '\r' {
      LineCharOf(fs, line, k);
    }
  }

  lemma {:induction false} LineCharOf(fs: seq<Field>, line: string, k: nat)
    requires |fs| > 0 && forall i :: 0 <= i < |fs| ==> WellFormedField(fs[i])
    requires line == Join(WrittenAll(fs), " ") && k < |line|
    ensures line[k] != '\n' && line[k] != '\r'
    decreases |fs|
  {
    var f := fs[0];
    assert WellFormedField(f);
    var w := Written(f);
    if k < |w| {
      if k < |f.key| {
        assert w[k] == f.key[k];
      } else if k > |f.key| + |f.pad| {
        assert w[k] == f.value[k - |f.key| - |f.pad| - 1];
      } else if k > |f.key| {
        assert w[k] == f.pad[k - |f.key| - 1];
      }
    } else if |fs| > 1 {
      var rest := Join(WrittenAll(fs[1..]), " ");
      assert WrittenAll(fs)[1..] == WrittenAll(fs[1..]);
      assert line == w + " " + rest;
      if k > |w| {
        assert line[k] == rest[k - |w| - 1];
        LineCharOf(fs[1..], rest, k - |w| - 1);
      }
    }
  }

  /** The gibberish test: a stream that is no progress line emits nothing. */
  lemma GibberishEmitsNothing()
    ensures ScanStream("shiny!") == ["shiny!"]
    ensures ProgressLines(ScanStream("shiny!")) == []
  {
    SingleLineStream("shiny!");
    assert ["shiny!"][..0] == [];
  }

  lemma CollapseEqualsPlain(c: string)
    requires |c| > 0 && Plain(c)
    ensures CollapseAfterEquals("=" + c) == "=" + c
  {
    PlainHasNo(c);
    assert ("=" + c)[1..] == c;
    assert DropReSpaces(c) == c;
    CollapseNoEquals(c, "");
    assert c + "" == c;
  }

  lemma TwoEqualsCollapse(a: string, b: string, c: string)
    requires |a| > 0 && |b| > 0 && |c| > 0 && Plain(a) && Plain(b) && Plain(c)
    ensures CollapseAfterEquals(a + "=" + b + "=" + c) == a + "=" + b + "=" + c
  {
    var f := Field(a, "", b);
    var e := "=" + c;
    TwoEqualsShape(a, b, c);
    CollapseField(f, e);
    CollapseEqualsPlain(c);
  }

  lemma TwoEqualsShape(a: string, b: string, c: string)
    ensures a + "=" + b + "=" + c == Written(Field(a, "", b)) + ("=" + c)
    ensures Pair(Field(a, "", b)) + ("=" + c) == a + "=" + b + "=" + c
  {
  }

  /** Three plain words around two `=` make a line that is a single component. */
  lemma TwoEqualsComponents(a: string, b: string, c: string, line: string)
    requires |a| > 0 && |b| > 0 && |c| > 0 && Plain(a) && Plain(b) && Plain(c)
    requires line == a + "=" + b + "=" + c
    ensures Components(line) == [line]
  {
    PlainHasNo(a);
    PlainHasNo(b);
    PlainHasNo(c);
    assert line[0] == a[0] && line[|line| - 1] == c[|c| - 1];
    TrimSpaceNoop(line);
    TwoEqualsCollapse(a, b, c);
    assert ' ' !in line;
    SplitNoSeparator(line, ' ');
  }

  /** A line of three plain words around two `=` is one token, which is no pair. */
  lemma TwoEqualsLine(a: string, b: string, c: string)
    requires |a| > 0 && |b| > 0 && |c| > 0 && Plain(a) && Plain(b) && Plain(c)
    ensures ProgressOf(a + "=" + b + "=" + c).Err?
  {
    var line := a + "=" + b + "=" + c;
    TwoEqualsComponents(a, b, c, line);
    TwoEqualsIsNoPair(a, b, c);
    assert ApplyComponents(NoProgress, [line]).Err?;
  }

  /** The error test: `sdjsdjksjkd=sdjsdhdj=jjsj` fails. */
  lemma TwoEqualsLineFails(a: string, b: string, c: string)
    requires a == "sdjsdjksjkd" && b == "sdjsdhdj" && c == "jjsj"
    ensures ProgressOf(a + "=" + b + "=" + c).Err?
  {
    TwoEqualsLine(a, b, c);
  }

  /** Lines that do not start with `f` never give a record, whatever they hold. */
  lemma {:induction false} OnlyFrameLines(lines: seq<string>)
    requires forall i :: 0 <= i < |lines| ==> !MayBeProgress(lines[i])
    ensures ProgressLines(lines) == []
    decreases |lines|
  {
    if |lines| > 0 {
      OnlyFrameLines(lines[..|lines| - 1]);
    }
  }

  /** Records come out in the order of their lines: the output of a split stream is the concatenation. */
  lemma {:induction false} ProgressLinesAppend(a: seq<string>, b: seq<string>)
    ensures ProgressLines(a + b) == ProgressLines(a) + ProgressLines(b)
    decreases |b|
  {
    if |b| == 0 {
      assert a + b == a;
    } else {
      var b', last := b[..|b| - 1], b[|b| - 1];
      assert b == b' + [last];
      assert a + b == (a + b') + [last];
      ProgressLinesSnoc(a + b', last);
      ProgressLinesSnoc(b', last);
      ProgressLinesAppend(a, b');
    }
  }

  lemma ProgressLinesSnoc(init: seq<string>, line: string)
    ensures ProgressLines(init + [line]) == ProgressLines(init)
      + (if MayBeProgress(line) && ProgressOf(line).Ok? then [ProgressOf(line).value] else [])
  {
    var lines := init + [line];
    assert lines[..|lines| - 1] == init;
    assert lines[|lines| - 1] == line;
  }

  /** `ParseOutput` keeps the last five lines of the stream, each in the slot of its line number. */
  lemma OutputTailHoldsRecent(lines: seq<string>)
    ensures forall t :: 0 <= t < |lines| && |lines| <= t + TailSize ==> Window(lines, TailSize)[t % TailSize] == lines[t]
    ensures forall j :: |lines| <= j < TailSize ==> Window(lines, TailSize)[j] == ""
  {
    WindowHoldsRecent(lines, TailSize);
  }
}
