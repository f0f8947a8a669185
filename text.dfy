/**
 * The pieces of Go's `strings`, `strconv`, `fmt` and `regexp` that the job runner relies on,
 * written out for the inputs it gives them. Characters stand for bytes one to one.
 */
module Text {
  import opened Wrappers

  // ---------------------------------------------------------------- character classes

  predicate IsDigit(c: char) { '0' <= c <= '9' }

  predicate IsAsciiLetter(c: char) { 'a' <= c <= 'z' || 'A' <= c <= 'Z' }

  /** RE2's `\s`, i.e. `[\t\n\f\r ]` (no vertical tab). */
  predicate IsReSpace(c: char) {
    c == '\t' || c == '\n' || c == '\U{000C}' || c == '\r' || c == ' '
  }

  /** Go's `unicode.IsSpace`, which `strings.TrimSpace` uses. */
  predicate IsUnicodeSpace(c: char) {
    c == '\t' || c == '\n' || c == '\U{000B}' || c == '\U{000C}' || c == '\r' || c == ' '
    || c == '\U{0085}' || c == '\U{00A0}' || c == '\U{1680}' || ('\U{2000}' <= c <= '\U{200A}')
    || c == '\U{2028}' || c == '\U{2029}' || c == '\U{202F}' || c == '\U{205F}' || c == '\U{3000}'
  }

  function ToLowerAscii(c: char): (r: char)
    ensures IsAsciiLetter(c) ==> 'a' <= r <= 'z'
    ensures !('A' <= c <= 'Z') ==> r == c
  {
    if 'A' <= c <= 'Z' then (c as int - 'A' as int + 'a' as int) as char else c
  }

  /** `strings.ToLower` restricted to ASCII letters, the only letters the size pattern admits. */
  function ToLower(s: string): (r: string)
    ensures |r| == |s|
    ensures forall i :: 0 <= i < |s| ==> r[i] == ToLowerAscii(s[i])
  {
    if |s| == 0 then "" else [ToLowerAscii(s[0])] + ToLower(s[1..])
  }

  // ---------------------------------------------------------------- prefixes and suffixes

  predicate HasPrefix(s: string, prefix: string) { prefix <= s }

  predicate HasSuffix(s: string, suffix: string) {
    |suffix| <= |s| && s[|s| - |suffix|..] == suffix
  }

  /** `strings.TrimSuffix`: removes one copy of `suffix` when `s` ends with it. */
  function TrimSuffix(s: string, suffix: string): (r: string)
    ensures HasSuffix(s, suffix) ==> r + suffix == s
    ensures !HasSuffix(s, suffix) ==> r == s
  {
    if HasSuffix(s, suffix) then s[..|s| - |suffix|] else s
  }

  function TrimLeftSpace(s: string): (r: string)
    ensures |r| <= |s| && r == s[|s| - |r|..]
    ensures |r| > 0 ==> !IsUnicodeSpace(r[0])
  {
    if |s| > 0 && IsUnicodeSpace(s[0]) then TrimLeftSpace(s[1..]) else s
  }

  function TrimRightSpace(s: string): (r: string)
    ensures r <= s
    ensures |r| > 0 ==> !IsUnicodeSpace(r[|r| - 1])
  {
    if |s| > 0 && IsUnicodeSpace(s[|s| - 1]) then TrimRightSpace(s[..|s| - 1]) else s
  }

  /** `strings.TrimSpace`. */
  function TrimSpace(s: string): (r: string)
    ensures |r| <= |s|
    ensures |r| > 0 ==> !IsUnicodeSpace(r[0]) && !IsUnicodeSpace(r[|r| - 1])
  {
    TrimRightSpace(TrimLeftSpace(s))
  }

  lemma {:induction false} TrimSpaceNoop(s: string)
    requires |s| > 0 ==> !IsUnicodeSpace(s[0]) && !IsUnicodeSpace(s[|s| - 1])
    ensures TrimSpace(s) == s
  {
  }

  // ---------------------------------------------------------------- decimal numbers

  function DigitChar(d: nat): (c: char)
    requires d < 10
    ensures IsDigit(c)
  {
    ('0' as int + d) as char
  }

  function DigitValue(c: char): (d: nat)
    requires IsDigit(c)
    ensures d < 10 && DigitChar(d) == c
  {
    c as int - '0' as int
  }

  predicate AllDigits(s: string) { forall i :: 0 <= i < |s| ==> IsDigit(s[i]) }

  /** `fmt.Sprintf("%d", n)` for a natural number. */
  function NatToString(n: nat): (s: string)
    ensures |s| > 0 && AllDigits(s)
    ensures n < 10 <==> |s| == 1
  {
    if n < 10 then [DigitChar(n)] else NatToString(n / 10) + [DigitChar(n % 10)]
  }

  /** The value of a run of decimal digits, most significant first. */
  function DigitsValue(s: string): nat
    requires AllDigits(s)
  {
    if |s| == 0 then 0 else 10 * DigitsValue(s[..|s| - 1]) + DigitValue(s[|s| - 1])
  }

  lemma {:induction false} NatToStringRoundTrip(n: nat)
    ensures DigitsValue(NatToString(n)) == n
  {
    if n >= 10 {
      var s := NatToString(n);
      assert s[..|s| - 1] == NatToString(n / 10);
      NatToStringRoundTrip(n / 10);
    }
  }

  lemma {:induction false} NatToStringNoLeadingZero(n: nat)
    ensures NatToString(n)[0] == '0' ==> n == 0
  {
    if n >= 10 {
      NatToStringNoLeadingZero(n / 10);
      assert NatToString(n)[0] == NatToString(n / 10)[0];
    }
  }

  /** Distinct numbers print differently, which keeps input labels such as "1" and "2" apart. */
  lemma NatToStringInjective(m: nat, n: nat)
    requires NatToString(m) == NatToString(n)
    ensures m == n
  {
    NatToStringRoundTrip(m);
    NatToStringRoundTrip(n);
  }

  function Pow10(d: nat): (p: nat)
    ensures p >= 1
  {
    if d == 0 then 1 else 10 * Pow10(d - 1)
  }

  function ZeroPad(s: string, width: nat): (r: string)
    ensures |r| == if |s| < width then width else |s|
    ensures AllDigits(s) ==> AllDigits(r)
    decreases width - |s|
  {
    if |s| < width then ZeroPad("0" + s, width) else s
  }

  /** `fmt.Sprintf("%.<d>f", x)` for a non-negative x = v / 10^d. */
  function FormatUnsigned(v: nat, d: nat): (r: string)
    ensures |r| > 0 && IsDigit(r[0])
    ensures forall i :: 0 <= i < |r| ==> IsDigit(r[i]) || r[i] == '.'
  {
    if d == 0 then NatToString(v)
    else
      var p := Pow10(d);
      var qr := DivMod(v, p);
      var whole, frac := NatToString(qr.0), ZeroPad(NatToString(qr.1), d);
      FractionShape(whole, frac);
      whole + "." + frac
  }

  /** Quotient and remainder of a natural number by a positive one. */
  function DivMod(v: nat, p: nat): (r: (nat, nat))
    requires p > 0
    ensures r.0 * p + r.1 == v && r.1 < p
  {
    (v / p, v % p)
  }

  lemma FractionShape(whole: string, frac: string)
    requires |whole| > 0 && AllDigits(whole) && AllDigits(frac)
    ensures var r := whole + "." + frac;
      IsDigit(r[0]) && forall i :: 0 <= i < |r| ==> IsDigit(r[i]) || r[i] == '.'
  {
    var r := whole + "." + frac;
    forall i | 0 <= i < |r| ensures IsDigit(r[i]) || r[i] == '.' {
      if i < |whole| { assert r[i] == whole[i]; }
      else if i > |whole| { assert r[i] == frac[i - |whole| - 1]; }
    }
  }

  /**
   * `fmt.Sprintf("%.<d>f", x)` for the value x = v / 10^d: an optional minus sign, the integer
   * part, and exactly `d` digits after the point.
   */
  function FormatFixed(v: int, d: nat): (r: string)
    ensures forall i :: 0 <= i < |r| ==> IsDigit(r[i]) || r[i] == '.' || r[i] == '-'
    ensures (v < 0) <==> (|r| > 0 && r[0] == '-')
  {
    if v < 0 then "-" + FormatUnsigned(-v, d) else FormatUnsigned(v, d)
  }

  /** A leading zero does not change the value of a run of digits. */
  lemma {:induction false} LeadingZeroValue(s: string)
    requires AllDigits(s)
    ensures AllDigits("0" + s) && DigitsValue("0" + s) == DigitsValue(s)
    decreases |s|
  {
    var t := "0" + s;
    if |s| > 0 {
      assert t[..|t| - 1] == "0" + s[..|s| - 1];
      assert t[|t| - 1] == s[|s| - 1];
      LeadingZeroValue(s[..|s| - 1]);
    } else {
      assert t[..|t| - 1] == "";
    }
  }

  lemma {:induction false} ZeroPadValue(s: string, width: nat)
    requires AllDigits(s)
    ensures DigitsValue(ZeroPad(s, width)) == DigitsValue(s)
    decreases width - |s|
  {
    if |s| < width {
      LeadingZeroValue(s);
      ZeroPadValue("0" + s, width);
    }
  }

  /** A number below 10^d takes at most d digits, so the padded fraction is exactly d wide. */
  lemma {:induction false} NatToStringWidth(n: nat, d: nat)
    requires d > 0 && n < Pow10(d)
    ensures |NatToString(n)| <= d
    decreases d
  {
    if n >= 10 {
      assert d > 1;
      NatToStringWidth(n / 10, d - 1);
    }
  }

  /**
   * Reading `FormatUnsigned(v, d)` back, for d > 0: digits, a point, exactly d digits, and
   * the integer part times 10^d plus the fraction is v again.
   */
  lemma FormatUnsignedReadBack(v: nat, d: nat)
    requires d > 0
    ensures var r := FormatUnsigned(v, d); var w := |r| - d - 1;
      |r| > d && r[w] == '.' && AllDigits(r[..w]) && AllDigits(r[w + 1..])
      && DigitsValue(r[..w]) * Pow10(d) + DigitsValue(r[w + 1..]) == v
  {
    var p := Pow10(d);
    var qr := DivMod(v, p);
    var whole, frac := NatToString(qr.0), ZeroPad(NatToString(qr.1), d);
    NatToStringWidth(qr.1, d);
    NatToStringRoundTrip(qr.0);
    NatToStringRoundTrip(qr.1);
    ZeroPadValue(NatToString(qr.1), d);
    PointReadBack(whole, frac, d, p, v);
  }

  /** The two runs of digits around the point of `whole.frac`, and the value they make with the scale p. */
  lemma PointReadBack(whole: string, frac: string, d: nat, p: nat, v: nat)
    requires |frac| == d && AllDigits(whole) && AllDigits(frac)
    requires DigitsValue(whole) * p + DigitsValue(frac) == v
    ensures var r := whole + "." + frac; var w := |r| - d - 1;
      |r| > d && r[w] == '.' && AllDigits(r[..w]) && AllDigits(r[w + 1..])
      && DigitsValue(r[..w]) * p + DigitsValue(r[w + 1..]) == v
  {
    var r := whole + "." + frac;
    assert r[..|whole|] == whole;
    assert r[|whole| + 1..] == frac;
  }

  // ---------------------------------------------------------------- join, split and counting

  /** `strings.Join`. */
  function Join(parts: seq<string>, sep: string): string {
    if |parts| == 0 then "" else if |parts| == 1 then parts[0] else parts[0] + sep + Join(parts[1..], sep)
  }

  /** `strings.Split` with a one-character separator. */
  function Split(s: string, c: char): (r: seq<string>)
    ensures |r| > 0
  {
    if |s| == 0 then [""]
    else
      var rest := Split(s[1..], c);
      if s[0] == c then [""] + rest else [[s[0]] + rest[0]] + rest[1..]
  }

  function CountChar(s: string, c: char): nat {
    if |s| == 0 then 0 else (if s[0] == c then 1 else 0) + CountChar(s[1..], c)
  }

  lemma {:induction false} CountCharAppend(a: string, b: string, c: char)
    ensures CountChar(a + b, c) == CountChar(a, c) + CountChar(b, c)
  {
    if |a| > 0 {
      assert (a + b)[1..] == a[1..] + b;
      CountCharAppend(a[1..], b, c);
    } else {
      assert a + b == b;
    }
  }

  lemma {:induction false} CountCharAbsent(s: string, c: char)
    requires c !in s
    ensures CountChar(s, c) == 0
  {
    if |s| > 0 {
      assert c !in s[1..];
      CountCharAbsent(s[1..], c);
    }
  }

  lemma {:induction false} SplitNoSeparator(s: string, c: char)
    requires c !in s
    ensures Split(s, c) == [s]
  {
    if |s| > 0 {
      assert c !in s[1..];
      SplitNoSeparator(s[1..], c);
      assert [s[0]] + s[1..] == s;
    }
  }

  /** Splitting distributes over a separator: the key step of every round trip below. */
  lemma {:induction false} SplitAppendSeparator(a: string, b: string, c: char)
    ensures Split(a + [c] + b, c) == Split(a, c) + Split(b, c)
  {
    if |a| == 0 {
      assert a + [c] + b == [c] + b;
      assert ([c] + b)[1..] == b;
    } else {
      assert (a + [c] + b)[1..] == a[1..] + [c] + b;
      SplitAppendSeparator(a[1..], b, c);
    }
  }

  /** `strings.Split(s, c)` has one more part than `s` has separators. */
  lemma {:induction false} SplitLength(s: string, c: char)
    ensures |Split(s, c)| == CountChar(s, c) + 1
  {
    if |s| > 0 {
      SplitLength(s[1..], c);
    }
  }

  lemma {:induction false} SplitPartsHaveNoSeparator(s: string, c: char)
    ensures forall p :: p in Split(s, c) ==> c !in p
  {
    if |s| > 0 {
      SplitPartsHaveNoSeparator(s[1..], c);
      var rest := Split(s[1..], c);
      if s[0] != c {
        assert c !in rest[0];
        assert c !in [s[0]] + rest[0];
        forall p | p in Split(s, c) ensures c !in p {
          if p != [s[0]] + rest[0] {
            assert p in rest[1..];
          }
        }
      }
    }
  }

  /** Joining the parts of a split gives back the original text. */
  lemma {:induction false} JoinSplit(s: string, c: char)
    ensures Join(Split(s, c), [c]) == s
  {
    if |s| > 0 {
      JoinSplit(s[1..], c);
      var rest := Split(s[1..], c);
      if s[0] == c {
        assert Join([""] + rest, [c]) == "" + [c] + Join(rest, [c]);
      } else if |rest| == 1 {
        assert Split(s, c) == [[s[0]] + rest[0]];
      } else {
        var parts := [[s[0]] + rest[0]] + rest[1..];
        assert parts[1..] == rest[1..];
        assert Join(rest, [c]) == rest[0] + [c] + Join(rest[1..], [c]);
      }
    }
  }

  /** Splitting joined parts gives back the parts, when no part holds the separator. */
  lemma {:induction false} SplitJoin(parts: seq<string>, c: char)
    requires |parts| > 0
    requires forall p :: p in parts ==> c !in p
    ensures Split(Join(parts, [c]), c) == parts
  {
    if |parts| == 1 {
      SplitNoSeparator(parts[0], c);
    } else {
      assert parts[1..][0] in parts;
      SplitJoin(parts[1..], c);
      SplitAppendSeparator(parts[0], Join(parts[1..], [c]), c);
      SplitNoSeparator(parts[0], c);
    }
  }

  lemma {:induction false} JoinAppend(xs: seq<string>, ys: seq<string>, sep: string)
    requires |xs| > 0 && |ys| > 0
    ensures Join(xs + ys, sep) == Join(xs, sep) + sep + Join(ys, sep)
  {
    if |xs| == 1 {
      assert (xs + ys)[1..] == ys;
    } else {
      assert (xs + ys)[1..] == xs[1..] + ys;
      JoinAppend(xs[1..], ys, sep);
    }
  }

  // ---------------------------------------------------------------- substrings

  predicate OccursAt(s: string, p: string, i: int) {
    0 <= i && i + |p| <= |s| && s[i..i + |p|] == p
  }

  ghost predicate Occurs(s: string, p: string) {
    exists i :: OccursAt(s, p, i)
  }

  /** The first index, from `i` on, at which `p` occurs in `s`. */
  function IndexFrom(s: string, p: string, i: nat): (r: Option<nat>)
    ensures r.Some? ==> i <= r.value && OccursAt(s, p, r.value)
    ensures r.Some? ==> forall j :: i <= j < r.value ==> !OccursAt(s, p, j)
    ensures r.None? ==> forall j :: i <= j ==> !OccursAt(s, p, j)
    decreases |s| - i
  {
    if i + |p| > |s| then None
    else if s[i..i + |p|] == p then Some(i)
    else IndexFrom(s, p, i + 1)
  }

  /** The first index, from `i` on, of the character `c`. */
  function IndexOfChar(s: string, c: char, i: nat): (r: Option<nat>)
    ensures r.Some? ==> i <= r.value < |s| && s[r.value] == c
    ensures r.Some? ==> forall k :: i <= k < r.value ==> s[k] != c
    ensures r.None? ==> forall k :: i <= k < |s| ==> s[k] != c
    decreases |s| - i
  {
    if i >= |s| then None
    else if s[i] == c then Some(i)
    else IndexOfChar(s, c, i + 1)
  }

  /** The search stops at the first occurrence: the lemma callers use to locate a delimiter. */
  lemma IndexOfCharAt(s: string, c: char, i: nat, at: nat)
    requires i <= at < |s| && s[at] == c
    requires forall k :: i <= k < at ==> s[k] != c
    ensures IndexOfChar(s, c, i) == Some(at)
  {
  }

  /** `strings.Count` for a non-empty pattern: non-overlapping occurrences, leftmost first. */
  function CountOcc(s: string, p: string): nat
    requires |p| > 0
    decreases |s|
  {
    if |s| < |p| then 0
    else if s[..|p|] == p then 1 + CountOcc(s[|p|..], p)
    else CountOcc(s[1..], p)
  }

  lemma CountOccAtStart(p: string, rest: string)
    requires |p| > 0
    ensures CountOcc(p + rest, p) == 1 + CountOcc(rest, p)
  {
    assert (p + rest)[..|p|] == p;
    assert (p + rest)[|p|..] == rest;
  }

  /** Text that cannot start the pattern is skipped over. */
  lemma {:induction false} CountOccSkip(c: string, rest: string, p: string)
    requires |p| > 0 && p[0] !in c
    ensures CountOcc(c + rest, p) == CountOcc(rest, p)
  {
    if |c| > 0 {
      var s := c + rest;
      assert s[0] == c[0];
      assert s[1..] == c[1..] + rest;
      assert p[0] !in c[1..];
      CountOccSkip(c[1..], rest, p);
      if |s| >= |p| {
        assert s[..|p|][0] != p[0];
      }
    } else {
      assert c + rest == rest;
    }
  }

  /** `strings.Replace(s, old, new, 1)`: only the first occurrence is replaced. */
  function ReplaceFirst(s: string, target: string, replacement: string): string {
    if |target| == 0 then replacement + s
    else match IndexFrom(s, target, 0)
      case None => s
      case Some(i) => s[..i] + replacement + s[i + |target|..]
  }

  /** When the first occurrence of `target` is known, the replacement is a splice there. */
  lemma ReplaceFirstAt(a: string, target: string, b: string, replacement: string)
    requires |target| > 0
    requires forall j :: 0 <= j < |a| ==> !OccursAt(a + target + b, target, j)
    ensures ReplaceFirst(a + target + b, target, replacement) == a + replacement + b
  {
    var s := a + target + b;
    assert OccursAt(s, target, |a|) by { assert s[|a|..|a| + |target|] == target; }
    var r := IndexFrom(s, target, 0);
    assert r == Some(|a|);
    assert s[..|a|] == a;
    assert s[|a| + |target|..] == b;
  }

  // ---------------------------------------------------------------- regexp rewrites

  /** Drops a leading run of `\s`. */
  function DropReSpaces(s: string): (r: string)
    ensures |r| <= |s| && r == s[|s| - |r|..]
    ensures |r| > 0 ==> !IsReSpace(r[0])
  {
    if |s| > 0 && IsReSpace(s[0]) then DropReSpaces(s[1..]) else s
  }

  /** `regexp.MustCompile(`\s+`).ReplaceAllString(s, " ")`. */
  function CollapseSpaces(s: string): string
    decreases |s|
  {
    if |s| == 0 then ""
    else if IsReSpace(s[0]) then " " + CollapseSpaces(DropReSpaces(s[1..]))
    else [s[0]] + CollapseSpaces(s[1..])
  }

  /** `regexp.MustCompile(`=\s+`).ReplaceAllString(s, "=")`. */
  function CollapseAfterEquals(s: string): string
    decreases |s|
  {
    if |s| == 0 then ""
    else if s[0] == '=' then "=" + CollapseAfterEquals(DropReSpaces(s[1..]))
    else [s[0]] + CollapseAfterEquals(s[1..])
  }

  /** The only whitespace is the plain space, and never two in a row. */
  ghost predicate SingleSpaced(s: string) {
    forall i :: 0 <= i < |s| && IsReSpace(s[i]) ==> s[i] == ' ' && (i + 1 < |s| ==> !IsReSpace(s[i + 1]))
  }

  lemma {:induction false} CollapseSingleSpaced(s: string)
    requires SingleSpaced(s)
    ensures CollapseSpaces(s) == s
  {
    if |s| > 0 {
      assert SingleSpaced(s[1..]) by {
        forall i | 0 <= i < |s[1..]| && IsReSpace(s[1..][i])
          ensures s[1..][i] == ' ' && (i + 1 < |s[1..]| ==> !IsReSpace(s[1..][i + 1]))
        {
          assert s[1..][i] == s[i + 1];
        }
      }
      CollapseSingleSpaced(s[1..]);
      if IsReSpace(s[0]) {
        assert DropReSpaces(s[1..]) == s[1..];
      }
    }
  }

  lemma SingleSpacedAppend(a: string, b: string)
    requires SingleSpaced(a) && SingleSpaced(b)
    requires |a| > 0 && |b| > 0 ==> !(IsReSpace(a[|a| - 1]) && IsReSpace(b[0]))
    ensures SingleSpaced(a + b)
  {
    var s := a + b;
    forall i | 0 <= i < |s| && IsReSpace(s[i])
      ensures s[i] == ' ' && (i + 1 < |s| ==> !IsReSpace(s[i + 1]))
    {
      if i < |a| {
        assert s[i] == a[i];
        if i + 1 < |a| { assert s[i + 1] == a[i + 1]; }
        else if i + 1 < |s| { assert s[i + 1] == b[0]; }
      } else {
        assert s[i] == b[i - |a|];
        if i + 1 < |s| { assert s[i + 1] == b[i + 1 - |a|]; }
      }
    }
  }

  /** A text made of non-empty, whitespace-free words joined by single spaces. */
  lemma {:induction false} JoinWordsSingleSpaced(words: seq<string>)
    requires forall w :: w in words ==> |w| > 0 && forall k :: 0 <= k < |w| ==> !IsReSpace(w[k])
    ensures SingleSpaced(Join(words, " "))
    ensures |words| > 0 ==>
              (|Join(words, " ")| > 0 && !IsReSpace(Join(words, " ")[0])
               && !IsReSpace(Join(words, " ")[|Join(words, " ")| - 1]))
  {
    if |words| == 1 {
      assert words[0] in words;
    } else if |words| > 1 {
      assert words[0] in words;
      JoinWordsSingleSpaced(words[1..]);
      var w, t := words[0], Join(words[1..], " ");
      SingleSpacedAppend(w, " ");
      SingleSpacedAppend(w + " ", t);
      assert Join(words, " ") == w + " " + t;
    }
  }
}
