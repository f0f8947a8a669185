/**
 * The encoder: a command line, and the way `Start` cuts it into the argument vector handed to
 * `exec.Command`. The graph of `-filter_complex "..."` may hold spaces, so it is taken out
 * before the split and written back afterwards as a single argument.
 */
module Encoders {
  import opened Wrappers
  import opened Errors
  import opened Text

  /** `Encoder`, reduced to its command line; the channels, the context and the child process are not modelled. */
  datatype Encoder = Encoder(cmd: string)

  /** `NewEncoder`: the encoder runs exactly the command it is given. */
  function NewEncoder(cmd: string): (e: Encoder)
    ensures GetCommandLine(e) == cmd
  {
    Encoder(cmd)
  }

  function GetCommandLine(e: Encoder): string {
    e.cmd
  }

  // ---------------------------------------------------------------- finding the graph

  const Flag := "-filter_complex"
  /** The literal part of the pattern `-filter_complex "(.+?)"` before its group. */
  const QuotedFlag := Flag + " \""

  /**
   * The leftmost match of `-filter_complex "(.+?)"` that starts at `i` or later, as the bounds
   * of its group. The lazy group takes at least one character and stops at the first quote
   * after that; `.` does not match a newline, so a newline before that quote fails the match
   * at this start.
   */
  function MatchFrom(s: string, i: nat): (r: Option<(nat, nat)>)
    ensures r.Some? ==> i + |QuotedFlag| <= r.value.0 < r.value.1 < |s|
    decreases |s| - i
  {
    if i + |QuotedFlag| > |s| then None
    else if OccursAt(s, QuotedFlag, i) && GroupAt(s, i + |QuotedFlag|).Some? then
      Some((i + |QuotedFlag|, GroupAt(s, i + |QuotedFlag|).value))
    else MatchFrom(s, i + 1)
  }

  /** A match is preceded by the flag and its quote. */
  lemma {:induction false} MatchFromFlag(s: string, i: nat)
    ensures MatchFrom(s, i).Some? ==> OccursAt(s, QuotedFlag, MatchFrom(s, i).value.0 - |QuotedFlag|)
    decreases |s| - i
  {
    if i + |QuotedFlag| <= |s| && !(OccursAt(s, QuotedFlag, i) && GroupAt(s, i + |QuotedFlag|).Some?) {
      MatchFromFlag(s, i + 1);
    }
  }

  /** The group of a match is the one `GroupAt` finds after the flag. */
  lemma {:induction false} MatchFromGroup(s: string, i: nat)
    ensures MatchFrom(s, i).Some? ==> GroupAt(s, MatchFrom(s, i).value.0) == Some(MatchFrom(s, i).value.1)
    decreases |s| - i
  {
    if i + |QuotedFlag| <= |s| && !(OccursAt(s, QuotedFlag, i) && GroupAt(s, i + |QuotedFlag|).Some?) {
      MatchFromGroup(s, i + 1);
    }
  }

  /**
   * The end of the group that starts at `b`, right after the flag and its quote: the first
   * quote after the group's first character, when no newline comes before it.
   */
  function GroupAt(s: string, b: nat): (r: Option<nat>)
    ensures r.Some? ==> (b < r.value < |s| && s[r.value] == '"' && '\n' !in s[b..r.value]
                          && forall k :: b < k < r.value ==> s[k] != '"')
  {
    match IndexOfChar(s, '"', b + 1)
    case Some(e) => if '\n' !in s[b..e] then Some(e) else None
    case None => None
  }

  /** The group of the first match, `matches[0][1]`, or `None` when `hasComplexFilter` is false. */
  function FindFilterGraph(s: string): (r: Option<string>)
    ensures r.Some? ==> |r.value| > 0 && '\n' !in r.value && '"' !in r.value[1..]
  {
    match MatchFrom(s, 0)
    case None => None
    case Some((b, e)) =>
      MatchFromGroup(s, 0);
      var g := s[b..e];
      assert forall k :: 0 <= k < |g[1..]| ==> g[1..][k] == s[b + 1 + k];
      Some(g)
  }

  // ---------------------------------------------------------------- the argument vector

  /**
   * The loop of `Start` from index `i` on: every argument starting with `-filter_complex`
   * has its successor replaced by the graph. The loop reads the slice as it is being
   * rewritten, and a flag in the last position indexes past the end, a panic in Go.
   */
  function OverwriteFrom(a: seq<string>, i: nat, g: string): (r: Result<seq<string>, Failure>)
    ensures r.Ok? ==> |r.value| == |a| && (i <= |a| ==> r.value[..i] == a[..i])
    ensures r.Err? ==> r.error == ArgumentIndexOutOfRange
    decreases |a| - i
  {
    if i >= |a| then Ok(a)
    else if HasPrefix(a[i], Flag) then
      if i + 1 == |a| then Err(ArgumentIndexOutOfRange)
      else
        var r := OverwriteFrom(a[i + 1 := g], i + 1, g);
        assert r.Ok? ==> r.value[..i] == r.value[..i + 1][..i];
        r
    else
      var r := OverwriteFrom(a, i + 1, g);
      assert r.Ok? ==> r.value[..i] == r.value[..i + 1][..i];
      r
  }

  /**
   * Lines 39-59 of `Start`: collapse whitespace, take the graph out, split on spaces, drop the
   * program name and write the graph back after each `-filter_complex`.
   */
  function Arguments(cmd: string): Result<seq<string>, Failure> {
    var s := CollapseSpaces(cmd);
    match FindFilterGraph(s)
    case None => Ok(Split(s, ' ')[1..])
    case Some(g) => OverwriteFrom(Split(ReplaceFirst(s, g, "fg"), ' ')[1..], 0, g)
  }

  /** The same computation as `Start` performs it, rewriting the slice in place. */
  method SplitArguments(cmd: string) returns (r: Result<seq<string>, Failure>)
    ensures r == Arguments(cmd)
  {
    var s := CollapseSpaces(cmd);
    var m := FindFilterGraph(s);
    if m.None? {
      return Ok(Split(s, ' ')[1..]);
    }
    var g := m.value;
    var toks := Split(ReplaceFirst(s, g, "fg"), ' ')[1..];
    var a := new string[|toks|](k requires 0 <= k < |toks| => toks[k]);
    assert a[..] == toks;
    var i := 0;
    while i < a.Length
      invariant 0 <= i <= a.Length
      invariant OverwriteFrom(a[..], i, g) == OverwriteFrom(toks, 0, g)
    {
      if HasPrefix(a[i], Flag) {
        if i + 1 == a.Length {
          return Err(ArgumentIndexOutOfRange);
        }
        a[i + 1] := g;
      }
      i := i + 1;
    }
    return Ok(a[..]);
  }

  // ---------------------------------------------------------------- properties

  /** Arguments that are not flags are passed over. */
  lemma {:induction false} OverwriteSkip(a: seq<string>, i: nat, j: nat, g: string)
    requires i <= j <= |a|
    requires forall k :: i <= k < j ==> !HasPrefix(a[k], Flag)
    ensures OverwriteFrom(a, i, g) == OverwriteFrom(a, j, g)
    decreases j - i
  {
    if i < j {
      OverwriteSkip(a, i + 1, j, g);
    }
  }

  /**
   * A `-filter_complex` in the last position makes `Start` index past the end, unless the
   * argument before it is itself a flag whose graph overwrites it.
   */
  lemma {:induction false} TrailingFlagFails(a: seq<string>, i: nat, g: string)
    requires i < |a| && HasPrefix(a[|a| - 1], Flag) && !HasPrefix(g, Flag)
    requires i < |a| - 1 ==> !HasPrefix(a[|a| - 2], Flag)
    ensures OverwriteFrom(a, i, g) == Err(ArgumentIndexOutOfRange)
    decreases |a| - i
  {
    if i < |a| - 1 {
      if HasPrefix(a[i], Flag) {
        var b := a[i + 1 := g];
        assert b[|b| - 1] == a[|a| - 1];
        if i + 1 < |b| - 1 {
          assert b[|b| - 2] == if i + 1 == |b| - 2 then g else a[|a| - 2];
        }
        TrailingFlagFails(b, i + 1, g);
      } else {
        TrailingFlagFails(a, i + 1, g);
      }
    }
  }

  lemma {:induction false} MatchFromSkip(s: string, i: nat, j: nat)
    requires i <= j
    requires forall k :: i <= k < j ==> !OccursAt(s, QuotedFlag, k)
    ensures MatchFrom(s, i) == MatchFrom(s, j)
    decreases j - i
  {
    if i < j {
      MatchFromSkip(s, i + 1, j);
      if i + |QuotedFlag| > |s| {
        assert j + |QuotedFlag| > |s|;
      }
    }
  }

  lemma QuotedFlagShape()
    ensures |Flag| == 15 && |QuotedFlag| == 17 && QuotedFlag[16] == '"' && QuotedFlag[15] == ' '
    ensures forall k :: 0 <= k < |Flag| ==> Flag[k] != '"' && !IsReSpace(Flag[k])
    ensures forall k :: 0 <= k < 16 ==> QuotedFlag[k] != '"'
    ensures QuotedFlag == Flag + " " + "\""
  {
  }

  /** A command with no quote has no graph to protect. */
  lemma NoQuoteNoMatch(s: string)
    requires '"' !in s
    ensures MatchFrom(s, 0).None?
  {
    QuotedFlagShape();
    forall k | 0 <= k ensures !OccursAt(s, QuotedFlag, k) {
      if k + 17 <= |s| {
        assert s[k + 16] != '"';
        assert s[k..k + 17][16] == s[k + 16];
      }
    }
    MatchFromSkip(s, 0, |s|);
  }

  /**
   * Without a graph, the arguments are the space-separated words after the program name,
   * and the program name followed by them gives the command back.
   */
  lemma ArgumentsWithoutGraph(cmd: string)
    requires SingleSpaced(cmd) && '"' !in cmd
    ensures Arguments(cmd) == Ok(Split(cmd, ' ')[1..])
    ensures Join([Split(cmd, ' ')[0]] + Arguments(cmd).value, " ") == cmd
  {
    CollapseSingleSpaced(cmd);
    NoQuoteNoMatch(cmd);
    JoinSplit(cmd, ' ');
    var parts := Split(cmd, ' ');
    assert [parts[0]] + parts[1..] == parts;
  }

  /** The command `Builder` writes when a graph is set: `head -filter_complex "g" tail`. */
  function GraphCommand(head: string, g: string, tail: string): string {
    head + " " + QuotedFlag + g + "\" " + tail
  }

  /** The pieces of a graph command, with the flag text left abstract. */
  lemma PiecesSingleSpaced(head: string, q: string, g: string, tail: string)
    requires SingleSpaced(head) && SingleSpaced(q) && SingleSpaced(g) && SingleSpaced(tail)
    requires |q| > 0 && !IsReSpace(q[0]) && !IsReSpace(q[|q| - 1])
    requires |head| > 0 ==> !IsReSpace(head[|head| - 1])
    requires |tail| > 0 ==> !IsReSpace(tail[0])
    ensures SingleSpaced(head + " " + q + g + "\" " + tail)
  {
    SingleSpacedAppend(head, " ");
    SingleSpacedAppend(head + " ", q);
    SingleSpacedAppend(head + " " + q, g);
    SingleSpacedAppend(head + " " + q + g, "\" ");
    SingleSpacedAppend(head + " " + q + g + "\" ", tail);
  }

  lemma QuotedFlagSingleSpaced()
    ensures SingleSpaced(QuotedFlag)
  {
    QuotedFlagShape();
  }

  lemma GraphCommandSingleSpaced(head: string, g: string, tail: string)
    requires SingleSpaced(head) && SingleSpaced(g) && SingleSpaced(tail)
    requires |head| > 0 ==> !IsReSpace(head[|head| - 1])
    requires |tail| > 0 ==> !IsReSpace(tail[0])
    ensures SingleSpaced(GraphCommand(head, g, tail))
  {
    QuotedFlagShape();
    QuotedFlagSingleSpaced();
    PiecesSingleSpaced(head, QuotedFlag, g, tail);
  }

  /** Where each piece of `head + " " + q + g + "\" " + tail` sits. */
  lemma PiecesAt(head: string, q: string, g: string, tail: string)
    ensures var s := head + " " + q + g + "\" " + tail;
            var at := |head| + 1;
            var b := at + |q|;
            var e := b + |g|;
            |s| == e + 2 + |tail| && s[..|head|] == head && s[|head|] == ' ' && s[at..b] == q
            && s[b..e] == g && s[e] == '"' && s[e + 1] == ' ' && s[e + 2..] == tail
  {
  }

  /** The quote of a pattern occurrence at `k` sits at `k + 16`. */
  lemma QuotedFlagNeedsQuote(s: string, k: nat)
    requires k + 17 > |s| || s[k + 16] != '"'
    ensures !OccursAt(s, QuotedFlag, k)
  {
    QuotedFlagShape();
    if k + 17 <= |s| {
      assert s[k..k + 17][16] == s[k + 16];
    }
  }

  /** Before `head + " "` ends there is no quote, so no occurrence of the pattern starts there. */
  lemma NoEarlierFlag(s: string, head: string)
    requires |head| + 1 + |QuotedFlag| <= |s| && s[..|head|] == head && s[|head|] == ' '
    requires s[|head| + 1..|head| + 1 + |QuotedFlag|] == QuotedFlag && '"' !in head
    ensures forall k :: 0 <= k < |head| + 1 ==> !OccursAt(s, QuotedFlag, k)
  {
    QuotedFlagShape();
    var at := |head| + 1;
    forall k | 0 <= k < at ensures !OccursAt(s, QuotedFlag, k) {
      if k + 16 < |head| {
        assert s[k + 16] == s[..|head|][k + 16];
      } else if k + 16 > |head| {
        assert s[k + 16] == s[at..at + |QuotedFlag|][k + 16 - at];
      }
      QuotedFlagNeedsQuote(s, k);
    }
  }

  /** The first occurrence of the pattern at `at`, followed by `g` and a quote, yields `g`. */
  lemma FindsGraphAt(s: string, at: nat, g: string)
    requires OccursAt(s, QuotedFlag, at) && forall k :: 0 <= k < at ==> !OccursAt(s, QuotedFlag, k)
    requires at + |QuotedFlag| + |g| < |s| && s[at + |QuotedFlag|..at + |QuotedFlag| + |g|] == g
    requires s[at + |QuotedFlag| + |g|] == '"'
    requires |g| > 0 && '"' !in g[1..] && '\n' !in g
    ensures FindFilterGraph(s) == Some(g)
  {
    var b, e := at + |QuotedFlag|, at + |QuotedFlag| + |g|;
    MatchFromSkip(s, 0, at);
    forall k | b + 1 <= k < e ensures s[k] != '"' {
      assert s[k] == s[b..e][k - b];
      assert s[k] == g[1..][k - b - 1];
    }
    IndexOfCharAt(s, '"', b + 1, e);
  }

  /** The graph found in such a command is `g` itself. */
  lemma FindsGraph(head: string, g: string, tail: string)
    requires |g| > 0 && '"' !in head && '"' !in g[1..] && '\n' !in g
    ensures FindFilterGraph(GraphCommand(head, g, tail)) == Some(g)
  {
    var s := GraphCommand(head, g, tail);
    PiecesAt(head, QuotedFlag, g, tail);
    NoEarlierFlag(s, head);
    FindsGraphAt(s, |head| + 1, g);
  }

  lemma SpacedAssoc(head: string, w: string, x: string, tail: string)
    ensures head + " " + w + " " + x + " " + tail == head + [' '] + (w + [' '] + (x + [' '] + tail))
  {
  }

  /** Splitting the pieces around two space-free words. */
  lemma PiecesSplit(head: string, w: string, x: string, tail: string)
    requires ' ' !in w && ' ' !in x
    ensures Split(head + " " + w + " " + x + " " + tail, ' ') == Split(head, ' ') + [w, x] + Split(tail, ' ')
  {
    var t1 := x + [' '] + tail;
    var t2 := w + [' '] + t1;
    var t3 := head + [' '] + t2;
    var h, st := Split(head, ' '), Split(tail, ' ');
    assert Split(t1, ' ') == [x] + st by {
      SplitAppendSeparator(x, tail, ' ');
      SplitNoSeparator(x, ' ');
    }
    assert Split(t2, ' ') == [w] + ([x] + st) by {
      SplitAppendSeparator(w, t1, ' ');
      SplitNoSeparator(w, ' ');
    }
    assert Split(t3, ' ') == h + ([w] + ([x] + st)) by {
      SplitAppendSeparator(head, t2, ' ');
    }
    SpacedAssoc(head, w, x, tail);
    Regroup(h, w, x, st);
  }

  lemma Regroup(h: seq<string>, w: string, x: string, t: seq<string>)
    ensures h + ([w] + ([x] + t)) == h + [w, x] + t
  {
  }

  lemma ReplacedAssoc(head: string, tail: string)
    ensures head + " " + QuotedFlag + "fg" + "\" " + tail == head + " " + Flag + " " + "\"fg\"" + " " + tail
  {
    QuotedFlagShape();
  }

  /** With the graph replaced by `fg`, the split sees one word per flag and per placeholder. */
  lemma ReplacedSplit(head: string, tail: string)
    ensures Split(head + " " + QuotedFlag + "fg" + "\" " + tail, ' ')
            == Split(head, ' ') + [Flag, "\"fg\""] + Split(tail, ' ')
  {
    QuotedFlagShape();
    assert ' ' !in "\"fg\"";
    PiecesSplit(head, Flag, "\"fg\"", tail);
    ReplacedAssoc(head, tail);
  }

  /** One flag among plain words: its successor becomes the graph, and nothing else changes. */
  lemma OverwriteOneFlag(xs: seq<string>, placeholder: string, ys: seq<string>, g: string)
    requires forall t :: t in xs ==> !HasPrefix(t, Flag)
    requires forall t :: t in ys ==> !HasPrefix(t, Flag)
    requires !HasPrefix(g, Flag)
    ensures OverwriteFrom(xs + [Flag, placeholder] + ys, 0, g) == Ok(xs + [Flag, g] + ys)
  {
    var toks := xs + [Flag, placeholder] + ys;
    var n := |xs|;
    forall k | 0 <= k < n ensures !HasPrefix(toks[k], Flag) {
      assert toks[k] == xs[k];
    }
    OverwriteSkip(toks, 0, n, g);
    assert toks[n] == Flag;
    var after := toks[n + 1 := g];
    assert after == xs + [Flag, g] + ys;
    forall k | n + 1 <= k < |after| ensures !HasPrefix(after[k], Flag) {
      if k > n + 1 { assert after[k] == ys[k - n - 2]; }
    }
    OverwriteSkip(after, n + 1, |after|, g);
  }

  lemma SingleSpacedNoNewline(g: string)
    requires SingleSpaced(g)
    ensures '\n' !in g
  {
    forall k | 0 <= k < |g| ensures g[k] != '\n' {
      assert g[k] == '\n' ==> IsReSpace(g[k]);
    }
  }

  /** `strings.Replace(..., g, "fg", 1)` on a graph command whose first `g` is the graph. */
  lemma ReplaceGraph(head: string, g: string, tail: string)
    requires |g| > 0
    requires forall j :: 0 <= j < |head| + 1 + |QuotedFlag| ==> !OccursAt(GraphCommand(head, g, tail), g, j)
    ensures ReplaceFirst(GraphCommand(head, g, tail), g, "fg") == head + " " + QuotedFlag + "fg" + "\" " + tail
  {
    var pre, post := head + " " + QuotedFlag, "\" " + tail;
    assert GraphCommand(head, g, tail) == pre + g + post;
    ReplaceFirstAt(pre, g, post, "fg");
    assert pre + "fg" + post == head + " " + QuotedFlag + "fg" + "\" " + tail;
  }

  /**
   * The round trip the special case exists for: a graph with spaces in it reaches FFmpeg as
   * the one argument after `-filter_complex`, and every other word of a single-spaced command
   * becomes one argument, in order. The condition on where `g` first occurs is the source's
   * own: `strings.Replace` replaces the graph's first occurrence, wherever that is.
   */
  lemma ArgumentsWithGraph(s: string, g: string)
    requires CollapseSpaces(s) == s && FindFilterGraph(s) == Some(g)
    ensures Arguments(s) == OverwriteFrom(Split(ReplaceFirst(s, g, "fg"), ' ')[1..], 0, g)
  {
  }

  lemma DropProgramName(hs: seq<string>, mid: seq<string>, ts: seq<string>)
    requires |hs| > 0
    ensures (hs + mid + ts)[1..] == hs[1..] + mid + ts
  {
  }

  lemma ArgumentsRoundTrip(head: string, g: string, tail: string)
    requires SingleSpaced(head) && SingleSpaced(g) && SingleSpaced(tail)
    requires |head| > 0 ==> !IsReSpace(head[|head| - 1])
    requires |tail| > 0 ==> !IsReSpace(tail[0])
    requires '"' !in head && '"' !in g && |g| > 0 && !HasPrefix(g, Flag)
    requires forall t :: t in Split(head, ' ')[1..] ==> !HasPrefix(t, Flag)
    requires forall t :: t in Split(tail, ' ') ==> !HasPrefix(t, Flag)
    requires forall j :: 0 <= j < |head| + 1 + |QuotedFlag| ==> !OccursAt(GraphCommand(head, g, tail), g, j)
    ensures Arguments(GraphCommand(head, g, tail)) == Ok(Split(head, ' ')[1..] + [Flag, g] + Split(tail, ' '))
  {
    var s := GraphCommand(head, g, tail);
    GraphCommandSingleSpaced(head, g, tail);
    CollapseSingleSpaced(s);
    SingleSpacedNoNewline(g);
    assert '"' !in g[1..];
    FindsGraph(head, g, tail);
    ArgumentsWithGraph(s, g);
    ReplaceGraph(head, g, tail);
    ReplacedSplit(head, tail);
    var hs, ts := Split(head, ' '), Split(tail, ' ');
    DropProgramName(hs, [Flag, "\"fg\""], ts);
    OverwriteOneFlag(hs[1..], "\"fg\"", ts, g);
  }
}
