/**
  The line-by-line pass of the Telegram formatter: headers, quotes, and code fences, which come out
  balanced whatever comes in.
 */
module TelegramLines {
  import opened Text
  import opened TelegramCleanup
  import opened TelegramFormatter

  const FENCE := "```"

  predicate IsFence(line: string) {
    FENCE <= TrimSpace(line)
  }

  /** The inline conversion of a text. */
  function Inline(t: string): string {
    TelegramOf(SegmentsFrom(t, 0))
  }

  function Header(title: string): string {
    "*" + Escaped(TrimSpace(title)) + "*"
  }

  function ConvertedLine(line: string): string {
    if "### " <= line then Header(line[4..])
    else if "## " <= line then Header(line[3..])
    else if "# " <= line then Header(line[2..])
    else if "> " <= line then ">" + Inline(line[2..])
    else if line == ">" then ">"
    else Inline(line)
  }

  /** What a line becomes, outside or inside a fence: fences keep their language hint only where they open. */
  function Emitted(line: string, inFence: bool): string {
    if IsFence(line) then if inFence then FENCE else TrimSpace(line)
    else if inFence then line
    else ConvertedLine(TrimSpace(line))
  }

  /** The lines that come out; a fence still open at the end is closed. */
  function FormattedLines(lines: seq<string>, inFence: bool): seq<string> {
    if lines == [] then if inFence then [FENCE] else []
    else [Emitted(lines[0], inFence)] + FormattedLines(lines[1..], inFence != IsFence(lines[0]))
  }

  /** The text cleaned up, converted line by line, joined and trimmed. */
  function Formatted(content: string): string {
    TrimSpace(Unlines(FormattedLines(Lines(Preprocessed(content)), false)))
  }

  method ConvertHeader(title: string) returns (out: string)
    ensures out == Header(title)
  {
    var text := EscapeText(TrimSpace(title));
    return "*" + text + "*";
  }

  method ConvertLine(line: string) returns (out: string)
    ensures out == ConvertedLine(line)
  {
    if "### " <= line {
      out := ConvertHeader(line[4..]);
    } else if "## " <= line {
      out := ConvertHeader(line[3..]);
    } else if "# " <= line {
      out := ConvertHeader(line[2..]);
    } else if "> " <= line {
      var quoted := ConvertInline(line[2..]);
      out := ">" + quoted;
    } else if line == ">" {
      out := ">";
    } else {
      out := ConvertInline(line);
    }
  }

  method Format(content: string) returns (text: string)
    ensures text == Formatted(content)
  {
    var lines := Lines(Preprocessed(content));
    var out: seq<string> := [];
    var inFence := false;
    for i := 0 to |lines|
      invariant FormattedLines(lines, false) == out + FormattedLines(lines[i..], inFence)
    {
      var line := lines[i];
      LineStep(lines, i, out, inFence);
      if IsFence(line) {
        out := out + [if inFence then FENCE else TrimSpace(line)];
        inFence := !inFence;
      } else if inFence {
        out := out + [line];
      } else {
        var converted := ConvertLine(TrimSpace(line));
        out := out + [converted];
      }
    }
    assert lines[|lines|..] == [];
    if inFence {
      out := out + [FENCE];
    }
    assert out + [] == out;
    return TrimSpace(Unlines(out));
  }

  lemma LineStep(lines: seq<string>, i: nat, before: seq<string>, open: bool)
    requires i < |lines|
    ensures before + FormattedLines(lines[i..], open) ==
            before + [Emitted(lines[i], open)] + FormattedLines(lines[i + 1..], open != IsFence(lines[i]))
  {
    assert lines[i..][1..] == lines[i + 1..];
    Associate(before, [Emitted(lines[i], open)], FormattedLines(lines[i + 1..], open != IsFence(lines[i])));
  }

  // --- Fences ---

  function FenceCount(lines: seq<string>): nat {
    if lines == [] then 0 else (if IsFence(lines[0]) then 1 else 0) + FenceCount(lines[1..])
  }

  lemma FenceCountCons(first: string, rest: seq<string>)
    ensures FenceCount([first] + rest) == (if IsFence(first) then 1 else 0) + FenceCount(rest)
  {
    assert ([first] + rest)[1..] == rest;
  }

  lemma FenceByLeft(line: string)
    ensures IsFence(line) <==> FENCE <= TrimLeft(line)
  {
    var t := TrimLeft(line);
    TrimRightSpec(t);
    if FENCE <= t {
      FenceIsNotTrimmed(t, |TrimRight(t)|);
    }
  }

  lemma BlankTail(t: string, n: nat, i: nat)
    requires n <= i < |t| && IsBlank(t[n..])
    ensures IsSpace(t[i])
  {
    assert t[n..][i - n] == t[i];
  }

  lemma FenceIsNotTrimmed(t: string, n: nat)
    requires n <= |t| && FENCE <= t && IsBlank(t[n..])
    ensures n >= 3 && FENCE <= t[..n]
  {
    assert t[2] == FENCE[2];
    if n <= 2 {
      BlankTail(t, n, 2);
    }
  }

  lemma TightIsFence(line: string)
    requires line != "" ==> !IsSpace(line[0])
    ensures IsFence(line) <==> FENCE <= line
  {
    FenceByLeft(line);
  }

  lemma TrimmedStartsTight(line: string)
    ensures TrimSpace(line) != "" ==> !IsSpace(TrimSpace(line)[0])
  {
    var a, b := TrimSpaceSpec(line);
  }

  /** What a segment's conversion starts with: a backtick only for code, and white space only for white space. */
  lemma SegmentStart(t: string, i: nat)
    requires i < |t|
    ensures var out := Telegram(SegmentAt(t, i));
            out != "" && (out[0] == '`' ==> SegmentAt(t, i).Code? && t[i] == '`') && (IsSpace(out[0]) ==> IsSpace(t[i]))
  {
  }

  lemma InlineStart(t: string, i: nat)
    requires i < |t|
    ensures var out := TelegramOf(SegmentsFrom(t, i));
            out != "" && (out[0] == '`' ==> t[i] == '`') && (IsSpace(out[0]) ==> IsSpace(t[i]))
  {
    SegmentStart(t, i);
    TelegramCons(SegmentAt(t, i), SegmentsFrom(t, i + Length(SegmentAt(t, i))));
  }

  /** Converting a line that is not a fence does not make one. */
  lemma InlineIsNoFence(t: string)
    requires !(FENCE <= t) && (t != "" ==> !IsSpace(t[0]))
    ensures !IsFence(Inline(t))
  {
    if t == "" {
      TightIsFence("");
    } else {
      InlineStart(t, 0);
      TightIsFence(Inline(t));
      var s := SegmentAt(t, 0);
      SegmentStart(t, 0);
      TelegramCons(s, SegmentsFrom(t, Length(s)));
      if s.Code? {
        SegmentIsSlice(t, 0);
        if Length(s) == 2 && |t| > 2 {
          InlineStart(t, 2);
        }
      }
    }
  }

  lemma ConvertedIsNoFence(line: string)
    requires !IsFence(line)
    ensures !IsFence(ConvertedLine(TrimSpace(line)))
  {
    var t := TrimSpace(line);
    TrimmedStartsTight(line);
    InlineIsNoFence(t);
    TightIsFence(ConvertedLine(t));
  }

  lemma EmittedIsFence(line: string, inFence: bool)
    ensures IsFence(Emitted(line, inFence)) <==> IsFence(line)
  {
    if !IsFence(line) {
      ConvertedIsNoFence(line);
    } else if inFence {
      TightIsFence(FENCE);
    } else {
      TrimmedStartsTight(line);
      TightIsFence(TrimSpace(line));
    }
  }

  /** Outside a fence an even number of fence lines comes out, inside an odd number. */
  lemma {:induction false} FencesAreBalanced(lines: seq<string>, inFence: bool)
    ensures FenceCount(FormattedLines(lines, inFence)) % 2 == if inFence then 1 else 0
  {
    if lines == [] {
      LastFence();
    } else {
      FencesAreBalanced(lines[1..], inFence != IsFence(lines[0]));
      NextFence(lines[0], inFence, FormattedLines(lines[1..], inFence != IsFence(lines[0])));
    }
  }

  lemma LastFence()
    ensures FenceCount([FENCE]) == 1
  {
    FenceCountCons(FENCE, []);
    TightIsFence(FENCE);
  }

  lemma NextFence(line: string, inFence: bool, rest: seq<string>)
    requires FenceCount(rest) % 2 == if inFence != IsFence(line) then 1 else 0
    ensures FenceCount([Emitted(line, inFence)] + rest) % 2 == if inFence then 1 else 0
  {
    FenceCountCons(Emitted(line, inFence), rest);
    EmittedIsFence(line, inFence);
  }

  // --- The text they make ---

  lemma {:induction false} EscapedNoNewline(s: string)
    requires NoNewline(s)
    ensures NoNewline(Escaped(s))
  {
    if s != "" {
      assert s[0] in s && NoNewline(s[1..]);
      EscapedNoNewline(s[1..]);
    }
  }

  lemma SliceNoNewline(s: string, a: nat, b: nat)
    requires NoNewline(s) && a <= b <= |s|
    ensures NoNewline(s[a..b])
  {
  }

  lemma ConcatNoNewline(a: string, b: string)
    requires NoNewline(a) && NoNewline(b)
    ensures NoNewline(a + b)
  {
  }

  lemma SegmentNoNewline(s: Segment)
    requires NoNewline(Markdown(s))
    ensures NoNewline(Telegram(s))
  {
    match s
    case Code(_) =>
    case Twice(_, body) => EscapedNoNewline(body);
    case Once(_, body) => EscapedNoNewline(body);
    case Link(text, _) => EscapedNoNewline(text);
    case Plain(c) => assert c in [c];
  }

  lemma {:induction false} InlineNoNewline(t: string, i: nat)
    requires i <= |t| && NoNewline(t)
    ensures NoNewline(TelegramOf(SegmentsFrom(t, i)))
    decreases |t| - i
  {
    if i < |t| {
      var s := SegmentAt(t, i);
      SegmentIsSlice(t, i);
      SliceNoNewline(t, i, i + Length(s));
      SegmentNoNewline(s);
      InlineNoNewline(t, i + Length(s));
      TelegramCons(s, SegmentsFrom(t, i + Length(s)));
      ConcatNoNewline(Telegram(s), TelegramOf(SegmentsFrom(t, i + Length(s))));
    }
  }

  lemma TrimNoNewline(s: string)
    requires NoNewline(s)
    ensures NoNewline(TrimSpace(s))
  {
    var a, b := TrimSpaceSpec(s);
  }

  lemma HeaderNoNewline(title: string)
    requires NoNewline(title)
    ensures NoNewline(Header(title))
  {
    TrimNoNewline(title);
    EscapedNoNewline(TrimSpace(title));
  }

  lemma ConvertedNoNewline(line: string)
    requires NoNewline(line)
    ensures NoNewline(ConvertedLine(line))
  {
    if "### " <= line {
      HeaderNoNewline(line[4..]);
    } else if "## " <= line {
      HeaderNoNewline(line[3..]);
    } else if "# " <= line {
      HeaderNoNewline(line[2..]);
    } else if "> " <= line {
      InlineNoNewline(line[2..], 0);
    } else {
      InlineNoNewline(line, 0);
    }
  }

  lemma {:induction false} FormattedNoNewline(lines: seq<string>, inFence: bool, i: nat)
    requires forall k :: 0 <= k < |lines| ==> NoNewline(lines[k])
    requires i < |FormattedLines(lines, inFence)|
    ensures NoNewline(FormattedLines(lines, inFence)[i])
  {
    if lines != [] {
      if i == 0 {
        TrimNoNewline(lines[0]);
        ConvertedNoNewline(TrimSpace(lines[0]));
      } else {
        FormattedNoNewline(lines[1..], inFence != IsFence(lines[0]), i - 1);
      }
    }
  }

  lemma SpaceIsNoFence(c: char, line: string)
    requires IsSpace(c)
    ensures IsFence([c] + line) <==> IsFence(line)
  {
    assert ([c] + line)[1..] == line;
  }

  /** Trimming on the left removes no fence. */
  lemma {:induction false} TrimLeftKeepsFences(s: string)
    ensures FenceCount(Lines(TrimLeft(s))) == FenceCount(Lines(s))
  {
    if s != "" && IsSpace(s[0]) {
      TrimLeftKeepsFences(s[1..]);
      var rest := Lines(s[1..]);
      if s[0] == '\n' {
        assert ([""] + rest)[1..] == rest && !IsFence("");
      } else {
        SpaceIsNoFence(s[0], rest[0]);
        assert ([[s[0]] + rest[0]] + rest[1..])[1..] == rest[1..];
      }
    }
  }

  lemma {:induction false} FenceCountSnoc(lines: seq<string>, last: string)
    ensures FenceCount(lines + [last]) == FenceCount(lines) + if IsFence(last) then 1 else 0
  {
    if lines == [] {
      assert lines + [last] == [last] && [last][1..] == [];
    } else {
      FenceCountSnoc(lines[1..], last);
      assert (lines + [last])[1..] == lines[1..] + [last];
    }
  }

  lemma {:induction false} TrimLeftSnoc(line: string, c: char)
    requires IsSpace(c)
    ensures TrimLeft(line + [c]) == if IsBlank(line) then "" else TrimLeft(line) + [c]
  {
    if line == "" {
      assert line + [c] == [c] && [c][1..] == "";
    } else if IsSpace(line[0]) {
      TrimLeftSnoc(line[1..], c);
      assert (line + [c])[1..] == line[1..] + [c];
      assert IsBlank(line) <==> IsBlank(line[1..]) by {
        assert line == [line[0]] + line[1..];
      }
    }
  }

  lemma TrailingSpaceIsNoFence(line: string, c: char)
    requires IsSpace(c)
    ensures IsFence(line + [c]) <==> IsFence(line)
  {
    FenceByLeft(line);
    FenceByLeft(line + [c]);
    TrimLeftSnoc(line, c);
    if IsBlank(line) {
      TrimLeftSpec(line);
    }
  }

  function LongerLast(lines: seq<string>, c: char): seq<string>
    requires lines != []
  {
    lines[..|lines| - 1] + [lines[|lines| - 1] + [c]]
  }

  /** One more character goes to the last line. */
  lemma {:induction false} LinesSnoc(s: string, c: char)
    requires c != '\n'
    ensures Lines(s + [c]) == LongerLast(Lines(s), c)
  {
    if s == "" {
      LinesOfLine([c]);
      assert s + [c] == [c];
    } else {
      LinesSnoc(s[1..], c);
      assert (s + [c])[1..] == s[1..] + [c];
      NewLineFirst(Lines(s[1..]), c);
      LongerFirst(s[0], Lines(s[1..]), c);
    }
  }

  lemma NewLineFirst(rest: seq<string>, c: char)
    requires rest != []
    ensures [""] + LongerLast(rest, c) == LongerLast([""] + rest, c)
  {
  }

  lemma LongerFirst(head: char, rest: seq<string>, c: char)
    requires rest != []
    ensures var longer := LongerLast(rest, c);
            [[head] + longer[0]] + longer[1..] == LongerLast([[head] + rest[0]] + rest[1..], c)
  {
    if |rest| == 1 {
      assert [head] + (rest[0] + [c]) == [head] + rest[0] + [c];
    }
  }

  lemma LongerLastKeepsFences(lines: seq<string>, c: char)
    requires lines != [] && IsSpace(c)
    ensures FenceCount(LongerLast(lines, c)) == FenceCount(lines)
  {
    var before, last := lines[..|lines| - 1], lines[|lines| - 1];
    FenceCountSnoc(before, last + [c]);
    FenceCountSnoc(before, last);
    assert before + [last] == lines;
    TrailingSpaceIsNoFence(last, c);
  }

  lemma {:induction false} TrimRightKeepsFences(s: string)
    ensures FenceCount(Lines(TrimRight(s))) == FenceCount(Lines(s))
  {
    if s != "" && IsSpace(s[|s| - 1]) {
      var before, c := s[..|s| - 1], s[|s| - 1];
      TrimRightKeepsFences(before);
      assert s == before + [c];
      if c == '\n' {
        assert before + "\n" + "" == s;
        LinesOfConcat(before, "");
        FenceCountSnoc(Lines(before), "");
      } else {
        LinesSnoc(before, c);
        LongerLastKeepsFences(Lines(before), c);
      }
    }
  }

  /** The formatted text holds an even number of fence lines. */
  lemma FormattedFencesAreBalanced(content: string)
    ensures FenceCount(Lines(Formatted(content))) % 2 == 0
  {
    var lines := Lines(Preprocessed(content));
    var out := FormattedLines(lines, false);
    FencesAreBalanced(lines, false);
    forall k | 0 <= k < |lines| ensures NoNewline(lines[k]) {
      LinesHaveNoNewline(Preprocessed(content), k);
    }
    forall i | 0 <= i < |out| ensures NoNewline(out[i]) {
      FormattedNoNewline(lines, false, i);
    }
    LinesOfUnlines(out);
    TrimLeftKeepsFences(Unlines(out));
    TrimRightKeepsFences(TrimLeft(Unlines(out)));
  }
}
