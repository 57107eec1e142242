/**
  What becomes of Markdown on its way to Telegram, construct by construct, and which lines the clean-up and
  the line pass treat how.
 */
module TelegramLaws {
  import opened Text
  import opened TelegramCleanup
  import opened TelegramFormatter
  import opened TelegramLines

  /** Neither the character nor a backslash stands in a stretch of text. */
  predicate Free(t: string, from: nat, to: nat, c: char)
    requires to <= |t|
  {
    forall k :: from <= k < to ==> t[k] != c && t[k] != '\\'
  }

  lemma {:induction false} ClosesAt(t: string, i: nat, e: nat, search: Search, delim: char)
    requires i <= e < |t| && Free(t, i, e, delim) && Hit(t, e, search, delim) && delim != '\\'
    ensures Closing(t, i, search, delim) == Some(e)
    decreases e - i
  {
    if i < e {
      ClosesAt(t, i + 1, e, search, delim);
    }
  }

  /** Code in backticks stays as it is. */
  lemma CodeStays(t: string, i: nat, e: nat)
    requires i < e < |t| && t[i] == '`' && t[e] == '`' && Free(t, i + 1, e, '`')
    ensures SegmentAt(t, i) == Code(t[i + 1..e]) && Telegram(SegmentAt(t, i)) == "`" + t[i + 1..e] + "`"
  {
    ClosesAt(t, i + 1, e, Single, '`');
  }

  /** Doubled asterisks become single ones, doubled tildes and underscores too; the text between is escaped. */
  lemma DoubledIsHalved(t: string, i: nat, e: nat, delim: char)
    requires delim in {'*', '~', '_'} && i + 2 <= e && e + 1 < |t|
    requires t[i] == t[i + 1] == delim && t[e] == t[e + 1] == delim && Free(t, i + 2, e, delim)
    ensures SegmentAt(t, i) == Twice(delim, t[i + 2..e])
    ensures Telegram(SegmentAt(t, i)) == [delim] + Escaped(t[i + 2..e]) + [delim]
  {
    ClosesAt(t, i + 2, e, Double, delim);
  }

  /** A single asterisk or underscore on both sides is italic, a single tilde strikes out. */
  lemma SingleIsItalic(t: string, i: nat, e: nat, delim: char)
    requires delim in {'*', '~', '_'} && i + 1 < e < |t| && t[i] == t[e] == delim && Free(t, i + 1, e, delim)
    requires (i == 0 || t[i - 1] != delim) && (e + 1 == |t| || t[e + 1] != delim)
    ensures SegmentAt(t, i) == Once(delim, t[i + 1..e])
    ensures Telegram(SegmentAt(t, i)) ==
            if delim == '~' then "~" + Escaped(t[i + 1..e]) + "~" else "_" + Escaped(t[i + 1..e]) + "_"
  {
    ClosesAt(t, i + 1, e, Lone, delim);
  }

  predicate NoBracket(t: string, from: nat, to: nat, open: char, close: char)
    requires to <= |t|
  {
    forall k :: from <= k < to ==> t[k] != open && t[k] != close
  }

  lemma {:induction false} MatchesAt(t: string, i: nat, e: nat, open: char, close: char)
    requires i <= e < |t| && NoBracket(t, i, e, open, close) && t[e] == close && open != close
    ensures Matching(t, i, 1, open, close) == Some(e)
    decreases e - i
  {
    if i < e {
      MatchesAt(t, i + 1, e, open, close);
    }
  }

  /** A link stays a link: its text is escaped, its address is not. */
  lemma LinkStays(t: string, i: nat, b: nat, p: nat)
    requires i < b && b + 2 <= p < |t| && t[i] == '[' && t[b] == ']' && t[b + 1] == '(' && t[p] == ')'
    requires NoBracket(t, i + 1, b, '[', ']') && NoBracket(t, b + 2, p, '(', ')')
    ensures SegmentAt(t, i) == Link(t[i + 1..b], t[b + 2..p])
    ensures Telegram(SegmentAt(t, i)) == "[" + Escaped(t[i + 1..b]) + "](" + t[b + 2..p] + ")"
  {
    MatchesAt(t, i + 1, b, '[', ']');
    MatchesAt(t, b + 2, p, '(', ')');
  }

  /** Any other character stands for itself. */
  lemma OthersArePlain(t: string, i: nat)
    requires i < |t| && t[i] !in {'`', '*', '~', '_', '['}
    ensures SegmentAt(t, i) == Plain(t[i])
    ensures Telegram(SegmentAt(t, i)) == if t[i] in "_*[]()~`>#+-.=|{}!" then ['\\', t[i]] else [t[i]]
  {
    SpecialsAre(t[i]);
  }

  lemma SpecialsAre(c: char)
    ensures IsSpecial(c) <==> c in "_*[]()~`>#+-.=|{}!"
  {
    var specials := "_*[]()~`>#+-.=|{}!";
    assert specials[0] == '_' && specials[1] == '*' && specials[2] == '[' && specials[3] == ']' && specials[4] == '(';
    assert specials[5] == ')' && specials[6] == '~' && specials[7] == '`' && specials[8] == '>' && specials[9] == '#';
    assert specials[10] == '+' && specials[11] == '-' && specials[12] == '.' && specials[13] == '=';
    assert specials[14] == '|' && specials[15] == '{' && specials[16] == '}' && specials[17] == '!';
  }

  // --- Lines ---

  /** Headers of the first three levels become bold. */
  lemma HeaderIsBold(title: string)
    ensures ConvertedLine("# " + title) == "*" + Escaped(TrimSpace(title)) + "*"
    ensures ConvertedLine("## " + title) == "*" + Escaped(TrimSpace(title)) + "*"
    ensures ConvertedLine("### " + title) == "*" + Escaped(TrimSpace(title)) + "*"
  {
    assert ("# " + title)[2..] == title && ("## " + title)[3..] == title && ("### " + title)[4..] == title;
    assert ("# " + title)[1] == ' ' && ("## " + title)[2] == ' ';
    assert "## "[1] == '#' && "### "[1] == '#' && "### "[2] == '#';
  }

  /** A quoted line is converted behind its mark. */
  lemma QuoteStays(line: string)
    ensures ConvertedLine("> " + line) == ">" + Inline(line) && ConvertedLine(">") == ">"
  {
    assert ("> " + line)[2..] == line && ("> " + line)[0] == '>';
    assert "# "[0] == '#' && "## "[0] == '#' && "### "[0] == '#' && |">"| == 1;
  }

  /** Between fences lines stay as they are; the opening fence keeps its language, the closing one has none. */
  lemma FencedLinesStay(lines: seq<string>, code: seq<string>, rest: seq<string>, open: string, close: string)
    requires lines == [open] + code + [close] + rest && IsFence(open) && IsFence(close)
    requires forall k :: 0 <= k < |code| ==> !IsFence(code[k])
    ensures FormattedLines(lines, false) == [TrimSpace(open)] + code + ["```"] + FormattedLines(rest, false)
  {
    assert lines[1..] == code + ([close] + rest) && lines[0] == open;
    CodeStaysInFence(code, [close] + rest);
    assert ([close] + rest)[1..] == rest;
    Associate(code, ["```"], FormattedLines(rest, false));
    Associate([TrimSpace(open)], code, ["```"]);
    Associate([TrimSpace(open)], code + ["```"], FormattedLines(rest, false));
  }

  lemma StaysInFence(line: string, rest: seq<string>)
    requires !IsFence(line)
    ensures FormattedLines([line] + rest, true) == [line] + FormattedLines(rest, true)
  {
    assert ([line] + rest)[1..] == rest;
  }

  lemma {:induction false} CodeStaysInFence(code: seq<string>, rest: seq<string>)
    requires forall k :: 0 <= k < |code| ==> !IsFence(code[k])
    ensures FormattedLines(code + rest, true) == code + FormattedLines(rest, true)
  {
    if code == [] {
      assert code + rest == rest;
    } else {
      CodeStaysInFence(code[1..], rest);
      StaysInFence(code[0], code[1..] + rest);
      FirstAndRest(code, rest);
      FirstAndRest(code, FormattedLines(rest, true));
    }
  }

  // --- Clean-up ---

  /** A line that opens with a bracketed kind of metadata, or as orchestration, is blanked. */
  lemma MarkersAre(kind: string, inner: string, rest: string)
    requires kind in {"Delegated to", "Delegation from", "Tool call", "Tool result", "Internal"}
    ensures IsMarker("[" + kind + inner + "]" + rest) && IsMarker("---orchestration" + rest)
  {
    var line := "[" + kind + inner + "]" + rest;
    assert KINDS[0] == "Delegated to" && KINDS[1] == "Delegation from" && KINDS[2] == "Tool call";
    assert KINDS[3] == "Tool result" && KINDS[4] == "Internal";
    var k :| 0 <= k < |KINDS| && KINDS[k] == kind;
    assert line[1 + |kind| + |inner|] == ']';
    assert line[..1 + |kind|] == "[" + kind;
  }

  lemma {:induction false} DigitsOf(digits: string, rest: string)
    requires forall k :: 0 <= k < |digits| ==> '0' <= digits[k] <= '9'
    requires rest != "" && !('0' <= rest[0] <= '9')
    ensures Digits(digits + rest) == |digits|
  {
    if digits == "" {
      assert digits + rest == rest;
    } else {
      DigitsOf(digits[1..], rest);
      assert (digits + rest)[1..] == digits[1..] + rest;
    }
  }

  /** A bracketed number is a citation, and goes. */
  lemma CitationsAre(digits: string, rest: string)
    requires digits != "" && forall k :: 0 <= k < |digits| ==> '0' <= digits[k] <= '9'
    ensures Uncited("[" + digits + "]" + rest) == Uncited(rest)
  {
    var s := "[" + digits + "]" + rest;
    DigitsOf(digits, "]" + rest);
    assert s[1..] == digits + ("]" + rest) && s[|digits| + 1] == ']' && s[|digits| + 2..] == rest;
  }
}
