/**
  The Telegram formatter's inline converter from Markdown to MarkdownV2, and its escaping. Text is a
  sequence of characters.
 */
module TelegramFormatter {
  import opened Text

  // --- Escaping ---

  /** The characters MarkdownV2 reserves; the backslash is not among them. */
  predicate IsSpecial(c: char) {
    || c == '_' || c == '*' || c == '[' || c == ']' || c == '(' || c == ')' || c == '~' || c == '`' || c == '>'
    || c == '#' || c == '+' || c == '-' || c == '.' || c == '=' || c == '|' || c == '{' || c == '}' || c == '!'
  }

  function EscapedChar(c: char): string {
    if IsSpecial(c) then ['\\', c] else [c]
  }

  function Escaped(s: string): string {
    if s == "" then "" else EscapedChar(s[0]) + Escaped(s[1..])
  }

  /** Drops a backslash exactly where a special character follows it. */
  function Unescaped(s: string): string {
    if s == "" then ""
    else if s[0] == '\\' && |s| >= 2 && IsSpecial(s[1]) then [s[1]] + Unescaped(s[2..])
    else [s[0]] + Unescaped(s[1..])
  }

  /** Escaping loses nothing, whatever backslashes the text already has. */
  lemma {:induction false} UnescapedOfEscaped(s: string)
    ensures Unescaped(Escaped(s)) == s
  {
    if s != "" {
      UnescapedOfEscaped(s[1..]);
      var rest := Escaped(s[1..]);
      EscapedStart(s[1..]);
      if IsSpecial(s[0]) {
        assert (['\\', s[0]] + rest)[2..] == rest;
      } else {
        assert ([s[0]] + rest)[1..] == rest;
      }
      assert s == [s[0]] + s[1..];
    }
  }

  lemma EscapedStart(s: string)
    ensures Escaped(s) != "" ==> !IsSpecial(Escaped(s)[0])
  {
  }

  /** In escaped text a special character never stands without a backslash before it. */
  lemma {:induction false} SpecialsAreEscaped(s: string, i: nat)
    requires i < |Escaped(s)| && IsSpecial(Escaped(s)[i])
    ensures i > 0 && Escaped(s)[i - 1] == '\\'
  {
    var n := |EscapedChar(s[0])|;
    if i >= n {
      SpecialsAreEscaped(s[1..], i - n);
    }
  }

  // --- Reading MarkdownV2 ---

  /** A character of the text, or one that is read as markup. */
  datatype Glyph = Shown(c: char) | Markup(c: char)

  function AsRead(c: char): Glyph {
    if IsSpecial(c) then Markup(c) else Shown(c)
  }

  /** Reading from left to right, where a backslash hides the next character from being markup. */
  function Read(s: string): seq<Glyph> {
    if s == "" then []
    else if s[0] == '\\' && |s| >= 2 then [Shown(s[1])] + Read(s[2..])
    else [AsRead(s[0])] + Read(s[1..])
  }

  function AllShown(s: string): (glyphs: seq<Glyph>)
    ensures |glyphs| == |s| && forall i :: 0 <= i < |s| ==> glyphs[i] == Shown(s[i])
  {
    seq(|s|, i requires 0 <= i < |s| => Shown(s[i]))
  }

  lemma ShownCons(s: string, rest: seq<Glyph>)
    requires s != ""
    ensures AllShown(s) + rest == [Shown(s[0])] + (AllShown(s[1..]) + rest)
  {
    assert AllShown(s) == [Shown(s[0])] + AllShown(s[1..]);
    Associate([Shown(s[0])], AllShown(s[1..]), rest);
  }

  lemma ShownNothing(rest: string)
    ensures Escaped("") + rest == rest && AllShown("") + Read(rest) == Read(rest)
  {
  }

  /** The text is read as it was written, whatever follows it. */
  ghost predicate ReadBack(s: string) {
    forall rest: string :: Read(Escaped(s) + rest) == AllShown(s) + Read(rest)
  }

  lemma ReadHidden(c: char, rest: string)
    ensures Read(['\\', c] + rest) == [Shown(c)] + Read(rest)
  {
    assert (['\\', c] + rest)[2..] == rest;
  }

  lemma ReadPlain(c: char, rest: string)
    requires c != '\\'
    ensures Read([c] + rest) == [AsRead(c)] + Read(rest)
  {
    assert ([c] + rest)[1..] == rest;
  }

  lemma ReadChar(c: char, rest: string)
    requires c != '\\'
    ensures Read(EscapedChar(c) + rest) == [Shown(c)] + Read(rest)
  {
    if IsSpecial(c) {
      ReadHidden(c, rest);
    } else {
      ReadPlain(c, rest);
    }
  }

  lemma EscapedCons(s: string, rest: string)
    requires s != ""
    ensures Escaped(s) + rest == EscapedChar(s[0]) + (Escaped(s[1..]) + rest)
  {
    Associate(EscapedChar(s[0]), Escaped(s[1..]), rest);
  }

  lemma {:induction false} ReadBackWithoutBackslash(s: string, rest: string)
    requires '\\' !in s
    ensures Read(Escaped(s) + rest) == AllShown(s) + Read(rest)
  {
    if s == "" {
      ShownNothing(rest);
    } else {
      ReadBackWithoutBackslash(s[1..], rest);
      EscapedCons(s, rest);
      ReadChar(s[0], Escaped(s[1..]) + rest);
      ShownCons(s, Read(rest));
    }
  }

  /** What is read from a text that starts with a backslash and goes on. */
  lemma ReadBackslash(s: string, rest: string)
    requires |s| >= 2 && s[0] == '\\'
    ensures var read, more := Read(Escaped(s) + rest), Read(Escaped(s[2..]) + rest);
            read == if IsSpecial(s[1]) then [Shown('\\'), Markup(s[1])] + more else [Shown(s[1])] + more
  {
    var tail := Escaped(s[2..]) + rest;
    EscapedPair(s, rest);
    PairUp(s[1], tail);
    if IsSpecial(s[1]) {
      ReadHidden('\\', [s[1]] + tail);
      ReadPlain(s[1], tail);
      Associate([Shown('\\')], [Markup(s[1])], Read(tail));
    } else {
      ReadHidden(s[1], tail);
    }
  }

  lemma EscapedPair(s: string, rest: string)
    requires |s| >= 2 && s[0] == '\\'
    ensures Escaped(s) + rest == ['\\'] + (EscapedChar(s[1]) + (Escaped(s[2..]) + rest))
  {
    EscapedCons(s, rest);
    EscapedCons(s[1..], rest);
    assert s[1..][1..] == s[2..];
  }

  lemma PairUp(c: char, tail: string)
    ensures ['\\'] + (['\\', c] + tail) == ['\\', '\\'] + ([c] + tail)
    ensures ['\\'] + ([c] + tail) == ['\\', c] + tail
  {
  }

  lemma LoneBackslash()
    ensures Read(Escaped("\\") + "*") == [Shown('*')] && Read("*") == [Markup('*')]
  {
    assert "\\"[1..] == "" && Escaped("\\") == "\\" && "\\" + "*" == ['\\', '*'] + "";
    ReadHidden('*', "");
    assert "*"[1..] == "";
  }

  /** Reading never finds more than was written. */
  lemma {:induction false} ReadIsShort(s: string)
    ensures |Read(Escaped(s) + "*")| <= |s| + 1
    decreases |s|
  {
    if s == "" {
      assert "" + "*" == "*" && "*"[1..] == "";
    } else if s[0] != '\\' {
      ReadIsShort(s[1..]);
      EscapedCons(s, "*");
      ReadChar(s[0], Escaped(s[1..]) + "*");
    } else if |s| == 1 {
      assert s == "\\";
      LoneBackslash();
    } else {
      ReadIsShort(s[2..]);
      ReadBackslash(s, "*");
    }
  }

  /** A backslash of the text hides what follows it, or bares a special character, or is lost itself. */
  lemma {:induction false} BackslashIsMisread(s: string)
    requires '\\' in s
    ensures Read(Escaped(s) + "*") != AllShown(s) + Read("*")
  {
    LoneBackslash();
    if s[0] != '\\' {
      BackslashIsMisread(s[1..]);
      EscapedCons(s, "*");
      ReadChar(s[0], Escaped(s[1..]) + "*");
      ShownCons(s, Read("*"));
      SameTail(Shown(s[0]), Read(Escaped(s[1..]) + "*"), AllShown(s[1..]) + Read("*"));
    } else if |s| == 1 {
      assert s == "\\";
    } else {
      ReadBackslash(s, "*");
      if IsSpecial(s[1]) {
        assert (AllShown(s) + Read("*"))[1] == Shown(s[1]);
      } else {
        ReadIsShort(s[2..]);
      }
    }
  }

  lemma SameTail(g: Glyph, a: seq<Glyph>, b: seq<Glyph>)
    requires a != b
    ensures [g] + a != [g] + b
  {
    assert ([g] + a)[1..] == a && ([g] + b)[1..] == b;
  }

  /** Escaped text is read back, whatever follows it, exactly if it has no backslash. */
  lemma ReadBackIff(s: string)
    ensures ReadBack(s) <==> '\\' !in s
  {
    if '\\' in s {
      BackslashIsMisread(s);
    } else {
      forall rest: string ensures Read(Escaped(s) + rest) == AllShown(s) + Read(rest) {
        ReadBackWithoutBackslash(s, rest);
      }
    }
  }

  lemma {:induction false} EscapedConcat(a: string, b: string)
    ensures Escaped(a + b) == Escaped(a) + Escaped(b)
  {
    if a == "" {
      assert a + b == b;
    } else {
      EscapedConcat(a[1..], b);
      assert (a + b)[1..] == a[1..] + b;
      Associate(EscapedChar(a[0]), Escaped(a[1..]), Escaped(b));
    }
  }

  method EscapeText(text: string) returns (out: string)
    ensures out == Escaped(text)
  {
    out := "";
    for i := 0 to |text|
      invariant out == Escaped(text[..i])
    {
      assert text[..i + 1] == text[..i] + [text[i]];
      EscapedConcat(text[..i], [text[i]]);
      assert [text[i]][1..] == "" && Escaped([text[i]]) == EscapedChar(text[i]);
      if IsSpecial(text[i]) {
        out := out + "\\";
      }
      out := out + [text[i]];
    }
    assert text[..|text|] == text;
  }

  // --- Closing delimiters ---

  /** One delimiter, two in a row, or one that is not doubled. */
  datatype Search = Single | Double | Lone

  predicate Doubled(t: string, i: nat, delim: char) {
    i + 1 < |t| && t[i] == delim && t[i + 1] == delim
  }

  predicate Hit(t: string, i: nat, search: Search, delim: char)
    requires i < |t|
  {
    t[i] != '\\' &&
    match search
    case Single => t[i] == delim
    case Double => Doubled(t, i, delim)
    case Lone => t[i] == delim && !Doubled(t, i, delim)
  }

  /**
    Where the scan looks next: a backslash hides the character after it, and doubled delimiters hide
    each other from a lone one.
   */
  function NextLook(t: string, i: nat, search: Search, delim: char): nat
    requires i < |t|
  {
    if t[i] == '\\' || (search == Lone && Doubled(t, i, delim)) then i + 2 else i + 1
  }

  function Closing(t: string, i: nat, search: Search, delim: char): Option<nat>
    decreases |t| - i
  {
    if i >= |t| then None
    else if Hit(t, i, search, delim) then Some(i)
    else Closing(t, NextLook(t, i, search, delim), search, delim)
  }

  /** The scan from one position looks at another. */
  predicate Looks(t: string, i: nat, j: nat, search: Search, delim: char)
    decreases |t| - i
  {
    i == j || (i < j && i < |t| && Looks(t, NextLook(t, i, search, delim), j, search, delim))
  }

  lemma LooksAhead(t: string, i: nat, j: nat, search: Search, delim: char)
    ensures Looks(t, i, j, search, delim) ==> i <= j
  {
  }

  /** A closing delimiter is found exactly at the first place the scan looks at that holds one. */
  lemma {:induction false} ClosingIsFirst(t: string, i: nat, search: Search, delim: char, e: nat)
    ensures Closing(t, i, search, delim) == Some(e) ==>
              i <= e < |t| && Looks(t, i, e, search, delim) && Hit(t, e, search, delim)
    ensures i <= e < |t| && Looks(t, i, e, search, delim) && Hit(t, e, search, delim) ==>
              Closing(t, i, search, delim).Some? && Closing(t, i, search, delim).value <= e
    decreases |t| - i
  {
    if i < |t| && !Hit(t, i, search, delim) {
      var next := NextLook(t, i, search, delim);
      ClosingIsFirst(t, next, search, delim, e);
      LooksAhead(t, next, e, search, delim);
    }
  }

  method FindClosing(t: string, start: nat, delim: char) returns (r: Option<nat>)
    requires delim != '\\'
    ensures r == Closing(t, start, Single, delim)
  {
    var i := start;
    while i < |t|
      invariant Closing(t, start, Single, delim) == Closing(t, i, Single, delim)
      decreases |t| - i
    {
      if t[i] == '\\' {
        i := i + 2;
        continue;
      }
      if t[i] == delim {
        return Some(i);
      }
      i := i + 1;
    }
    return None;
  }

  method FindDoubleClosing(t: string, start: nat, delim: char) returns (r: Option<nat>)
    requires delim != '\\'
    ensures r == Closing(t, start, Double, delim)
  {
    var i := start;
    while i + 1 < |t|
      invariant Closing(t, start, Double, delim) == Closing(t, i, Double, delim)
      decreases |t| - i
    {
      if t[i] == '\\' {
        i := i + 2;
        continue;
      }
      if t[i] == delim && t[i + 1] == delim {
        return Some(i);
      }
      i := i + 1;
    }
    return None;
  }

  method FindClosingNotDoubled(t: string, start: nat, delim: char) returns (r: Option<nat>)
    requires delim != '\\'
    ensures r == Closing(t, start, Lone, delim)
  {
    var i := start;
    while i < |t|
      invariant Closing(t, start, Lone, delim) == Closing(t, i, Lone, delim)
      decreases |t| - i
    {
      if t[i] == '\\' {
        i := i + 2;
        continue;
      }
      if t[i] == delim {
        if i + 1 < |t| && t[i + 1] == delim {
          i := i + 2;
          continue;
        }
        return Some(i);
      }
      i := i + 1;
    }
    return None;
  }

  // --- Links ---

  function DepthAfter(depth: int, c: char, open: char, close: char): int {
    if c == open then depth + 1 else if c == close then depth - 1 else depth
  }

  /** The bracket that closes the given depth. */
  function Matching(t: string, i: nat, depth: int, open: char, close: char): Option<nat>
    decreases |t| - i
  {
    if i >= |t| then None
    else
      var d := DepthAfter(depth, t[i], open, close);
      if d == 0 then Some(i) else Matching(t, i + 1, d, open, close)
  }

  /** The depth once a stretch of text is read. */
  function DepthAt(t: string, i: nat, j: nat, depth: int, open: char, close: char): int
    requires i <= j <= |t|
    decreases j - i
  {
    if i == j then depth else DepthAt(t, i + 1, j, DepthAfter(depth, t[i], open, close), open, close)
  }

  /** The match is where the depth first comes to zero; without a match it never does. */
  lemma {:induction false} MatchingIsFirst(t: string, i: nat, depth: int, open: char, close: char, j: nat)
    requires i < j <= |t|
    ensures var m := Matching(t, i, depth, open, close);
            && (m.None? || j <= m.value ==> DepthAt(t, i, j, depth, open, close) != 0)
            && (m.Some? && j == m.value + 1 ==> DepthAt(t, i, j, depth, open, close) == 0)
    decreases |t| - i
  {
    var d := DepthAfter(depth, t[i], open, close);
    assert DepthAt(t, i, j, depth, open, close) == DepthAt(t, i + 1, j, d, open, close);
    if j == i + 1 {
      assert DepthAt(t, i + 1, j, d, open, close) == d;
      MatchingAhead(t, i + 1, d, open, close);
    } else {
      MatchingIsFirst(t, i + 1, d, open, close, j);
    }
  }

  lemma {:induction false} MatchingAhead(t: string, i: nat, depth: int, open: char, close: char)
    ensures Matching(t, i, depth, open, close).Some? ==> Matching(t, i, depth, open, close).value >= i
    decreases |t| - i
  {
    if i < |t| {
      MatchingAhead(t, i + 1, DepthAfter(depth, t[i], open, close), open, close);
    }
  }

  lemma {:induction false} MatchingInBounds(t: string, i: nat, depth: int, open: char, close: char)
    requires depth >= 1 && open != close
    ensures var m := Matching(t, i, depth, open, close); m.Some? ==> i <= m.value < |t| && t[m.value] == close
    decreases |t| - i
  {
    if i < |t| && DepthAfter(depth, t[i], open, close) != 0 {
      MatchingInBounds(t, i + 1, DepthAfter(depth, t[i], open, close), open, close);
    }
  }

  method FindMatching(t: string, start: nat, open: char, close: char) returns (r: Option<nat>)
    requires open != close
    ensures r == Matching(t, start, 1, open, close)
  {
    var i, depth := start, 1;
    while i < |t| && depth > 0
      invariant depth >= 0
      invariant depth > 0 ==> Matching(t, start, 1, open, close) == Matching(t, i, depth, open, close)
      invariant depth == 0 ==> Matching(t, start, 1, open, close) == Some(i)
      decreases |t| - i, depth
    {
      if t[i] == open {
        depth := depth + 1;
      }
      if t[i] == close {
        depth := depth - 1;
      }
      if depth > 0 {
        i := i + 1;
      }
    }
    return if depth == 0 then Some(i) else None;
  }

  datatype LinkParts = LinkParts(text: string, url: string)

  /** A link at a position: bracketed text, at once followed by a parenthesised address. */
  function LinkAt(t: string, i: nat): Option<LinkParts> {
    if i >= |t| || t[i] != '[' then None
    else
      var b := Matching(t, i + 1, 1, '[', ']');
      if b.None? || b.value + 1 >= |t| || t[b.value + 1] != '(' || b.value <= i then None
      else
        var p := Matching(t, b.value + 2, 1, '(', ')');
        if p.None? || p.value < b.value + 2 || p.value >= |t| then None
        else Some(LinkParts(t[i + 1..b.value], t[b.value + 2..p.value]))
  }

  method ParseMarkdownLink(t: string, start: nat) returns (r: Option<LinkParts>, end: nat)
    ensures r == LinkAt(t, start)
    ensures r.Some? ==> end == start + |r.value.text| + |r.value.url| + 4
  {
    end := 0;
    if start >= |t| || t[start] != '[' {
      return None, 0;
    }
    var b := FindMatching(t, start + 1, '[', ']');
    MatchingInBounds(t, start + 1, 1, '[', ']');
    if b.None? || b.value + 1 >= |t| || t[b.value + 1] != '(' {
      return None, 0;
    }
    var p := FindMatching(t, b.value + 2, '(', ')');
    MatchingInBounds(t, b.value + 2, 1, '(', ')');
    if p.None? {
      return None, 0;
    }
    return Some(LinkParts(t[start + 1..b.value], t[b.value + 2..p.value])), p.value + 1;
  }

  // --- Segments ---

  datatype Segment =
    | Code(body: string)
    | Twice(delim: char, body: string)
    | Once(delim: char, body: string)
    | Link(text: string, url: string)
    | Plain(c: char)

  function Enclosed(open: char, text: string, close: char): string {
    [open] + text + [close]
  }

  function Markdown(s: Segment): string {
    match s
    case Code(body) => "`" + body + "`"
    case Twice(delim, body) => [delim, delim] + body + [delim, delim]
    case Once(delim, body) => [delim] + body + [delim]
    case Link(text, url) => Enclosed('[', text, ']') + Enclosed('(', url, ')')
    case Plain(c) => [c]
  }

  /** Bold and strikethrough take one delimiter, every italic takes underscores; code and addresses are not escaped. */
  function Telegram(s: Segment): string {
    match s
    case Code(body) => "`" + body + "`"
    case Twice(delim, body) => [delim] + Escaped(body) + [delim]
    case Once(delim, body) => var d := if delim == '~' then '~' else '_'; [d] + Escaped(body) + [d]
    case Link(text, url) => "[" + Escaped(text) + "](" + url + ")"
    case Plain(c) => EscapedChar(c)
  }

  predicate IsEmphasis(c: char) {
    c == '*' || c == '~' || c == '_'
  }

  /** A single delimiter opens only where it is not part of a longer row. */
  predicate OpensOnce(t: string, i: nat)
    requires i < |t|
  {
    IsEmphasis(t[i]) && (i == 0 || t[i - 1] != t[i]) && i + 1 < |t| && t[i + 1] != t[i]
  }

  /** A slice, or nothing if the bounds are not in order. */
  function Slice(t: string, from: nat, to: nat): string {
    if from <= to <= |t| then t[from..to] else ""
  }

  /** The segment that starts at a position: the first construct that is closed, else the character itself. */
  function SegmentAt(t: string, i: nat): Segment
    requires i < |t|
  {
    if t[i] == '`' && Closing(t, i + 1, Single, '`').Some? then
      Code(Slice(t, i + 1, Closing(t, i + 1, Single, '`').value))
    else if IsEmphasis(t[i]) && Doubled(t, i, t[i]) && Closing(t, i + 2, Double, t[i]).Some? then
      Twice(t[i], Slice(t, i + 2, Closing(t, i + 2, Double, t[i]).value))
    else if OpensOnce(t, i) && Closing(t, i + 1, Lone, t[i]).Some? then
      Once(t[i], Slice(t, i + 1, Closing(t, i + 1, Lone, t[i]).value))
    else if LinkAt(t, i).Some? then Link(LinkAt(t, i).value.text, LinkAt(t, i).value.url)
    else Plain(t[i])
  }

  function SegmentsFrom(t: string, i: nat): seq<Segment>
    decreases |t| - i
  {
    if i >= |t| then [] else [SegmentAt(t, i)] + SegmentsFrom(t, i + Length(SegmentAt(t, i)))
  }

  function Length(s: Segment): (n: nat)
    ensures n >= 1
  {
    match s
    case Code(body) => |body| + 2
    case Twice(_, body) => |body| + 4
    case Once(_, body) => |body| + 2
    case Link(text, url) => |text| + |url| + 4
    case Plain(_) => 1
  }

  function MarkdownOf(segments: seq<Segment>): string {
    if segments == [] then "" else Markdown(segments[0]) + MarkdownOf(segments[1..])
  }

  function TelegramOf(segments: seq<Segment>): string {
    if segments == [] then "" else Telegram(segments[0]) + TelegramOf(segments[1..])
  }

  lemma Around(t: string, i: nat, e: nat)
    requires i < e < |t|
    ensures [t[i]] + t[i + 1..e] + [t[e]] == t[i..e + 1]
  {
  }

  lemma AroundTwice(t: string, i: nat, e: nat)
    requires i + 2 <= e < |t| - 1
    ensures [t[i], t[i + 1]] + t[i + 2..e] + [t[e], t[e + 1]] == t[i..e + 2]
  {
  }

  lemma JoinSlices(t: string, i: nat, j: nat, k: nat, a: string, b: string)
    requires i <= j <= k <= |t| && a == t[i..j] && b == t[j..k]
    ensures a + b == t[i..k]
  {
  }

  lemma EnclosedIsSlice(t: string, i: nat, e: nat)
    requires i < e < |t|
    ensures Enclosed(t[i], t[i + 1..e], t[e]) == t[i..e + 1]
  {
  }

  lemma AroundLink(t: string, i: nat, b: nat, p: nat)
    requires i < b && b + 2 <= p < |t| && t[i] == '[' && t[b] == ']' && t[b + 1] == '(' && t[p] == ')'
    ensures Markdown(Link(t[i + 1..b], t[b + 2..p])) == t[i..p + 1]
  {
    EnclosedIsSlice(t, i, b);
    EnclosedIsSlice(t, b + 1, p);
    JoinSlices(t, i, b + 1, p + 1, Enclosed('[', t[i + 1..b], ']'), Enclosed('(', t[b + 2..p], ')'));
  }

  lemma CodeIsSlice(t: string, i: nat, e: nat)
    requires i < |t| && t[i] == '`' && Closing(t, i + 1, Single, '`') == Some(e)
    ensures i < e < |t| && Markdown(Code(Slice(t, i + 1, e))) == t[i..e + 1]
  {
    ClosingIsFirst(t, i + 1, Single, '`', e);
    Around(t, i, e);
  }

  lemma TwiceIsSlice(t: string, i: nat, e: nat)
    requires i < |t| && Doubled(t, i, t[i]) && Closing(t, i + 2, Double, t[i]) == Some(e)
    ensures i + 2 <= e < |t| - 1 && Markdown(Twice(t[i], Slice(t, i + 2, e))) == t[i..e + 2]
  {
    ClosingIsFirst(t, i + 2, Double, t[i], e);
    AroundTwice(t, i, e);
  }

  lemma OnceIsSlice(t: string, i: nat, e: nat)
    requires i < |t| && Closing(t, i + 1, Lone, t[i]) == Some(e)
    ensures i < e < |t| && Markdown(Once(t[i], Slice(t, i + 1, e))) == t[i..e + 1]
  {
    ClosingIsFirst(t, i + 1, Lone, t[i], e);
    Around(t, i, e);
  }

  /** The parts of a link found at a position are slices there. */
  lemma LinkBounds(t: string, i: nat) returns (b: nat, p: nat)
    requires LinkAt(t, i).Some?
    ensures i < b && b + 2 <= p < |t| && t[i] == '[' && t[b] == ']' && t[b + 1] == '(' && t[p] == ')'
    ensures LinkAt(t, i) == Some(LinkParts(t[i + 1..b], t[b + 2..p]))
  {
    b := Matching(t, i + 1, 1, '[', ']').value;
    p := Matching(t, b + 2, 1, '(', ')').value;
    MatchingInBounds(t, i + 1, 1, '[', ']');
    MatchingInBounds(t, b + 2, 1, '(', ')');
  }

  lemma LinkIsSlice(t: string, i: nat, l: LinkParts)
    requires LinkAt(t, i) == Some(l)
    ensures var n := |l.text| + |l.url| + 4; i + n <= |t| && Markdown(Link(l.text, l.url)) == t[i..i + n]
  {
    var b, p := LinkBounds(t, i);
    AroundLink(t, i, b, p);
  }

  /** Whatever segment starts at a position, its Markdown is the text there. */
  lemma SegmentIsSlice(t: string, i: nat)
    requires i < |t|
    ensures var n := Length(SegmentAt(t, i)); i + n <= |t| && Markdown(SegmentAt(t, i)) == t[i..i + n]
  {
    match SegmentAt(t, i)
    case Code(_) => CodeIsSlice(t, i, Closing(t, i + 1, Single, '`').value);
    case Twice(_, _) => TwiceIsSlice(t, i, Closing(t, i + 2, Double, t[i]).value);
    case Once(_, _) => OnceIsSlice(t, i, Closing(t, i + 1, Lone, t[i]).value);
    case Link(_, _) => LinkIsSlice(t, i, LinkAt(t, i).value);
    case Plain(_) =>
  }

  lemma SegmentFits(t: string, i: nat)
    requires i < |t|
    ensures i + Length(SegmentAt(t, i)) <= |t|
  {
    SegmentIsSlice(t, i);
  }

  lemma SegmentsUnfold(t: string, i: nat)
    requires i < |t|
    ensures SegmentsFrom(t, i) == [SegmentAt(t, i)] + SegmentsFrom(t, i + Length(SegmentAt(t, i)))
  {
  }

  lemma MarkdownCons(t: string, i: nat, n: nat, s: Segment, rest: seq<Segment>, all: seq<Segment>)
    requires i + n <= |t| && all == [s] + rest && Markdown(s) == t[i..i + n] && MarkdownOf(rest) == t[i + n..]
    ensures MarkdownOf(all) == t[i..]
  {
    assert all[1..] == rest;
    assert t[i + n..] == t[i + n..|t|] && t[i..] == t[i..|t|];
    JoinSlices(t, i, i + n, |t|, Markdown(s), MarkdownOf(rest));
  }

  lemma TextStep(t: string, i: nat)
    requires i < |t| && i + Length(SegmentAt(t, i)) <= |t|
    requires MarkdownOf(SegmentsFrom(t, i + Length(SegmentAt(t, i)))) == t[i + Length(SegmentAt(t, i))..]
    ensures MarkdownOf(SegmentsFrom(t, i)) == t[i..]
  {
    SegmentIsSlice(t, i);
    SegmentsUnfold(t, i);
    MarkdownCons(t, i, Length(SegmentAt(t, i)), SegmentAt(t, i), SegmentsFrom(t, i + Length(SegmentAt(t, i))),
                 SegmentsFrom(t, i));
  }

  /** The segments factor the text: their Markdown, put together, is all of it. */
  lemma {:induction false} SegmentsAreText(t: string, i: nat)
    requires i <= |t|
    ensures MarkdownOf(SegmentsFrom(t, i)) == t[i..]
    decreases |t| - i
  {
    if i < |t| {
      SegmentFits(t, i);
      SegmentsAreText(t, i + Length(SegmentAt(t, i)));
      TextStep(t, i);
    } else {
      assert t[i..] == "";
    }
  }

  // --- The converter ---

  /** Converts an emphasis at a position, if one is closed there: two delimiters before one. */
  method ConvertEmphasis(t: string, i: nat) returns (r: Option<string>, next: nat)
    requires i < |t| && IsEmphasis(t[i])
    ensures r.Some? <==> SegmentAt(t, i).Twice? || SegmentAt(t, i).Once?
    ensures r.Some? ==> r.value == Telegram(SegmentAt(t, i)) && next == i + Length(SegmentAt(t, i))
  {
    var delim := t[i];
    if i + 1 < |t| && t[i + 1] == delim {
      var end := FindDoubleClosing(t, i + 2, delim);
      if end.Some? {
        TwiceIsSlice(t, i, end.value);
        ClosingIsFirst(t, i + 2, Double, delim, end.value);
        var inner := EscapeText(t[i + 2..end.value]);
        return Some([delim] + inner + [delim]), end.value + 2;
      }
    }
    if (i == 0 || t[i - 1] != delim) && i + 1 < |t| && t[i + 1] != delim {
      var end := FindClosingNotDoubled(t, i + 1, delim);
      if end.Some? {
        ClosingIsFirst(t, i + 1, Lone, delim, end.value);
        var inner := EscapeText(t[i + 1..end.value]);
        var d := if delim == '~' then '~' else '_';
        return Some([d] + inner + [d]), end.value + 1;
      }
    }
    return None, i;
  }

  /** Converts what starts at a position and says where the next piece starts. */
  method ConvertNext(t: string, i: nat) returns (piece: string, next: nat)
    requires i < |t|
    ensures piece == Telegram(SegmentAt(t, i)) && next == i + Length(SegmentAt(t, i))
  {
    if t[i] == '`' && i + 1 < |t| {
      var end := FindClosing(t, i + 1, '`');
      if end.Some? {
        ClosingIsFirst(t, i + 1, Single, '`', end.value);
        return "`" + t[i + 1..end.value] + "`", end.value + 1;
      }
    }
    if IsEmphasis(t[i]) {
      var emphasis, after := ConvertEmphasis(t, i);
      if emphasis.Some? {
        return emphasis.value, after;
      }
    }
    if t[i] == '[' {
      var link, after := ParseMarkdownLink(t, i);
      if link.Some? {
        var text := EscapeText(link.value.text);
        return "[" + text + "](" + link.value.url + ")", after;
      }
    }
    return EscapedChar(t[i]), i + 1;
  }

  /** What is left to render after a position. */
  function Rest(t: string, i: nat): string {
    TelegramOf(SegmentsFrom(t, i))
  }

  method ConvertInline(t: string) returns (out: string)
    ensures out == TelegramOf(SegmentsFrom(t, 0))
  {
    out := "";
    var i := 0;
    ghost var whole := Rest(t, 0);
    assert "" + whole == whole;
    while i < |t|
      invariant i <= |t| && whole == out + Rest(t, i)
      decreases |t| - i
    {
      out, i := ConvertOne(t, i, out, whole);
    }
    assert out + "" == out;
  }

  method ConvertOne(t: string, i: nat, out: string, ghost whole: string) returns (longer: string, next: nat)
    requires i < |t| && whole == out + Rest(t, i)
    ensures i < next <= |t| && whole == longer + Rest(t, next)
  {
    var piece;
    piece, next := ConvertNext(t, i);
    SegmentFits(t, i);
    ConvertStep(t, i, out, whole, piece, next);
    longer := out + piece;
  }

  lemma ConvertStep(t: string, i: nat, out: string, whole: string, piece: string, next: nat)
    requires i < |t| && whole == out + Rest(t, i)
    requires piece == Telegram(SegmentAt(t, i)) && next == i + Length(SegmentAt(t, i))
    ensures whole == out + piece + Rest(t, next)
  {
    SegmentsUnfold(t, i);
    TelegramCons(SegmentAt(t, i), SegmentsFrom(t, next));
    Associate(out, piece, Rest(t, next));
  }

  lemma TelegramCons(s: Segment, rest: seq<Segment>)
    ensures TelegramOf([s] + rest) == Telegram(s) + TelegramOf(rest)
  {
    assert ([s] + rest)[1..] == rest;
  }
}
