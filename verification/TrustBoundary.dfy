/**
  HMAC trust boundaries around model output: tagging content, verifying the tags, and stripping
  boundary lines. The MAC (RFC 2104, section 2) is any function to 64 lower-case hex digits.
 */
module TrustBoundary {
  import opened Text

  predicate IsLowerHexDigit(c: char) {
    '0' <= c <= '9' || 'a' <= c <= 'f'
  }

  predicate IsDigest(s: string) {
    |s| == 64 && forall i :: 0 <= i < |s| ==> IsLowerHexDigit(s[i])
  }

  /** A keyed MAC, its key fixed. */
  type Mac = m: string -> string | forall s :: IsDigest(m(s)) witness ((s: string) => seq(64, i => '0'))

  const PREFIX := "<<<TRUST_BOUNDARY:"
  const SUFFIX := ">>>"

  function Boundary(tag: string): string {
    PREFIX + tag + SUFFIX
  }

  function TagContent(content: string, mac: Mac): string {
    Boundary(mac(content)) + "\n" + content + "\n" + Boundary(mac(content))
  }

  /** The content between two lines that carry its code. */
  lemma TaggedLooks(content: string, mac: Mac)
    ensures var line := "<<<TRUST_BOUNDARY:" + mac(content) + ">>>";
            TagContent(content, mac) == line + "\n" + content + "\n" + line
  {
  }

  /** Accepted by the hex decoder: an even number of hex digits of either case. */
  predicate DecodesAsHex(s: string) {
    |s| % 2 == 0 && forall i :: 0 <= i < |s| ==> IsLowerHexDigit(s[i]) || 'A' <= s[i] <= 'F'
  }

  predicate HasSuffix(s: string, suffix: string) {
    |suffix| <= |s| && s[|s| - |suffix|..] == suffix
  }

  /** A line with both delimiters is long enough to cut them off: they cannot overlap. */
  lemma DelimitersDoNotOverlap(line: string)
    requires PREFIX <= line && HasSuffix(line, SUFFIX)
    ensures |PREFIX| + |SUFFIX| <= |line|
  {
    assert line[17] == ':' && line[|line| - 1] == line[|line| - 2] == line[|line| - 3] == '>';
  }

  /** The tag of a boundary line, or "" when it is none. */
  function ExtractTag(line: string): (tag: string)
    ensures tag != "" ==> TrimSpace(line) == Boundary(tag) && DecodesAsHex(tag)
  {
    var line := TrimSpace(line);
    if !(PREFIX <= line) || !HasSuffix(line, SUFFIX) then ""
    else
      DelimitersDoNotOverlap(line);
      var tag := line[|PREFIX|..|line| - |SUFFIX|];
      assert line == PREFIX + tag + SUFFIX;
      if DecodesAsHex(tag) then tag else ""
  }

  lemma ExtractTagOfBoundary(line: string, tag: string)
    requires TrimSpace(line) == Boundary(tag) && DecodesAsHex(tag)
    ensures ExtractTag(line) == tag
  {
    var trimmed := Boundary(tag);
    assert trimmed[..|PREFIX|] == PREFIX && trimmed[|trimmed| - |SUFFIX|..] == SUFFIX;
    assert trimmed[|PREFIX|..|trimmed| - |SUFFIX|] == tag;
  }

  /** The inner content and true, or the argument itself and false. */
  function VerifyHmacBoundary(tagged: string, mac: Mac): (string, bool) {
    var lines := Lines(tagged);
    if |lines| < 3 then (tagged, false)
    else
      var firstTag, lastTag := ExtractTag(lines[0]), ExtractTag(lines[|lines| - 1]);
      if firstTag == "" || lastTag == "" || firstTag != lastTag then (tagged, false)
      else
        var inner := Unlines(lines[1..|lines| - 1]);
        if firstTag != mac(inner) then (tagged, false) else (inner, true)
  }

  lemma BoundaryIsTightLine(tag: string)
    requires DecodesAsHex(tag)
    ensures NoNewline(Boundary(tag)) && TrimSpace(Boundary(tag)) == Boundary(tag)
  {
    var line := Boundary(tag);
    assert line[0] == '<' && line[|line| - 1] == SUFFIX[2] == '>';
    TrimSpaceOfTight(line);
  }

  lemma LinesOfSandwich(first: string, inner: string, last: string)
    requires NoNewline(first) && NoNewline(last)
    ensures Lines(first + "\n" + inner + "\n" + last) == [first] + Lines(inner) + [last]
  {
    Associate(first + "\n", inner + "\n", last);
    Associate(first + "\n", inner, "\n");
    LinesOfConcat(first, inner + "\n" + last);
    LinesOfConcat(inner, last);
    LinesOfLine(first);
    LinesOfLine(last);
    assert [first] + (Lines(inner) + [last]) == [first] + Lines(inner) + [last];
  }

  /** Content between two lines that trim to the boundary of its MAC is accepted. */
  lemma SandwichIsAccepted(first: string, inner: string, last: string, mac: Mac)
    requires NoNewline(first) && NoNewline(last) && TrimSpace(first) == Boundary(mac(inner)) == TrimSpace(last)
    ensures VerifyHmacBoundary(first + "\n" + inner + "\n" + last, mac) == (inner, true)
  {
    LinesOfSandwich(first, inner, last);
    var lines := [first] + Lines(inner) + [last];
    assert lines[1..|lines| - 1] == Lines(inner);
    UnlinesOfLines(inner);
    ExtractTagOfBoundary(first, mac(inner));
    ExtractTagOfBoundary(last, mac(inner));
  }

  /** Round trip, for every content: empty, multi-line, or full of forged boundary lines. */
  lemma VerifyOfTagged(content: string, mac: Mac)
    ensures VerifyHmacBoundary(TagContent(content, mac), mac) == (content, true)
  {
    BoundaryIsTightLine(mac(content));
    SandwichIsAccepted(Boundary(mac(content)), content, Boundary(mac(content)), mac);
  }

  ghost predicate IsSandwich(tagged: string, first: string, inner: string, last: string, mac: Mac) {
    && tagged == first + "\n" + inner + "\n" + last && NoNewline(first) && NoNewline(last)
    && TrimSpace(first) == Boundary(mac(inner)) == TrimSpace(last)
  }

  lemma SplitEnds(lines: seq<string>)
    requires |lines| >= 2
    ensures lines == [lines[0]] + lines[1..|lines| - 1] + [lines[|lines| - 1]]
  {
  }

  lemma FirstMiddleLast(lines: seq<string>)
    requires |lines| >= 3
    ensures Unlines(lines) == lines[0] + "\n" + Unlines(lines[1..|lines| - 1]) + "\n" + lines[|lines| - 1]
  {
    SplitEnds(lines);
    UnlinesSandwich(lines, lines[0], lines[1..|lines| - 1], lines[|lines| - 1]);
  }

  lemma AcceptedIsSandwich(tagged: string, inner: string, mac: Mac)
    requires VerifyHmacBoundary(tagged, mac) == (inner, true)
    ensures IsSandwich(tagged, Lines(tagged)[0], inner, Lines(tagged)[|Lines(tagged)| - 1], mac)
  {
    UnlinesOfLines(tagged);
    FirstMiddleLast(Lines(tagged));
    LinesHaveNoNewline(tagged, 0);
    LinesHaveNoNewline(tagged, |Lines(tagged)| - 1);
  }

  /**
    Exactly what verification accepts: content between two lines that are, up to the white space
    around them, the boundary of its own MAC.
   */
  lemma AcceptedIff(tagged: string, inner: string, mac: Mac)
    ensures VerifyHmacBoundary(tagged, mac) == (inner, true) <==>
            exists first: string, last: string :: IsSandwich(tagged, first, inner, last, mac)
  {
    if VerifyHmacBoundary(tagged, mac) == (inner, true) {
      AcceptedIsSandwich(tagged, inner, mac);
    }
    forall first: string, last: string | IsSandwich(tagged, first, inner, last, mac)
      ensures VerifyHmacBoundary(tagged, mac) == (inner, true)
    {
      SandwichIsAccepted(first, inner, last, mac);
    }
  }

  // --- Stripping ---

  predicate IsBoundaryLine(line: string) {
    PREFIX <= TrimSpace(line)
  }

  function KeptLines(lines: seq<string>): seq<string> {
    if lines == [] then []
    else if IsBoundaryLine(lines[0]) then KeptLines(lines[1..])
    else [lines[0]] + KeptLines(lines[1..])
  }

  lemma {:induction false} KeptLinesConcat(a: seq<string>, b: seq<string>)
    ensures KeptLines(a + b) == KeptLines(a) + KeptLines(b)
  {
    if a == [] {
      assert a + b == b;
    } else {
      KeptLinesConcat(a[1..], b);
      assert (a + b)[1..] == a[1..] + b && (a + b)[0] == a[0];
      Associate([a[0]], KeptLines(a[1..]), KeptLines(b));
    }
  }

  lemma {:induction false} KeptLinesSpec(lines: seq<string>)
    ensures forall line :: line in KeptLines(lines) <==> line in lines && !IsBoundaryLine(line)
    ensures (forall line :: line in lines ==> !IsBoundaryLine(line)) ==> KeptLines(lines) == lines
  {
    if lines != [] {
      KeptLinesSpec(lines[1..]);
      assert lines == [lines[0]] + lines[1..];
    }
  }

  function Stripped(s: string): string {
    Unlines(KeptLines(Lines(s)))
  }

  method StripHmacBoundaries(s: string) returns (stripped: string)
    ensures stripped == Stripped(s)
  {
    var lines := Lines(s);
    var result: seq<string> := [];
    for i := 0 to |lines|
      invariant result == KeptLines(lines[..i])
    {
      assert lines[..i + 1] == lines[..i] + [lines[i]];
      KeptLinesConcat(lines[..i], [lines[i]]);
      assert KeptLines([lines[i]]) == if IsBoundaryLine(lines[i]) then [] else [lines[i]];
      if !IsBoundaryLine(lines[i]) {
        result := result + [lines[i]];
      }
    }
    assert lines[..|lines|] == lines;
    stripped := Unlines(result);
  }

  /** Stripping leaves no boundary line, and changes nothing when there was none. */
  lemma StripLeavesNoBoundary(s: string)
    ensures forall line :: line in Lines(Stripped(s)) ==> !IsBoundaryLine(line)
    ensures (forall line :: line in Lines(s) ==> !IsBoundaryLine(line)) ==> Stripped(s) == s
  {
    var kept := KeptLines(Lines(s));
    KeptLinesSpec(Lines(s));
    UnlinesOfLines(s);
    if kept != [] {
      forall i | 0 <= i < |kept| ensures NoNewline(kept[i]) {
        assert kept[i] in kept && kept[i] in Lines(s);
        var j :| 0 <= j < |Lines(s)| && Lines(s)[j] == kept[i];
        LinesHaveNoNewline(s, j);
      }
      LinesOfUnlines(kept);
    }
  }

  /** Stripping undoes tagging, up to the boundary lines the content had of its own. */
  lemma StripOfTagged(s: string, mac: Mac)
    ensures Stripped(TagContent(s, mac)) == Stripped(s)
  {
    var line := Boundary(mac(s));
    BoundaryIsTightLine(mac(s));
    LinesOfSandwich(line, s, line);
    assert line[..|PREFIX|] == PREFIX;
    KeptLinesOfSandwich(line, Lines(s));
  }

  lemma KeptLinesOfSandwich(line: string, lines: seq<string>)
    requires IsBoundaryLine(line)
    ensures KeptLines([line] + lines + [line]) == KeptLines(lines)
  {
    assert KeptLines([line]) == [];
    KeptLinesConcat([line] + lines, [line]);
    KeptLinesConcat([line], lines);
  }
}
