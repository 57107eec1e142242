/**
  The clean-up before the Telegram formatter: lines of internal metadata are blanked, bracketed citation
  numbers and surplus blank lines removed, and the text trimmed.
 */
module TelegramCleanup {
  import opened Text

  // --- Marker lines ---

  const KINDS: seq<string> := ["Delegated to", "Delegation from", "Tool call", "Tool result", "Internal"]

  predicate ClosesFrom(line: string, n: nat) {
    exists j :: n <= j < |line| && line[j] == ']'
  }

  /** A line that starts with a bracketed kind and closes the bracket somewhere. */
  predicate IsInternal(line: string) {
    exists k :: 0 <= k < |KINDS| && "[" + KINDS[k] <= line && ClosesFrom(line, 1 + |KINDS[k]|)
  }

  predicate IsMarker(line: string) {
    IsInternal(line) || "---orchestration" <= line
  }

  function Blanked(lines: seq<string>): seq<string> {
    if lines == [] then [] else [if IsMarker(lines[0]) then "" else lines[0]] + Blanked(lines[1..])
  }

  function WithoutMarkers(s: string): string {
    Unlines(Blanked(Lines(s)))
  }

  // --- Citations ---

  function Digits(s: string): (n: nat)
    ensures n <= |s|
  {
    if s != "" && '0' <= s[0] <= '9' then 1 + Digits(s[1..]) else 0
  }

  /** The length of the citation at the start of the text, if there is one. */
  function CitationLength(s: string): (n: nat)
    ensures n <= |s|
  {
    if s == "" || s[0] != '[' then 0
    else
      var n := Digits(s[1..]);
      if n >= 1 && n + 1 < |s| && s[n + 1] == ']' then n + 2 else 0
  }

  /** Citations are removed from left to right. */
  function Uncited(s: string): string
    decreases |s|
  {
    if s == "" then ""
    else if CitationLength(s) > 0 then Uncited(s[CitationLength(s)..])
    else [s[0]] + Uncited(s[1..])
  }

  // --- Blank lines ---

  function Newlines(s: string): (n: nat)
    ensures n <= |s| && (s != "" && s[0] == '\n' ==> n > 0)
  {
    if s != "" && s[0] == '\n' then 1 + Newlines(s[1..]) else 0
  }

  function Breaks(n: nat): string {
    seq(n, _ => '\n')
  }

  /** Runs of newlines are cut down to two. */
  function Collapsed(s: string): string
    decreases |s|
  {
    if s == "" then ""
    else if s[0] == '\n' then
      var n := Newlines(s);
      Breaks(if n > 2 then 2 else n) + Collapsed(s[n..])
    else [s[0]] + Collapsed(s[1..])
  }

  function Preprocessed(s: string): string {
    TrimSpace(Collapsed(Uncited(WithoutMarkers(s))))
  }

  // --- What each part leaves ---

  predicate NoMarkers(lines: seq<string>) {
    forall i :: 0 <= i < |lines| ==> !IsMarker(lines[i])
  }

  predicate NoCitation(s: string) {
    forall i :: 0 <= i <= |s| ==> CitationLength(s[i..]) == 0
  }

  predicate IsGap(s: string, i: nat) {
    i + 2 < |s| && s[i] == '\n' && s[i + 1] == '\n' && s[i + 2] == '\n'
  }

  predicate NoGap(s: string) {
    forall i :: 0 <= i < |s| ==> !IsGap(s, i)
  }

  /** The clean-up finds nothing to do. */
  predicate IsClean(s: string) {
    NoMarkers(Lines(s)) && NoCitation(s) && NoGap(s) && TrimSpace(s) == s
  }

  lemma MarkerIsNotEmpty(line: string)
    requires IsMarker(line)
    ensures line != ""
  {
  }

  lemma {:induction false} BlankedShrinks(lines: seq<string>)
    ensures |Unlines(Blanked(lines))| <= |Unlines(lines)|
    ensures |Unlines(Blanked(lines))| == |Unlines(lines)| <==> NoMarkers(lines)
    ensures NoMarkers(lines) ==> Blanked(lines) == lines
  {
    if lines != [] {
      BlankedShrinks(lines[1..]);
      assert lines == [lines[0]] + lines[1..];
      assert NoMarkers(lines) <==> !IsMarker(lines[0]) && NoMarkers(lines[1..]);
      assert Blanked(lines)[1..] == Blanked(lines[1..]);
      assert lines[1..] == [] <==> Blanked(lines[1..]) == [];
    }
  }

  lemma NoCitationCons(s: string)
    requires s != ""
    ensures NoCitation(s) <==> CitationLength(s) == 0 && NoCitation(s[1..])
  {
    assert s[0..] == s;
    assert forall i :: 0 <= i <= |s| - 1 ==> s[1..][i..] == s[i + 1..];
    if CitationLength(s) == 0 && NoCitation(s[1..]) {
      forall i | 0 <= i <= |s| ensures CitationLength(s[i..]) == 0 {
        assert i > 0 ==> s[i..] == s[1..][i - 1..];
      }
    }
  }

  lemma {:induction false} UncitedShrinks(s: string)
    ensures |Uncited(s)| <= |s| && (|Uncited(s)| == |s| <==> NoCitation(s)) && (NoCitation(s) ==> Uncited(s) == s)
    decreases |s|
  {
    if s != "" {
      NoCitationCons(s);
      if CitationLength(s) > 0 {
        UncitedShrinks(s[CitationLength(s)..]);
      } else {
        UncitedShrinks(s[1..]);
        assert s == [s[0]] + s[1..];
      }
    }
  }

  lemma {:induction false} NewlinesSpec(s: string)
    ensures var n := Newlines(s); (forall i :: 0 <= i < n ==> s[i] == '\n') && (n < |s| ==> s[n] != '\n')
  {
    if s != "" && s[0] == '\n' {
      NewlinesSpec(s[1..]);
    }
  }

  lemma {:induction false} CollapsedShrinks(s: string)
    ensures |Collapsed(s)| <= |s| && (NoGap(s) ==> Collapsed(s) == s) && (|Collapsed(s)| == |s| ==> Collapsed(s) == s)
    decreases |s|
  {
    if s != "" {
      if s[0] == '\n' {
        var n := Newlines(s);
        NewlinesSpec(s);
        CollapsedShrinks(s[n..]);
        assert n > 2 ==> IsGap(s, 0);
        NoGapTail(s, n);
        assert s == s[..n] + s[n..] && s[..n] == Breaks(n);
      } else {
        CollapsedShrinks(s[1..]);
        NoGapTail(s, 1);
        assert s == [s[0]] + s[1..];
      }
    }
  }

  lemma NoGapTail(s: string, n: nat)
    requires n <= |s|
    ensures NoGap(s) ==> NoGap(s[n..])
  {
    if NoGap(s) {
      forall i | 0 <= i < |s[n..]| ensures !IsGap(s[n..], i) {
        assert !IsGap(s, n + i);
      }
    }
  }

  lemma CollapsedStart(s: string)
    requires s != "" && s[0] != '\n'
    ensures Collapsed(s) != "" && Collapsed(s)[0] == s[0]
  {
  }

  lemma GapInRest(front: string, rest: string, i: nat)
    requires |front| <= 2 && IsGap(front + rest, i)
    requires rest != "" ==> front == "" || front[0] != '\n' || rest[0] != '\n'
    requires front != "" && front[0] != '\n' ==> |front| == 1
    ensures i >= |front| && IsGap(rest, i - |front|)
  {
    var all := front + rest;
    assert forall k :: |front| <= k < |all| ==> all[k] == rest[k - |front|];
  }

  /** No two blank lines in a row are left. */
  lemma {:induction false} CollapsedHasNoGap(s: string)
    ensures NoGap(Collapsed(s))
    decreases |s|
  {
    if s != "" {
      var n := if s[0] == '\n' then Newlines(s) else 1;
      NewlinesSpec(s);
      CollapsedHasNoGap(s[n..]);
      var front := if s[0] != '\n' then [s[0]] else Breaks(if n > 2 then 2 else n);
      var rest := Collapsed(s[n..]);
      assert Collapsed(s) == front + rest;
      if n < |s| && s[0] == '\n' {
        CollapsedStart(s[n..]);
      }
      forall i | 0 <= i < |front + rest| ensures !IsGap(front + rest, i) {
        if IsGap(front + rest, i) {
          GapInRest(front, rest, i);
        }
      }
    }
  }

  lemma TrimmedHasNoGap(s: string)
    requires NoGap(s)
    ensures NoGap(TrimSpace(s))
  {
    var a, b := TrimSpaceSpec(s);
    var t := TrimSpace(s);
    forall i | 0 <= i < |t| ensures !IsGap(t, i) {
      assert !IsGap(s, a + i);
    }
  }

  lemma TrimTwice(s: string)
    ensures TrimSpace(TrimSpace(s)) == TrimSpace(s) && |TrimSpace(s)| <= |s|
    ensures |TrimSpace(s)| == |s| ==> TrimSpace(s) == s
  {
    var a, b := TrimSpaceSpec(s);
    if a < b {
      TrimSpaceOfTight(TrimSpace(s));
    }
  }

  /** After the clean-up no two blank lines follow each other, and the text is trimmed. */
  lemma PreprocessedIsTight(s: string)
    ensures NoGap(Preprocessed(s)) && TrimSpace(Preprocessed(s)) == Preprocessed(s)
  {
    var u := Uncited(WithoutMarkers(s));
    CollapsedHasNoGap(u);
    TrimmedHasNoGap(Collapsed(u));
    TrimTwice(Collapsed(u));
  }

  lemma WithoutMarkersShrinks(s: string)
    ensures |WithoutMarkers(s)| <= |s| && (|WithoutMarkers(s)| == |s| <==> NoMarkers(Lines(s)))
    ensures NoMarkers(Lines(s)) ==> WithoutMarkers(s) == s
  {
    BlankedShrinks(Lines(s));
    UnlinesOfLines(s);
  }

  /** The clean-up leaves a text alone exactly if it finds nothing to do in it. */
  lemma UnchangedIffClean(s: string)
    ensures Preprocessed(s) == s <==> IsClean(s)
  {
    var m := WithoutMarkers(s);
    var u := Uncited(m);
    WithoutMarkersShrinks(s);
    UncitedShrinks(m);
    CollapsedShrinks(u);
    CollapsedHasNoGap(u);
    TrimTwice(Collapsed(u));
  }

  /** Cleaning up twice is cleaning up once exactly if the first time leaves no marker line and no citation. */
  lemma CleanTwiceIff(s: string)
    ensures Preprocessed(Preprocessed(s)) == Preprocessed(s) <==>
            NoMarkers(Lines(Preprocessed(s))) && NoCitation(Preprocessed(s))
  {
    PreprocessedIsTight(s);
    UnchangedIffClean(Preprocessed(s));
  }

  lemma CitationOf(digit: char, rest: string)
    requires '0' <= digit <= '9'
    ensures CitationLength(['[', digit, ']'] + rest) == 3 && Uncited(['[', digit, ']'] + rest) == Uncited(rest)
  {
    var s := ['[', digit, ']'] + rest;
    assert s[1..][0] == digit && s[1..][1..][0] == ']' && s[2] == ']';
    assert Digits(s[1..][1..]) == 0;
    assert s[3..] == rest;
  }

  lemma NotCited(c: char, rest: string)
    requires CitationLength([c] + rest) == 0
    ensures Uncited([c] + rest) == [c] + Uncited(rest)
  {
    assert ([c] + rest)[1..] == rest;
  }

  lemma NoMarkerWithin(s: string)
    requires NoNewline(s) && |s| >= 2 && s[0] == '[' && s[1] == '['
    ensures WithoutMarkers(s) == s
  {
    LinesOfLine(s);
    forall k | 0 <= k < |KINDS| ensures !("[" + KINDS[k] <= s) {
      assert ("[" + KINDS[k])[1] == KINDS[k][0];
    }
    WithoutMarkersShrinks(s);
  }

  lemma OneLineStays(s: string)
    requires NoNewline(s)
    ensures Collapsed(s) == s
  {
    CollapsedShrinks(s);
  }

  lemma NestedUncited()
    ensures Uncited("[[1]2]") == "[2]"
  {
    assert "[[1]2]"[1..] == "[1]2]" && "[[1]2]" == "[" + "[1]2]" && Digits("[1]2]") == 0;
    NotCited('[', "[1]2]");
    assert "[1]2]" == "[1]" + "2]";
    CitationOf('1', "2]");
    LastUncited();
    assert "[" + "2]" == "[2]";
  }

  lemma LastUncited()
    ensures Uncited("2]") == "2]"
  {
    assert "2]" == "2" + "]" && "]" == "]" + "";
    NotCited('2', "]");
    NotCited(']', "");
  }

  /** What the stages make of one line. */
  lemma CleanedLine(s: string, r: string)
    requires WithoutMarkers(s) == s && Uncited(s) == r && NoNewline(r)
    requires r != "" && !IsSpace(r[0]) && !IsSpace(r[|r| - 1])
    ensures Preprocessed(s) == r
  {
    OneLineStays(r);
    TrimSpaceOfTight(r);
  }

  /** Removing a citation can make another, which stays. */
  lemma CleanupCanLeaveCitation()
    ensures Preprocessed("[[1]2]") == "[2]" && CitationLength("[2]") == 3 && Preprocessed("[2]") == ""
  {
    NoMarkerWithin("[[1]2]");
    NestedUncited();
    CleanedLine("[[1]2]", "[2]");
    CitedLine();
  }

  lemma CitedLine()
    ensures CitationLength("[2]") == 3 && Preprocessed("[2]") == ""
  {
    assert "[2]" == "[2]" + "";
    CitationOf('2', "");
    LinesOfLine("[2]");
    forall k | 0 <= k < |KINDS| ensures !("[" + KINDS[k] <= "[2]") {
      assert ("[" + KINDS[k])[1] == KINDS[k][0];
    }
    WithoutMarkersShrinks("[2]");
  }
}
