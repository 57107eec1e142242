/** String operations shared by the text transformations. */
module Text {

  datatype Option<+T> = None | Some(value: T)

  function Max(a: int, b: int): int {
    if a < b then b else a
  }

  lemma Associate<T>(a: seq<T>, b: seq<T>, c: seq<T>)
    ensures a + (b + c) == a + b + c
  {
  }

  lemma FirstAndRest<T>(a: seq<T>, b: seq<T>)
    requires a != []
    ensures a + b == [a[0]] + (a[1..] + b)
  {
  }

  /** An order in which a set may be walked. */
  ghost predicate Lists(order: seq<string>, keys: set<string>) {
    && (forall i, j :: 0 <= i < j < |order| ==> order[i] != order[j])
    && (forall x :: x in order <==> x in keys)
  }

  /** Unicode white space, as Go's `strings.TrimSpace` sees it. */
  predicate IsSpace(c: char) {
    || c == ' ' || '\t' <= c <= '\r' || c == '\U{85}' || c == '\U{A0}' || c == '\U{1680}'
    || '\U{2000}' <= c <= '\U{200A}' || c == '\U{2028}' || c == '\U{2029}' || c == '\U{202F}'
    || c == '\U{205F}' || c == '\U{3000}'
  }

  predicate IsBlank(s: string) {
    forall i :: 0 <= i < |s| ==> IsSpace(s[i])
  }

  function TrimLeft(s: string): string {
    if s != "" && IsSpace(s[0]) then TrimLeft(s[1..]) else s
  }

  function TrimRight(s: string): string {
    if s != "" && IsSpace(s[|s| - 1]) then TrimRight(s[..|s| - 1]) else s
  }

  function TrimSpace(s: string): string {
    TrimRight(TrimLeft(s))
  }

  /** Trimming on the left cuts off a blank prefix and no more. */
  lemma {:induction false} TrimLeftSpec(s: string)
    ensures |TrimLeft(s)| <= |s| && TrimLeft(s) == s[|s| - |TrimLeft(s)|..]
    ensures IsBlank(s[..|s| - |TrimLeft(s)|])
    ensures TrimLeft(s) != "" ==> !IsSpace(TrimLeft(s)[0])
  {
    if s != "" && IsSpace(s[0]) {
      TrimLeftSpec(s[1..]);
    }
  }

  lemma {:induction false} TrimRightSpec(s: string)
    ensures |TrimRight(s)| <= |s| && TrimRight(s) == s[..|TrimRight(s)|]
    ensures IsBlank(s[|TrimRight(s)|..])
    ensures TrimRight(s) != "" ==> !IsSpace(TrimRight(s)[|TrimRight(s)| - 1])
  {
    if s != "" && IsSpace(s[|s| - 1]) {
      var before := s[..|s| - 1];
      TrimRightSpec(before);
      var n := |TrimRight(before)|;
      assert before[..n] == s[..n] && s[n..] == before[n..] + [s[|s| - 1]];
    }
  }

  lemma TrimSpaceOfTight(s: string)
    requires s != "" && !IsSpace(s[0]) && !IsSpace(s[|s| - 1])
    ensures TrimSpace(s) == s
  {
  }

  /** Trimming keeps a slice, with nothing but white space around it. */
  lemma TrimSpaceSpec(s: string) returns (a: nat, b: nat)
    ensures a <= b <= |s| && TrimSpace(s) == s[a..b]
    ensures IsBlank(s[..a]) && IsBlank(s[b..])
    ensures a < b ==> !IsSpace(s[a]) && !IsSpace(s[b - 1])
  {
    var t := TrimLeft(s);
    TrimLeftSpec(s);
    a := |s| - |t|;
    TrimRightSpec(t);
    b := a + |TrimRight(t)|;
    SliceOfSlice(s, a, b - a);
  }

  lemma SliceOfSlice<T>(s: seq<T>, a: nat, n: nat)
    requires a + n <= |s|
    ensures s[a..][..n] == s[a..a + n] && s[a..][n..] == s[a + n..]
  {
  }

  lemma TrimSpaceEmptyIffBlank(s: string)
    ensures TrimSpace(s) == "" <==> IsBlank(s)
  {
    var t := TrimLeft(s);
    TrimLeftSpec(s);
    TrimRightSpec(t);
    assert s == s[..|s| - |t|] + t;
    if TrimSpace(s) == "" {
      assert t[0..] == t;
    }
  }

  /** Lower case, for ASCII letters. */
  function ToLower(s: string): string {
    seq(|s|, i requires 0 <= i < |s| => if 'A' <= s[i] <= 'Z' then s[i] + 32 as char else s[i])
  }

  predicate Contains(s: string, pattern: string) {
    exists i :: 0 <= i <= |s| && pattern <= s[i..]
  }

  // --- Lines ---

  predicate NoNewline(s: string) {
    '\n' !in s
  }

  /** Splits at newlines; there is always at least one line. */
  function Lines(s: string): (lines: seq<string>)
    ensures |lines| >= 1
  {
    if s == "" then [""]
    else
      var rest := Lines(s[1..]);
      if s[0] == '\n' then [""] + rest else [[s[0]] + rest[0]] + rest[1..]
  }

  function Unlines(lines: seq<string>): string {
    if |lines| == 0 then "" else if |lines| == 1 then lines[0] else lines[0] + "\n" + Unlines(lines[1..])
  }

  lemma {:induction false} LinesHaveNoNewline(s: string, i: nat)
    requires i < |Lines(s)|
    ensures NoNewline(Lines(s)[i])
  {
    if s != "" {
      if s[0] == '\n' {
        if i > 0 { LinesHaveNoNewline(s[1..], i - 1); }
      } else {
        LinesHaveNoNewline(s[1..], i);
      }
    }
  }

  lemma {:induction false} UnlinesOfLines(s: string)
    ensures Unlines(Lines(s)) == s
  {
    if s != "" {
      UnlinesOfLines(s[1..]);
      var rest := Lines(s[1..]);
      if s[0] == '\n' {
        assert ([""] + rest)[1..] == rest;
      } else {
        assert ([[s[0]] + rest[0]] + rest[1..])[1..] == rest[1..];
        assert s == [s[0]] + Unlines(rest);
      }
    }
  }

  lemma {:induction false} LinesOfConcat(a: string, b: string)
    ensures Lines(a + "\n" + b) == Lines(a) + Lines(b)
  {
    if a == "" {
      assert (a + "\n" + b)[1..] == b;
    } else {
      LinesOfConcat(a[1..], b);
      assert (a + "\n" + b)[1..] == a[1..] + "\n" + b;
      HeadTail(Lines(a[1..]), Lines(b), a[0]);
    }
  }

  lemma HeadTail(head: seq<string>, tail: seq<string>, c: char)
    requires head != []
    ensures [""] + (head + tail) == [""] + head + tail
    ensures [[c] + (head + tail)[0]] + (head + tail)[1..] == [[c] + head[0]] + head[1..] + tail
  {
  }

  lemma {:induction false} LinesOfLine(s: string)
    requires NoNewline(s)
    ensures Lines(s) == [s]
  {
    if s != "" {
      assert NoNewline(s[1..]);
      LinesOfLine(s[1..]);
      assert s[0] in s;
      assert [s[0]] + s[1..] == s;
    }
  }

  lemma {:induction false} LinesOfUnlines(lines: seq<string>)
    requires |lines| >= 1 && forall i :: 0 <= i < |lines| ==> NoNewline(lines[i])
    ensures Lines(Unlines(lines)) == lines
  {
    LinesOfLine(lines[0]);
    if |lines| > 1 {
      LinesOfUnlines(lines[1..]);
      LinesOfConcat(lines[0], Unlines(lines[1..]));
    }
  }

  lemma {:induction false} UnlinesSnoc(lines: seq<string>, last: string)
    requires |lines| >= 1
    ensures Unlines(lines + [last]) == Unlines(lines) + "\n" + last
  {
    if |lines| > 1 {
      UnlinesSnoc(lines[1..], last);
      assert (lines + [last])[1..] == lines[1..] + [last];
    }
  }

  /** A text of three lines or more is its first line, the lines between, and its last line. */
  lemma UnlinesSandwich(lines: seq<string>, first: string, middle: seq<string>, last: string)
    requires |middle| >= 1 && lines == [first] + middle + [last]
    ensures Unlines(lines) == first + "\n" + Unlines(middle) + "\n" + last
  {
    var inner, rest := Unlines(middle), middle + [last];
    UnlinesSnoc(middle, last);
    assert lines[1..] == rest && lines[0] == first;
    Associate(first + "\n", inner + "\n", last);
    Associate(first + "\n", inner, "\n");
  }
}
