/**
  Signed prompt sections: every section is followed by a marker carrying its MAC, and the detector
  re-verifies each marker over the text before it. The MAC is abstract (RFC 2104, section 2).
 */
module PromptBoundary {
  import opened Text
  import opened TrustBoundary

  const OPEN := "[BOUNDARY:"
  const MARKER_LENGTH := 75

  function SignBoundary(content: string, mac: Mac): string {
    OPEN + mac(content) + "]"
  }

  /** The marker pattern: the opening, 64 lower-case hex digits and a closing bracket. */
  predicate IsMarker(s: string) {
    |s| == MARKER_LENGTH && s[..10] == OPEN && IsDigest(s[10..74]) && s[74] == ']'
  }

  predicate MarkerAt(s: string, i: nat) {
    i + MARKER_LENGTH <= |s| && IsMarker(s[i..i + MARKER_LENGTH])
  }

  ghost predicate NoMarker(s: string) {
    forall i: nat :: !MarkerAt(s, i)
  }

  lemma SignIsMarker(content: string, mac: Mac)
    ensures IsMarker(SignBoundary(content, mac)) && SignBoundary(content, mac)[10..74] == mac(content)
  {
  }

  /** A section is followed by its code in a marker, and sections by an empty line. */
  lemma SignedOfOne(section: string, mac: Mac)
    ensures Signed([section], mac) == section + "[BOUNDARY:" + mac(section) + "]"
  {
    assert [section][1..] == [];
    Associate(section, "[BOUNDARY:" + mac(section), "]");
    Associate(section, "[BOUNDARY:", mac(section));
  }

  lemma {:induction false} SignedOfBoth(a: seq<string>, b: seq<string>, mac: Mac)
    requires a != [] && b != []
    ensures Signed(a + b, mac) == Signed(a, mac) + "\n\n" + Signed(b, mac)
  {
    var first := a[0] + SignBoundary(a[0], mac);
    assert (a + b)[1..] == a[1..] + b;
    if a[1..] == [] {
      assert a[1..] + b == b && first + "" == first;
      Associate(first, "\n\n", Signed(b, mac));
    } else {
      SignedOfBoth(a[1..], b, mac);
      Associate("\n\n", Signed(a[1..], mac), "\n\n" + Signed(b, mac));
      Associate(Signed(a[1..], mac), "\n\n", Signed(b, mac));
      Associate(first, "\n\n" + Signed(a[1..], mac), "\n\n" + Signed(b, mac));
      Associate(first + ("\n\n" + Signed(a[1..], mac)), "\n\n", Signed(b, mac));
    }
  }

  /** An opening bracket stands only at the front of a marker. */
  lemma MarkerBrackets(s: string, i: nat)
    requires MarkerAt(s, i)
    ensures s[i] == '[' && forall k :: i < k < i + MARKER_LENGTH ==> s[k] != '['
  {
    var marker := s[i..i + MARKER_LENGTH];
    assert marker[0] == OPEN[0] && s[i] == marker[0];
    forall k | i < k < i + MARKER_LENGTH ensures s[k] != '[' {
      var d := k - i;
      assert s[k] == marker[d];
      if d < 10 {
        assert marker[d] == OPEN[d];
      } else if d < 74 {
        assert marker[d] == marker[10..74][d - 10];
      }
    }
  }

  // --- Signing ---

  function Signed(sections: seq<string>, mac: Mac): string
    decreases |sections|, 0
  {
    if sections == [] then ""
    else sections[0] + SignBoundary(sections[0], mac) + Continued(sections[1..], mac)
  }

  function Continued(sections: seq<string>, mac: Mac): string
    decreases |sections|, 1
  {
    if sections == [] then "" else "\n\n" + Signed(sections, mac)
  }

  lemma JoinStep(sections: seq<string>, i: nat, mac: Mac, prompt: string)
    requires i < |sections|
    ensures prompt + Signed(sections[i..], mac) ==
            prompt + sections[i] + SignBoundary(sections[i], mac) + Continued(sections[i + 1..], mac)
  {
    var section, sign := sections[i], SignBoundary(sections[i], mac);
    assert sections[i..][1..] == sections[i + 1..];
    Associate(prompt, section + sign, Continued(sections[i + 1..], mac));
    Associate(prompt, section, sign);
  }

  method JoinSigned(sections: seq<string>, mac: Mac) returns (prompt: string)
    ensures prompt == Signed(sections, mac)
  {
    prompt := "";
    ghost var whole := Signed(sections, mac);
    assert sections[0..] == sections && "" + whole == whole;
    for i := 0 to |sections|
      invariant prompt + Signed(sections[i..], mac) == whole
    {
      JoinStep(sections, i, mac, prompt);
      prompt := prompt + sections[i];
      prompt := prompt + SignBoundary(sections[i], mac);
      if i < |sections| - 1 {
        Associate(prompt, "\n\n", Signed(sections[i + 1..], mac));
        prompt := prompt + "\n\n";
      }
    }
    assert prompt + "" == prompt;
  }

  // --- Verifying ---

  function TrimNewlines(s: string): string {
    if s != "" && s[0] == '\n' then TrimNewlines(s[1..]) else s
  }

  /** The leftmost marker at or after `from`, or the length when there is none. */
  function NextMarker(s: string, from: nat): (i: nat)
    requires from <= |s|
    ensures from <= i <= |s| && (i < |s| ==> i + MARKER_LENGTH <= |s|)
    decreases |s| - from
  {
    if from == |s| || MarkerAt(s, from) then from else NextMarker(s, from + 1)
  }

  lemma {:induction false} NextMarkerIs(s: string, from: nat, edge: nat)
    requires from <= edge && MarkerAt(s, edge) && forall k: nat :: from <= k < edge ==> !MarkerAt(s, k)
    ensures NextMarker(s, from) == edge
    decreases edge - from
  {
    if from < edge {
      NextMarkerIs(s, from + 1, edge);
    }
  }

  function SectionBefore(s: string, from: nat, marker: nat): string
    requires from <= marker <= |s|
  {
    if from > 0 then TrimNewlines(s[from..marker]) else s[from..marker]
  }

  /** The marker carries the MAC of the section before it. */
  predicate SignedAt(s: string, from: nat, marker: nat, mac: Mac)
    requires from <= marker && marker + MARKER_LENGTH <= |s|
  {
    s[marker + 10..marker + 74] == mac(SectionBefore(s, from, marker))
  }

  /** Every marker from `from` on carries the MAC of the section before it. */
  predicate AllSigned(s: string, from: nat, mac: Mac)
    requires from <= |s|
    decreases |s| - from
  {
    var i := NextMarker(s, from);
    i == |s| || (SignedAt(s, from, i, mac) && AllSigned(s, i + MARKER_LENGTH, mac))
  }

  method VerifyBoundaries(content: string, mac: Mac) returns (ok: bool)
    ensures ok == AllSigned(content, 0, mac)
  {
    var prevEnd := 0;
    ghost var whole := AllSigned(content, 0, mac);
    while true
      invariant prevEnd <= |content| && whole == AllSigned(content, prevEnd, mac)
      decreases |content| - prevEnd
    {
      var markerStart := NextMarker(content, prevEnd);
      if markerStart == |content| {
        return true;
      }
      AllSignedStep(content, prevEnd, markerStart, mac);
      var signed := VerifyAt(content, prevEnd, markerStart, mac);
      if !signed {
        return false;
      }
      prevEnd := markerStart + MARKER_LENGTH;
    }
  }

  method VerifyAt(content: string, prevEnd: nat, markerStart: nat, mac: Mac) returns (signed: bool)
    requires prevEnd <= markerStart && markerStart + MARKER_LENGTH <= |content|
    ensures signed == SignedAt(content, prevEnd, markerStart, mac)
  {
    var section := content[prevEnd..markerStart];
    if prevEnd > 0 {
      section := TrimNewlines(section);
    }
    return content[markerStart + 10..markerStart + 74] == mac(section);
  }

  // --- Signed prompts verify ---

  /** No match starts in the text before a marker: it would straddle the marker's own bracket. */
  lemma NextMarkerIsEdge(s: string, from: nat, edge: nat)
    requires from <= edge && MarkerAt(s, edge)
    requires forall k: nat :: from <= k && k + MARKER_LENGTH <= edge ==> !MarkerAt(s, k)
    ensures NextMarker(s, from) == edge
  {
    MarkerBrackets(s, edge);
    forall k: nat | from <= k < edge ensures !MarkerAt(s, k) {
      if MarkerAt(s, k) {
        MarkerBrackets(s, k);
      }
    }
    NextMarkerIs(s, from, edge);
  }

  /** A section without markers, after an optional separator, is found whole. */
  lemma NextMarkerOfSection(before: string, gap: string, section: string, marker: string, after: string)
    requires NoMarker(section) && IsMarker(marker) && '[' !in gap
    ensures NextMarker(before + gap + section + marker + after, |before|) == |before + gap + section|
  {
    var s, start, edge := before + gap + section + marker + after, |before + gap|, |before + gap + section|;
    assert s[edge..edge + MARKER_LENGTH] == marker && s[start..edge] == section && s[|before|..start] == gap;
    forall k: nat | |before| <= k && k + MARKER_LENGTH <= edge ensures !MarkerAt(s, k) {
      if k < start {
        assert s[k] == gap[k - |before|];
        if MarkerAt(s, k) {
          MarkerBrackets(s, k);
        }
      } else {
        assert s[k..k + MARKER_LENGTH] == section[k - start..k - start + MARKER_LENGTH];
        assert !MarkerAt(section, k - start);
      }
    }
    NextMarkerIsEdge(s, |before|, edge);
  }

  ghost predicate Unmarked(sections: seq<string>) {
    forall i :: 0 <= i < |sections| ==> NoMarker(sections[i])
  }

  /** Dropping the leading newlines of a later section does not change its MAC. */
  ghost predicate Separable(section: string, mac: Mac) {
    mac(TrimNewlines(section)) == mac(section)
  }

  lemma Slices(text: string, section: string, marker: string, after: string)
    requires |marker| == MARKER_LENGTH
    ensures var s, edge := text + section + marker + after, |text + section|;
            s[|text|..edge] == section && s[edge + 10..edge + 74] == marker[10..74]
  {
  }

  lemma AllSignedStep(s: string, from: nat, edge: nat, mac: Mac)
    requires from <= edge < |s| && NextMarker(s, from) == edge
    ensures AllSigned(s, from, mac) <==> SignedAt(s, from, edge, mac) && AllSigned(s, edge + MARKER_LENGTH, mac)
  {
  }

  lemma SignedAtEdge(text: string, section: string, claimed: string, after: string, mac: Mac)
    ensures var s := text + section + SignBoundary(claimed, mac) + after;
            SignedAt(s, |text|, |text + section|, mac) <==>
            mac(claimed) == mac(if text != "" then TrimNewlines(section) else section)
  {
    SignIsMarker(claimed, mac);
    Slices(text, section, SignBoundary(claimed, mac), after);
  }

  /** Verification takes a signed section off the front. */
  lemma SectionStep(before: string, gap: string, section: string, after: string, mac: Mac)
    requires NoMarker(section) && '[' !in gap
    ensures var done := before + gap + section + SignBoundary(section, mac);
            AllSigned(done + after, |before|, mac) <==>
            mac(section) == mac(if before != "" then TrimNewlines(gap + section) else gap + section)
            && AllSigned(done + after, |done|, mac)
  {
    var marker := SignBoundary(section, mac);
    var s, edge := before + gap + section + marker + after, |before + gap + section|;
    SignIsMarker(section, mac);
    NextMarkerOfSection(before, gap, section, marker, after);
    AllSignedStep(s, |before|, edge, mac);
    Associate(before, gap, section);
    SignedAtEdge(before, gap + section, section, after, mac);
  }

  lemma TrimSeparator(section: string)
    ensures TrimNewlines("\n\n" + section) == TrimNewlines(section)
  {
    assert ("\n\n" + section)[1..] == "\n" + section && ("\n" + section)[1..] == section;
  }

  ghost predicate AllSeparable(sections: seq<string>, mac: Mac) {
    forall i :: 0 <= i < |sections| ==> Separable(sections[i], mac)
  }

  lemma SeparableCons(sections: seq<string>, mac: Mac)
    requires sections != []
    ensures AllSeparable(sections, mac) <==> Separable(sections[0], mac) && AllSeparable(sections[1..], mac)
  {
    assert sections == [sections[0]] + sections[1..];
  }

  lemma ContinuedStep(before: string, sections: seq<string>, mac: Mac)
    requires sections != []
    ensures before + Continued(sections, mac) ==
            before + "\n\n" + sections[0] + SignBoundary(sections[0], mac) + Continued(sections[1..], mac)
  {
  }

  lemma {:induction false} SignedTailVerifies(before: string, sections: seq<string>, mac: Mac)
    requires Unmarked(sections) && before != ""
    ensures AllSigned(before + Continued(sections, mac), |before|, mac) <==> AllSeparable(sections, mac)
    decreases |sections|
  {
    if sections == [] {
      assert before + Continued(sections, mac) == before;
    } else {
      var section := sections[0];
      ContinuedStep(before, sections, mac);
      SectionStep(before, "\n\n", section, Continued(sections[1..], mac), mac);
      TrimSeparator(section);
      SignedTailVerifies(before + "\n\n" + section + SignBoundary(section, mac), sections[1..], mac);
      SeparableCons(sections, mac);
    }
  }

  /**
    A prompt signed from sections that embed no marker verifies exactly when no later section's MAC
    changes by dropping its leading newlines.
   */
  lemma SignedVerifiesIff(sections: seq<string>, mac: Mac)
    requires Unmarked(sections)
    ensures AllSigned(Signed(sections, mac), 0, mac) <==>
            forall i :: 1 <= i < |sections| ==> Separable(sections[i], mac)
  {
    if sections != [] {
      var section, rest := sections[0], sections[1..];
      var done, after := section + SignBoundary(section, mac), Continued(rest, mac);
      EmptyFront(section, SignBoundary(section, mac));
      SectionStep("", "", section, after, mac);
      SignedTailVerifies(done, rest, mac);
      SeparableTail(sections, mac);
    }
  }

  lemma SeparableTail(sections: seq<string>, mac: Mac)
    requires sections != []
    ensures (forall i :: 1 <= i < |sections| ==> Separable(sections[i], mac)) <==>
            (forall i :: 0 <= i < |sections[1..]| ==> Separable(sections[1..][i], mac))
  {
    assert forall i :: 1 <= i < |sections| ==> sections[i] == sections[1..][i - 1];
  }

  lemma EmptyFront(a: string, b: string)
    ensures "" + "" + a + b == a + b && "" + a == a
  {
  }

  /** Two sections that do not verify: the second loses leading newlines that its code was made of. */
  lemma LeadingNewlinesCanFail(first: string, second: string, mac: Mac)
    requires NoMarker(first) && NoMarker(second) && mac(TrimNewlines(second)) != mac(second)
    ensures !AllSigned(Signed([first, second], mac), 0, mac)
  {
    var sections := [first, second];
    SignedVerifiesIff(sections, mac);
    assert !Separable(sections[1], mac);
  }

  /** In particular when no section after the first starts with a newline. */
  lemma SignedVerifies(sections: seq<string>, mac: Mac)
    requires Unmarked(sections)
    requires forall i :: 1 <= i < |sections| ==> sections[i] == "" || sections[i][0] != '\n'
    ensures AllSigned(Signed(sections, mac), 0, mac)
  {
    SignedVerifiesIff(sections, mac);
  }

  /** Unsigned text is accepted. */
  lemma {:induction false} UnmarkedIsAccepted(s: string, from: nat, mac: Mac)
    requires NoMarker(s) && from <= |s|
    ensures NextMarker(s, from) == |s| && AllSigned(s, from, mac)
    decreases |s| - from
  {
    if from < |s| {
      UnmarkedIsAccepted(s, from + 1, mac);
    }
  }

  /** A text is rejected if the first marker in it does not carry the code of all that precedes it. */
  lemma ForgeryIsRejected(s: string, i: nat, mac: Mac)
    requires MarkerAt(s, i) && (forall k: nat :: k + MARKER_LENGTH <= i ==> !MarkerAt(s, k))
    requires s[i + 10..i + 74] != mac(s[..i])
    ensures !AllSigned(s, 0, mac)
  {
    NextMarkerIsEdge(s, 0, i);
    assert s[0..i] == s[..i];
  }
}
