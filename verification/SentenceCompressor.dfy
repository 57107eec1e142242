/**
  Semantic compression: a long message is cut into sentences, the best-scoring ones that fit half its
  length are kept, and they are put back in their original order.
 */
module SentenceCompressor {
  import opened Text

  // --- Sentences ---

  predicate IsTerminator(c: char) {
    c == '.' || c == '!' || c == '?'
  }

  /** A terminator followed by a space, a newline or the end. */
  predicate IsSentenceEnd(text: string, i: nat)
    requires i < |text|
  {
    IsTerminator(text[i]) && (i + 1 >= |text| || text[i + 1] == ' ' || text[i + 1] == '\n')
  }

  datatype Span = Span(start: nat, end: nat)

  ghost predicate BlankBetween(text: string, lo: nat, hi: nat)
    requires lo <= hi <= |text|
  {
    forall k :: lo <= k < hi ==> IsSpace(text[k])
  }

  ghost predicate NoEndBetween(text: string, lo: nat, hi: nat)
    requires hi <= |text|
  {
    forall k :: lo <= k < hi ==> !IsSentenceEnd(text, k)
  }

  /** A sentence: trimmed, not empty, with no sentence end before its last character. */
  ghost predicate SpanOk(text: string, sentence: string, span: Span) {
    && span.start < span.end <= |text| && sentence == text[span.start..span.end]
    && !IsSpace(text[span.start]) && !IsSpace(text[span.end - 1])
    && NoEndBetween(text, span.start, span.end - 1)
  }

  /** Two consecutive sentences: the first stops at an end, and white space, at least one, separates them. */
  ghost predicate Follows(text: string, before: Span, after: Span) {
    && 0 < before.end < after.start <= |text|
    && IsSentenceEnd(text, before.end - 1) && BlankBetween(text, before.end, after.start)
  }

  /** The sentences account for the text up to `upto`: all else is white space. */
  ghost predicate Parsed(text: string, sentences: seq<string>, spans: seq<Span>, upto: nat) {
    && |sentences| == |spans| && upto <= |text|
    && (forall k :: 0 <= k < |spans| ==> SpanOk(text, sentences[k], spans[k]))
    && (forall k :: 0 < k < |spans| ==> Follows(text, spans[k - 1], spans[k]))
    && (if spans == [] then BlankBetween(text, 0, upto)
        else
          var end := spans[|spans| - 1].end;
          BlankBetween(text, 0, spans[0].start) && end <= upto && BlankBetween(text, end, upto))
  }

  lemma TrimSpan(text: string, lo: nat, hi: nat) returns (span: Span)
    requires lo <= hi <= |text|
    ensures lo <= span.start <= span.end <= hi && TrimSpace(text[lo..hi]) == text[span.start..span.end]
    ensures BlankBetween(text, lo, span.start) && BlankBetween(text, span.end, hi)
    ensures span.start < span.end ==> !IsSpace(text[span.start]) && !IsSpace(text[span.end - 1])
  {
    var a, b := TrimSpaceSpec(text[lo..hi]);
    span := Span(lo + a, lo + b);
    SliceShift(text, lo, hi, a, b);
  }

  lemma SliceShift(text: string, lo: nat, hi: nat, a: nat, b: nat)
    requires lo <= hi <= |text| && a <= b <= hi - lo
    requires IsBlank(text[lo..hi][..a]) && IsBlank(text[lo..hi][b..])
    ensures text[lo..hi][a..b] == text[lo + a..lo + b]
    ensures BlankBetween(text, lo, lo + a) && BlankBetween(text, lo + b, hi)
  {
    assert forall k :: 0 <= k < b - a ==> text[lo..hi][a..b][k] == text[lo + a..lo + b][k];
    assert forall k :: lo <= k < lo + a ==> text[k] == text[lo..hi][..a][k - lo];
    assert forall k :: lo + b <= k < hi ==> text[k] == text[lo..hi][b..][k - lo - b];
  }

  /** A parse that stopped right after a sentence end, or has not begun. */
  ghost predicate Resumable(text: string, sentences: seq<string>, spans: seq<Span>, start: nat) {
    && Parsed(text, sentences, spans, start)
    && (if spans == [] then start == 0 else spans[|spans| - 1].end == start && IsSentenceEnd(text, start - 1))
  }

  lemma ParsedSnoc(text: string, sentences: seq<string>, spans: seq<Span>, start: nat, hi: nat, span: Span,
                   sentence: string)
    requires Resumable(text, sentences, spans, start) && start < hi <= |text|
    requires SpanOk(text, sentence, span) && start <= span.start && span.end <= hi
    requires BlankBetween(text, start, span.start) && BlankBetween(text, span.end, hi)
    ensures Parsed(text, sentences + [sentence], spans + [span], hi)
  {
    var all, texts := spans + [span], sentences + [sentence];
    if spans != [] {
      assert IsSpace(text[start]);
      assert Follows(text, spans[|spans| - 1], span);
    }
    forall k | 0 <= k < |all| ensures SpanOk(text, texts[k], all[k]) {
      if k < |spans| {
        assert SpanOk(text, sentences[k], spans[k]);
      }
    }
    forall k | 0 < k < |all| ensures Follows(text, all[k - 1], all[k]) {
      if k < |spans| {
        assert Follows(text, spans[k - 1], spans[k]);
      }
    }
  }

  /** Cuts a sentence off at the end found at `i`. */
  lemma CutSentence(text: string, sentences: seq<string>, spans: seq<Span>, start: nat, i: nat) returns (span: Span)
    requires Resumable(text, sentences, spans, start) && start <= i < |text|
    requires NoEndBetween(text, start, i) && IsSentenceEnd(text, i)
    ensures TrimSpace(text[start..i + 1]) != ""
    ensures Resumable(text, sentences + [TrimSpace(text[start..i + 1])], spans + [span], i + 1)
  {
    span := TrimSpan(text, start, i + 1);
    assert !IsSpace(text[i]) && span.end == i + 1;
    ParsedSnoc(text, sentences, spans, start, i + 1, span, TrimSpace(text[start..i + 1]));
  }

  /** The rest of the text after the last end is a sentence of its own unless it is blank. */
  lemma CutRest(text: string, sentences: seq<string>, spans: seq<Span>, start: nat) returns (span: Span)
    requires Resumable(text, sentences, spans, start) && start < |text| && NoEndBetween(text, start, |text|)
    ensures if TrimSpace(text[start..]) == "" then Parsed(text, sentences, spans, |text|)
            else Parsed(text, sentences + [TrimSpace(text[start..])], spans + [span], |text|)
  {
    assert text[start..] == text[start..|text|];
    span := TrimSpan(text, start, |text|);
    if TrimSpace(text[start..]) != "" {
      ParsedSnoc(text, sentences, spans, start, |text|, span, TrimSpace(text[start..]));
    }
  }

  /** The sentences of a text, at spans that account for all of it. */
  ghost predicate AreSentences(text: string, sentences: seq<string>) {
    exists spans :: Parsed(text, sentences, spans, |text|)
  }

  /** Where the white space before a sentence begins. */
  function GapStart(spans: seq<Span>, k: nat): nat
    requires k <= |spans|
  {
    if k == 0 then 0 else spans[k - 1].end
  }

  lemma GapIsBlank(text: string, sentences: seq<string>, spans: seq<Span>, k: nat)
    requires Parsed(text, sentences, spans, |text|) && k <= |spans|
    ensures var hi := if k == |spans| then |text| else spans[k].start;
            GapStart(spans, k) <= hi <= |text| && BlankBetween(text, GapStart(spans, k), hi)
  {
    if k < |spans| {
      assert SpanOk(text, sentences[k], spans[k]);
    }
    if 0 < k {
      assert SpanOk(text, sentences[k - 1], spans[k - 1]);
    }
  }

  /** A sentence does not go on past where another parse ends it. */
  lemma NoLonger(text: string, a: seq<string>, p: seq<Span>, b: seq<string>, q: seq<Span>, k: nat)
    requires Parsed(text, a, p, |text|) && Parsed(text, b, q, |text|) && k < |p| && k < |q| && p[k].start == q[k].start
    ensures q[k].end <= p[k].end
  {
    assert SpanOk(text, a[k], p[k]) && SpanOk(text, b[k], q[k]);
    GapIsBlank(text, a, p, k + 1);
    assert k + 1 < |p| ==> Follows(text, p[k], p[k + 1]);
  }

  lemma {:induction false} SameSpan(text: string, a: seq<string>, p: seq<Span>, b: seq<string>, q: seq<Span>, k: nat)
    requires Parsed(text, a, p, |text|) && Parsed(text, b, q, |text|) && k < |p|
    ensures k < |q| && p[k] == q[k]
  {
    if k > 0 {
      SameSpan(text, a, p, b, q, k - 1);
    }
    assert SpanOk(text, a[k], p[k]);
    GapIsBlank(text, a, p, k);
    GapIsBlank(text, b, q, k);
    assert k < |q|;
    assert SpanOk(text, b[k], q[k]);
    assert p[k].start == q[k].start;
    NoLonger(text, a, p, b, q, k);
    NoLonger(text, b, q, a, p, k);
  }

  /** A text has only one list of sentences. */
  lemma SentencesAreUnique(text: string, a: seq<string>, b: seq<string>)
    requires AreSentences(text, a) && AreSentences(text, b)
    ensures a == b
  {
    var p :| Parsed(text, a, p, |text|);
    var q :| Parsed(text, b, q, |text|);
    forall k | 0 <= k < |a| ensures k < |b| && a[k] == b[k] {
      SameSpan(text, a, p, b, q, k);
      assert SpanOk(text, a[k], p[k]) && SpanOk(text, b[k], q[k]);
    }
    if |a| < |b| {
      SameSpan(text, b, q, a, p, |a|);
    }
  }

  /** Cuts a sentence off if one ends at `i`. */
  method CutAt(text: string, i: nat, start: nat, sentences: seq<string>, ghost spans: seq<Span>)
    returns (next: nat, more: seq<string>, ghost further: seq<Span>)
    requires start <= i < |text| && Resumable(text, sentences, spans, start) && NoEndBetween(text, start, i)
    ensures next <= i + 1 && Resumable(text, more, further, next) && NoEndBetween(text, next, i + 1)
  {
    next, more, further := start, sentences, spans;
    if IsSentenceEnd(text, i) {
      ghost var span := CutSentence(text, sentences, spans, start, i);
      var sentence := TrimSpace(text[start..i + 1]);
      if sentence != "" {
        more, further := sentences + [sentence], spans + [span];
      }
      next := i + 1;
    }
  }

  method SplitSentences(text: string) returns (sentences: seq<string>)
    ensures AreSentences(text, sentences)
  {
    sentences := [];
    ghost var spans: seq<Span> := [];
    var start: nat, i: nat := 0, 0;
    while i < |text|
      invariant start <= i <= |text| && Resumable(text, sentences, spans, start) && NoEndBetween(text, start, i)
    {
      start, sentences, spans := CutAt(text, i, start, sentences, spans);
      i := i + 1;
    }
    if start < |text| {
      ghost var span := CutRest(text, sentences, spans, start);
      var remaining := TrimSpace(text[start..]);
      if remaining != "" {
        sentences, spans := sentences + [remaining], spans + [span];
      }
    }
  }

  // --- Sorting ---

  datatype Scored = Scored(text: string, score: real, index: nat)

  function TotalLength(items: seq<Scored>): nat {
    if items == [] then 0 else |items[0].text| + TotalLength(items[1..])
  }

  lemma {:induction false} TotalLengthUpdate(items: seq<Scored>, i: nat, x: Scored)
    requires i < |items|
    ensures TotalLength(items[i := x]) == TotalLength(items) - |items[i].text| + |x.text|
  {
    if i > 0 {
      assert items[i := x][1..] == items[1..][i - 1 := x];
      TotalLengthUpdate(items[1..], i - 1, x);
    } else {
      assert items[i := x][1..] == items[1..];
    }
  }

  lemma TotalLengthSwap(items: seq<Scored>, i: nat, j: nat)
    requires i < j < |items|
    ensures TotalLength(items[i := items[j]][j := items[i]]) == TotalLength(items)
  {
    TotalLengthUpdate(items, i, items[j]);
    TotalLengthUpdate(items[i := items[j]], j, items[i]);
  }

  /** What any rearrangement keeps: the items, their total length, and that no two share an index. */
  ghost predicate Rearranged(items: seq<Scored>, before: seq<Scored>) {
    && multiset(items) == multiset(before) && |items| == |before| && TotalLength(items) == TotalLength(before)
    && (DistinctIndices(before) ==> DistinctIndices(items))
  }

  ghost predicate DistinctIndices(items: seq<Scored>) {
    forall p, q :: 0 <= p < q < |items| ==> items[p].index != items[q].index
  }

  lemma SwapRearranges(items: seq<Scored>, before: seq<Scored>, i: nat, j: nat)
    requires Rearranged(items, before) && i < j < |items|
    ensures Rearranged(items[i := items[j]][j := items[i]], before)
  {
    TotalLengthSwap(items, i, j);
  }

  ghost predicate Descending(items: seq<Scored>, key: Scored -> real, n: nat)
    requires n <= |items|
  {
    forall p, q :: 0 <= p < n && p < q < |items| ==> key(items[p]) >= key(items[q])
  }

  method Exchange(a: array<Scored>, i: nat, j: nat)
    requires i < j < a.Length
    modifies a
    ensures a[..] == old(a[..])[i := old(a[j])][j := old(a[i])]
  {
    a[i], a[j] := a[j], a[i];
  }

  /** One pass: every later item that beats the one at `i` changes places with it. */
  method Settle(a: array<Scored>, key: Scored -> real, i: nat)
    requires i < a.Length && Descending(a[..], key, i)
    modifies a
    ensures Rearranged(a[..], old(a[..])) && Descending(a[..], key, i + 1)
  {
    ghost var before := a[..];
    for j := i + 1 to a.Length
      invariant Rearranged(a[..], before) && Descending(a[..], key, i)
      invariant forall q :: i <= q < j ==> key(a[i]) >= key(a[q])
    {
      LargerFirst(a, key, i, j, before);
    }
  }

  /** Brings the larger of two elements to the front position. */
  method LargerFirst(a: array<Scored>, key: Scored -> real, i: nat, j: nat, ghost before: seq<Scored>)
    requires i < j < a.Length && Rearranged(a[..], before) && Descending(a[..], key, i)
    requires forall q :: i <= q < j ==> key(a[i]) >= key(a[q])
    modifies a
    ensures Rearranged(a[..], before) && Descending(a[..], key, i)
    ensures forall q :: i <= q <= j ==> key(a[i]) >= key(a[q])
  {
    if key(a[j]) > key(a[i]) {
      SwapRearranges(a[..], before, i, j);
      SwapKeepsDescending(a[..], key, i, j);
      Exchange(a, i, j);
    }
  }

  /** Exchange sort, largest key first. */
  method ExchangeSort(a: array<Scored>, key: Scored -> real)
    modifies a
    ensures Rearranged(a[..], old(a[..])) && Descending(a[..], key, a.Length)
  {
    for i := 0 to a.Length
      invariant Rearranged(a[..], old(a[..])) && Descending(a[..], key, i)
    {
      Settle(a, key, i);
    }
  }

  lemma SwapKeepsDescending(items: seq<Scored>, key: Scored -> real, i: nat, j: nat)
    requires i < j < |items| && Descending(items, key, i)
    ensures Descending(items[i := items[j]][j := items[i]], key, i)
  {
  }

  // --- Selecting ---

  function Joined(sentences: seq<string>, kept: seq<nat>): string
    requires forall k :: 0 <= k < |kept| ==> kept[k] < |sentences|
  {
    if |kept| == 0 then ""
    else if |kept| == 1 then sentences[kept[0]]
    else sentences[kept[0]] + " " + Joined(sentences, kept[1..])
  }

  function KeptLength(sentences: seq<string>, kept: seq<nat>): nat
    requires forall k :: 0 <= k < |kept| ==> kept[k] < |sentences|
  {
    if kept == [] then 0 else |sentences[kept[0]]| + KeptLength(sentences, kept[1..])
  }

  lemma {:induction false} JoinedLength(sentences: seq<string>, kept: seq<nat>)
    requires forall k :: 0 <= k < |kept| ==> kept[k] < |sentences|
    ensures |Joined(sentences, kept)| == KeptLength(sentences, kept) + if kept == [] then 0 else |kept| - 1
  {
    if |kept| == 1 {
      assert kept[1..] == [];
    } else if |kept| > 1 {
      JoinedLength(sentences, kept[1..]);
    }
  }

  lemma {:induction false} KeptLengthAtLeast(sentences: seq<string>, kept: seq<nat>)
    requires forall k :: 0 <= k < |kept| ==> kept[k] < |sentences|
    requires forall i :: 0 <= i < |sentences| ==> sentences[i] != ""
    ensures KeptLength(sentences, kept) >= |kept|
  {
    if kept != [] {
      KeptLengthAtLeast(sentences, kept[1..]);
    }
  }

  /** Sentence numbers in original order, without repetition. */
  ghost predicate Chronological(kept: seq<nat>, n: nat) {
    (forall k :: 0 <= k < |kept| ==> kept[k] < n) && (forall k, l :: 0 <= k < l < |kept| ==> kept[k] < kept[l])
  }

  /** A sentence that is not kept, and for which there is no room. */
  ghost predicate IsDropped(sentences: seq<string>, target: nat, kept: seq<nat>, d: nat)
    requires d < |sentences| && forall k :: 0 <= k < |kept| ==> kept[k] < |sentences|
  {
    d !in kept && KeptLength(sentences, kept) + |sentences[d]| > target
  }

  /**
    A selection of sentences for a target length: in order, no dropped sentence scoring above a kept
    one, within the target unless only one is kept, and with no room left for the best dropped one.
   */
  ghost predicate Selection(sentences: seq<string>, score: (seq<string>, nat) -> real, target: nat, kept: seq<nat>) {
    && kept != [] && Chronological(kept, |sentences|)
    && (forall k, d: nat :: 0 <= k < |kept| && d < |sentences| && d !in kept ==>
        score(sentences, kept[k]) >= score(sentences, d))
    && (|kept| == 1 || KeptLength(sentences, kept) <= target)
    && (|kept| == |sentences| || exists d: nat :: d < |sentences| && IsDropped(sentences, target, kept, d))
  }

  function Item(sentences: seq<string>, score: (seq<string>, nat) -> real, i: nat): Scored
    requires i < |sentences|
  {
    Scored(sentences[i], score(sentences, i), i)
  }

  ghost predicate AreItems(items: seq<Scored>, sentences: seq<string>, score: (seq<string>, nat) -> real) {
    forall k :: 0 <= k < |items| ==> items[k].index < |sentences| && items[k] == Item(sentences, score, items[k].index)
  }

  ghost function Indices(items: seq<Scored>): (kept: seq<nat>)
    ensures |kept| == |items| && forall k :: 0 <= k < |kept| ==> kept[k] == items[k].index
  {
    seq(|items|, k requires 0 <= k < |items| => items[k].index)
  }

  lemma MemberOfRearranged(items: seq<Scored>, before: seq<Scored>, k: nat) returns (p: nat)
    requires multiset(items) == multiset(before) && k < |items|
    ensures p < |before| && before[p] == items[k]
  {
    assert items[k] in multiset(items);
    assert items[k] in before;
    p :| p < |before| && before[p] == items[k];
  }

  lemma RearrangedAreItems(items: seq<Scored>, before: seq<Scored>, sentences: seq<string>,
                           score: (seq<string>, nat) -> real)
    requires multiset(items) == multiset(before) && AreItems(before, sentences, score)
    ensures AreItems(items, sentences, score)
  {
    forall k | 0 <= k < |items|
      ensures items[k].index < |sentences| && items[k] == Item(sentences, score, items[k].index)
    {
      var p := MemberOfRearranged(items, before, k);
    }
  }

  lemma {:induction false} TotalIsKeptLength(items: seq<Scored>, sentences: seq<string>,
                                             score: (seq<string>, nat) -> real)
    requires AreItems(items, sentences, score)
    ensures KeptLength(sentences, Indices(items)) == TotalLength(items)
  {
    if items != [] {
      TotalIsKeptLength(items[1..], sentences, score);
      assert Indices(items)[1..] == Indices(items[1..]);
    }
  }

  /** How many of the best sentences fit; the first is taken whatever its length. */
  method TakeBest(ranked: array<Scored>, target: nat) returns (m: nat)
    requires ranked.Length > 0
    ensures 1 <= m <= ranked.Length && (m == 1 || TotalLength(ranked[..m]) <= target)
    ensures m == ranked.Length || TotalLength(ranked[..m]) + |ranked[m].text| > target
  {
    m := 0;
    var length := 0;
    while m < ranked.Length
      invariant m <= ranked.Length && length == TotalLength(ranked[..m]) && (m <= 1 || length <= target)
    {
      if length + |ranked[m].text| > target && m > 0 {
        break;
      }
      TotalLengthSnoc(ranked[..m], ranked[m]);
      assert ranked[..m + 1] == ranked[..m] + [ranked[m]];
      length := length + |ranked[m].text|;
      m := m + 1;
    }
  }

  lemma {:induction false} TotalLengthSnoc(items: seq<Scored>, x: Scored)
    ensures TotalLength(items + [x]) == TotalLength(items) + |x.text|
  {
    if items == [] {
      assert items + [x] == [x] && [x][1..] == [];
    } else {
      assert (items + [x])[1..] == items[1..] + [x];
      TotalLengthSnoc(items[1..], x);
    }
  }

  lemma {:induction false} JoinedSnoc(sentences: seq<string>, kept: seq<nat>, last: nat)
    requires forall k :: 0 <= k < |kept| ==> kept[k] < |sentences|
    requires last < |sentences|
    ensures Joined(sentences, kept + [last]) ==
            Joined(sentences, kept) + (if kept == [] then "" else " ") + sentences[last]
  {
    if |kept| == 1 {
      assert (kept + [last])[1..] == [last];
    } else if |kept| > 1 {
      assert (kept + [last])[1..] == kept[1..] + [last];
      JoinedSnoc(sentences, kept[1..], last);
    }
  }

  method JoinTexts(items: array<Scored>, ghost sentences: seq<string>, ghost score: (seq<string>, nat) -> real)
    returns (text: string)
    requires AreItems(items[..], sentences, score)
    ensures text == Joined(sentences, Indices(items[..]))
  {
    text := "";
    ghost var kept := Indices(items[..]);
    for i := 0 to items.Length
      invariant text == Joined(sentences, kept[..i]) + if 0 < i < items.Length then " " else ""
    {
      assert kept[..i + 1] == kept[..i] + [kept[i]];
      JoinedSnoc(sentences, kept[..i], kept[i]);
      text := text + items[i].text;
      if i < items.Length - 1 {
        text := text + " ";
      }
    }
    assert kept[..items.Length] == kept;
  }

  function ByScore(x: Scored): real { x.score }

  function ByPosition(x: Scored): real { -(x.index as real) }

  lemma ChosenAreChronological(chosen: seq<Scored>, n: nat)
    requires Descending(chosen, ByPosition, |chosen|) && DistinctIndices(chosen)
    requires forall k :: 0 <= k < |chosen| ==> chosen[k].index < n
    ensures Chronological(Indices(chosen), n)
  {
    forall k, l | 0 <= k < l < |chosen| ensures chosen[k].index < chosen[l].index {
      assert ByPosition(chosen[k]) >= ByPosition(chosen[l]);
    }
  }

  /** Where a sentence stands in the ranking. */
  lemma RankOf(ranked: seq<Scored>, all: seq<Scored>, d: nat) returns (q: nat)
    requires multiset(ranked) == multiset(all) && d < |all|
    ensures q < |ranked| && ranked[q] == all[d]
  {
    q := MemberOfRearranged(all, ranked, d);
  }

  lemma TopIsChosen(ranked: seq<Scored>, m: nat, chosen: seq<Scored>, q: nat)
    requires q < m <= |ranked| && multiset(chosen) == multiset(ranked[..m])
    ensures ranked[q].index in Indices(chosen)
  {
    var l := MemberOfRearranged(ranked[..m], chosen, q);
    assert Indices(chosen)[l] == ranked[q].index;
  }

  lemma ChosenAreBest(all: seq<Scored>, ranked: seq<Scored>, m: nat, chosen: seq<Scored>)
    requires multiset(ranked) == multiset(all) && Descending(ranked, ByScore, |ranked|) && m <= |ranked|
    requires multiset(chosen) == multiset(ranked[..m]) && forall i :: 0 <= i < |all| ==> all[i].index == i
    ensures forall k, d: nat :: 0 <= k < |chosen| && d < |all| && d !in Indices(chosen) ==>
            chosen[k].score >= all[d].score
  {
    forall k, d: nat | 0 <= k < |chosen| && d < |all| && d !in Indices(chosen) ensures chosen[k].score >= all[d].score {
      var p := MemberOfRearranged(chosen, ranked[..m], k);
      var q := RankOf(ranked, all, d);
      if q < m {
        TopIsChosen(ranked, m, chosen, q);
      }
      assert ByScore(ranked[p]) >= ByScore(ranked[q]);
    }
  }

  /** The best sentence left out is not among the chosen ones. */
  lemma NextIsDropped(ranked: seq<Scored>, m: nat, chosen: seq<Scored>)
    requires m < |ranked| && DistinctIndices(ranked) && multiset(chosen) == multiset(ranked[..m])
    ensures ranked[m].index !in Indices(chosen)
  {
    forall k | 0 <= k < |chosen| ensures chosen[k].index != ranked[m].index {
      var p := MemberOfRearranged(chosen, ranked[..m], k);
      assert ranked[p].index != ranked[m].index;
    }
  }

  /** What ranking, taking the best and sorting by position amounts to. */
  lemma ChosenIsSelection(sentences: seq<string>, score: (seq<string>, nat) -> real, target: nat,
                          all: seq<Scored>, ranked: seq<Scored>, m: nat, chosen: seq<Scored>)
    requires |all| == |sentences| && forall i :: 0 <= i < |all| ==> all[i] == Item(sentences, score, i)
    requires Rearranged(ranked, all) && Descending(ranked, ByScore, |ranked|)
    requires 1 <= m <= |ranked| && (m == 1 || TotalLength(ranked[..m]) <= target)
    requires m == |ranked| || TotalLength(ranked[..m]) + |ranked[m].text| > target
    requires Rearranged(chosen, ranked[..m]) && Descending(chosen, ByPosition, |chosen|)
    ensures AreItems(chosen, sentences, score) && Selection(sentences, score, target, Indices(chosen))
  {
    var kept := Indices(chosen);
    RearrangedAreItems(ranked, all, sentences, score);
    RearrangedAreItems(chosen, ranked[..m], sentences, score);
    TotalIsKeptLength(chosen, sentences, score);
    ChosenAreChronological(chosen, |sentences|);
    ChosenAreBest(all, ranked, m, chosen);
    forall k, d: nat | 0 <= k < |kept| && d < |sentences| && d !in kept
      ensures score(sentences, kept[k]) >= score(sentences, d)
    {
      assert chosen[k].score >= all[d].score;
    }
    if m < |ranked| {
      NextIsDropped(ranked, m, chosen);
      var d := ranked[m].index;
      assert d < |sentences| && IsDropped(sentences, target, kept, d);
    }
  }

  /** A text made of a selection of the sentences. */
  ghost predicate IsSelected(sentences: seq<string>, score: (seq<string>, nat) -> real, target: nat, text: string) {
    exists kept :: Selection(sentences, score, target, kept) && text == Joined(sentences, kept)
  }

  /** Keeps the best sentences up to the target length. `score` rates them. */
  method Select(sentences: seq<string>, score: (seq<string>, nat) -> real, target: nat) returns (text: string)
    requires sentences != []
    ensures IsSelected(sentences, score, target, text)
  {
    var n := |sentences|;
    var ranked := new Scored[n](i requires 0 <= i < n => Item(sentences, score, i));
    ghost var all := ranked[..];
    ExchangeSort(ranked, ByScore);
    var m := TakeBest(ranked, target);
    var best := ranked[..m];
    var chosen := new Scored[m](i requires 0 <= i < m => best[i]);
    assert chosen[..] == best && ranked[..][..m] == best;
    ExchangeSort(chosen, ByPosition);
    ChosenIsSelection(sentences, score, target, all, ranked[..], m, chosen[..]);
    text := JoinTexts(chosen, sentences, score);
    assert Selection(sentences, score, target, Indices(chosen[..]));
  }

  /**
    Compresses a message of three sentences or more to a selection of them, in their original order and
    joined by single spaces; the result is never longer than the message.
   */
  method SemanticCompress(content: string, score: (seq<string>, nat) -> real) returns (result: string)
    ensures |result| <= |content| && exists sentences :: IsCompressed(content, score, sentences, result)
  {
    var sentences := SplitSentences(content);
    if |sentences| <= 2 {
      assert IsCompressed(content, score, sentences, content);
      return content;
    }
    result := Select(sentences, score, |content| / 2);
    SelectionIsShort(content, sentences, score, result);
    assert IsCompressed(content, score, sentences, result);
  }

  /** The content itself when it has two sentences or fewer, otherwise a selection of half its length. */
  ghost predicate IsCompressed(content: string, score: (seq<string>, nat) -> real, sentences: seq<string>,
                               result: string) {
    AreSentences(content, sentences) &&
    if |sentences| <= 2 then result == content else IsSelected(sentences, score, |content| / 2, result)
  }

  lemma SentencesFit(content: string, sentences: seq<string>)
    requires AreSentences(content, sentences)
    ensures forall i :: 0 <= i < |sentences| ==> 0 < |sentences[i]| <= |content|
  {
    var spans :| Parsed(content, sentences, spans, |content|);
    forall i | 0 <= i < |sentences| ensures 0 < |sentences[i]| <= |content| {
      assert SpanOk(content, sentences[i], spans[i]);
    }
  }

  lemma SelectionIsShort(content: string, sentences: seq<string>, score: (seq<string>, nat) -> real, text: string)
    requires AreSentences(content, sentences) && IsSelected(sentences, score, |content| / 2, text)
    ensures |text| <= |content|
  {
    SentencesFit(content, sentences);
    var kept :| Selection(sentences, score, |content| / 2, kept) && text == Joined(sentences, kept);
    JoinedLength(sentences, kept);
    KeptLengthAtLeast(sentences, kept);
    if |kept| == 1 {
      assert kept[1..] == [];
    }
  }

  /**
    What is left of a text of three sentences or more: sentences in order, each scoring at least as much as
    any that is left out, together at most half the text unless there is only one, and so many of them that
    some other would not fit in.
   */
  lemma CompressedToHalf(content: string, score: (seq<string>, nat) -> real, sentences: seq<string>, result: string)
    returns (kept: seq<nat>)
    requires IsCompressed(content, score, sentences, result) && |sentences| > 2
    ensures kept != [] && Chronological(kept, |sentences|) && result == Joined(sentences, kept)
    ensures forall k, d: nat :: 0 <= k < |kept| && d < |sentences| && d !in kept ==>
              score(sentences, kept[k]) >= score(sentences, d)
    ensures |kept| > 1 ==> 2 * KeptLength(sentences, kept) <= |content|
    ensures |kept| < |sentences| ==> exists d: nat :: d < |sentences| && d !in kept
                                      && 2 * (KeptLength(sentences, kept) + |sentences[d]|) > |content|
  {
    kept :| Selection(sentences, score, |content| / 2, kept) && result == Joined(sentences, kept);
    if |kept| < |sentences| {
      var d: nat :| d < |sentences| && IsDropped(sentences, |content| / 2, kept, d);
      assert 2 * (KeptLength(sentences, kept) + |sentences[d]|) > |content|;
    }
  }
}
