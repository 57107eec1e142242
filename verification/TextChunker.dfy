/** The overlapping byte chunker of the knowledge ingester, over UTF-8 text (RFC 3629, section 3). */
module TextChunker {
  import opened Text

  type Byte = b: int | 0 <= b < 256

  predicate IsContinuation(b: Byte) {
    b / 64 == 2
  }

  /** The length of the well-formed character at the front of `t`, or 0; the table of RFC 3629, section 4. */
  function CharLength(t: seq<Byte>): (n: nat)
    ensures n <= |t| && n <= 4
    ensures n > 0 ==> !IsContinuation(t[0]) && forall i :: 0 < i < n ==> IsContinuation(t[i])
  {
    if |t| >= 1 && t[0] < 0x80 then 1
    else if |t| >= 2 && 0xC2 <= t[0] <= 0xDF && IsContinuation(t[1]) then 2
    else if |t| >= 3 && 0xE0 <= t[0] <= 0xEF && IsContinuation(t[1]) && IsContinuation(t[2])
            && (t[0] == 0xE0 ==> t[1] >= 0xA0) && (t[0] == 0xED ==> t[1] < 0xA0) then 3
    else if |t| >= 4 && 0xF0 <= t[0] <= 0xF4 && IsContinuation(t[1]) && IsContinuation(t[2]) && IsContinuation(t[3])
            && (t[0] == 0xF0 ==> t[1] >= 0x90) && (t[0] == 0xF4 ==> t[1] < 0x90) then 4
    else 0
  }

  predicate ValidUtf8(t: seq<Byte>) {
    t == [] || (CharLength(t) > 0 && ValidUtf8(t[CharLength(t)..]))
  }

  /** A position where a character starts, or the end. */
  predicate IsBoundary(t: seq<Byte>, p: int) {
    p == |t| || (0 <= p < |t| && !IsContinuation(t[p]))
  }

  /** Valid text has a character boundary within three bytes below any position. */
  lemma {:induction false} BoundaryIsNear(t: seq<Byte>, p: nat)
    requires ValidUtf8(t) && p < |t|
    ensures exists q :: 0 <= q <= p <= q + 3 && IsBoundary(t, q)
    decreases |t|
  {
    var n := CharLength(t);
    if p < n {
      assert IsBoundary(t, 0);
    } else {
      BoundaryIsNear(t[n..], p - n);
      var q :| 0 <= q <= p - n <= q + 3 && IsBoundary(t[n..], q);
      assert IsBoundary(t, q + n);
    }
  }

  /** The last position at or before another, of any text, that is not inside a run of continuation bytes. */
  function Floor(t: seq<Byte>, pos: int): int
    decreases pos
  {
    if pos >= |t| then |t| else if pos > 0 && IsContinuation(t[pos]) then Floor(t, pos - 1) else pos
  }

  lemma {:induction false} FloorSpec(t: seq<Byte>, pos: int)
    ensures Floor(t, pos) <= |t| && (pos >= 0 ==> Floor(t, pos) >= 0)
    ensures pos < |t| ==> Floor(t, pos) <= pos && forall k :: 0 <= k && Floor(t, pos) < k <= pos ==>
            IsContinuation(t[k])
    ensures 0 < Floor(t, pos) < |t| ==> !IsContinuation(t[Floor(t, pos)])
    decreases pos
  {
    if 0 < pos < |t| && IsContinuation(t[pos]) {
      FloorSpec(t, pos - 1);
    }
  }

  lemma FloorOfValid(t: seq<Byte>, pos: nat)
    requires ValidUtf8(t)
    ensures IsBoundary(t, Floor(t, pos)) && (pos < |t| ==> pos <= Floor(t, pos) + 3)
  {
    FloorSpec(t, pos);
    if pos < |t| {
      BoundaryIsNear(t, pos);
      var q :| 0 <= q <= pos <= q + 3 && IsBoundary(t, q);
      assert !IsContinuation(t[q]);
      assert Floor(t, pos) >= q;
    }
  }

  /** Snaps a byte offset down to a character boundary; in valid text at most three bytes. */
  method FloorCharBoundary(t: seq<Byte>, pos: int) returns (p: int)
    ensures p == Floor(t, pos)
    ensures ValidUtf8(t) && pos >= 0 ==> IsBoundary(t, p) && (pos < |t| ==> p <= pos <= p + 3)
  {
    if pos >= 0 && ValidUtf8(t) {
      FloorOfValid(t, pos);
      FloorSpec(t, pos);
    }
    if pos >= |t| {
      return |t|;
    }
    p := pos;
    while p > 0 && IsContinuation(t[p])
      invariant p <= pos && Floor(t, pos) == Floor(t, p)
    {
      p := p - 1;
    }
  }

  datatype Chunk = Chunk(text: seq<Byte>, index: nat, start: nat, end: nat)

  /** Where the chunk that starts at `start` ends. */
  function EndOf(t: seq<Byte>, start: nat, maxBytes: int): int {
    Floor(t, if start + maxBytes > |t| then |t| else start + maxBytes)
  }

  /** The chunk numbered `i`: it ends where it should, and its text is the slice it says it is. */
  ghost predicate ChunkOk(c: Chunk, t: seq<Byte>, i: nat, maxBytes: int) {
    c.index == i && c.start < |t| && c.start <= c.end <= |t| && c.end == EndOf(t, c.start, maxBytes)
      && c.text == t[c.start..c.end]
  }

  ghost predicate NoBoundaryIn(t: seq<Byte>, lo: nat, hi: nat)
    requires hi < |t|
  {
    forall k :: lo <= k <= hi ==> IsContinuation(t[k])
  }

  /**
    In valid text a chunk is not empty and ends on a character boundary, the end of the text or the last
    one within its full length, at most three bytes short of it.
   */
  lemma ChunkOfValid(c: Chunk, t: seq<Byte>, i: nat, maxBytes: nat)
    requires ValidUtf8(t) && maxBytes >= 4 && ChunkOk(c, t, i, maxBytes)
    ensures c.start < c.end && IsBoundary(t, c.end)
    ensures if c.start + maxBytes >= |t| then c.end == |t|
            else c.end <= c.start + maxBytes <= c.end + 3 && NoBoundaryIn(t, c.end + 1, c.start + maxBytes)
  {
    var pos := if c.start + maxBytes > |t| then |t| else c.start + maxBytes;
    FloorOfValid(t, pos);
    FloorSpec(t, pos);
  }

  /** Chunks follow each other at the given step from the front of the text; the next starts at `start`. */
  ghost predicate Spaced(chunks: seq<Chunk>, t: seq<Byte>, maxBytes: int, step: nat, start: nat) {
    && (forall i :: 0 <= i < |chunks| ==> ChunkOk(chunks[i], t, i, maxBytes))
    && (forall i :: 0 < i < |chunks| ==> chunks[i].start == chunks[i - 1].start + step)
    && (if chunks == [] then start == 0 else chunks[0].start == 0 && start == chunks[|chunks| - 1].start + step)
  }

  /** The chunks reach the end of the text. */
  ghost predicate Layout(chunks: seq<Chunk>, t: seq<Byte>, maxBytes: int, step: nat) {
    chunks != [] && chunks[|chunks| - 1].start + step >= |t|
    && Spaced(chunks, t, maxBytes, step, chunks[|chunks| - 1].start + step)
  }

  lemma SpacedSnoc(chunks: seq<Chunk>, chunk: Chunk, t: seq<Byte>, maxBytes: int, step: nat)
    requires Spaced(chunks, t, maxBytes, step, chunk.start) && ChunkOk(chunk, t, |chunks|, maxBytes)
    ensures Spaced(chunks + [chunk], t, maxBytes, step, chunk.start + step)
  {
  }

  function Step(maxBytes: int, overlapBytes: int): (step: nat)
    ensures step >= 1
  {
    if maxBytes - overlapBytes < 1 then 1 else maxBytes - overlapBytes
  }

  /** From `start` on, some chunk would end before it starts, and slicing it fails. */
  predicate Breaks(t: seq<Byte>, start: nat, maxBytes: int, step: nat)
    requires step >= 1
    decreases |t| - start
  {
    start < |t| && (EndOf(t, start, maxBytes) < start || Breaks(t, start + step, maxBytes, step))
  }

  /** Valid text never breaks. */
  lemma {:induction false} ValidNeverBreaks(t: seq<Byte>, start: nat, maxBytes: nat, step: nat)
    requires ValidUtf8(t) && maxBytes >= 4 && step >= 1
    ensures !Breaks(t, start, maxBytes, step)
    decreases |t| - start
  {
    if start < |t| {
      FloorOfValid(t, if start + maxBytes > |t| then |t| else start + maxBytes);
      ValidNeverBreaks(t, start + step, maxBytes, step);
    }
  }

  /** A text of continuation bytes alone breaks at its second chunk: the first boundary below is the front. */
  lemma ContinuationsBreak(t: seq<Byte>, maxBytes: nat)
    requires 1 <= maxBytes && 2 * maxBytes < |t| && forall k :: 0 <= k < |t| ==> IsContinuation(t[k])
    ensures Breaks(t, 0, maxBytes, maxBytes) && !ValidUtf8(t)
  {
    FloorSpec(t, maxBytes);
    FloorSpec(t, 2 * maxBytes);
    assert EndOf(t, maxBytes, maxBytes) == Floor(t, 2 * maxBytes) == 0;
    assert Breaks(t, maxBytes, maxBytes, maxBytes);
  }

  /** Cuts the chunk that starts at `start`, unless it would end before it starts. */
  method CutChunk(t: seq<Byte>, start: nat, idx: nat, maxBytes: int) returns (chunk: Option<Chunk>)
    requires start < |t|
    ensures chunk.Some? <==> EndOf(t, start, maxBytes) >= start
    ensures chunk.Some? ==> ChunkOk(chunk.value, t, idx, maxBytes) && chunk.value.start == start
  {
    var end := start + maxBytes;
    if end > |t| {
      end := |t|;
    }
    FloorSpec(t, end);
    end := FloorCharBoundary(t, end);
    if end < start {
      return None;
    }
    chunk := Some(Chunk(t[start..end], idx, start, end));
  }

  /** Splits a text into chunks of at most four bytes per token; none if a slice is out of order. */
  method ChunkText(t: seq<Byte>, maxTokens: int, overlapTokens: int) returns (chunks: Option<seq<Chunk>>)
    ensures t == [] || maxTokens == 0 ==> chunks == Some([])
    ensures t != [] && maxTokens != 0 && |t| <= 4 * maxTokens ==> chunks == Some([Chunk(t, 0, 0, |t|)])
    ensures t != [] && maxTokens != 0 && |t| > 4 * maxTokens ==>
              var maxBytes, step := 4 * maxTokens, Step(4 * maxTokens, 4 * overlapTokens);
              if Breaks(t, 0, maxBytes, step) then chunks == None
              else chunks.Some? && Layout(chunks.value, t, maxBytes, step)
    ensures ValidUtf8(t) && maxTokens > 0 ==> chunks.Some?
  {
    if t == [] || maxTokens == 0 {
      return Some([]);
    }
    var maxBytes, overlapBytes := 4 * maxTokens, 4 * overlapTokens;
    if |t| <= maxBytes {
      return Some([Chunk(t, 0, 0, |t|)]);
    }
    var step := maxBytes - overlapBytes;
    if step < 1 {
      step := 1;
    }
    if ValidUtf8(t) && maxTokens > 0 {
      ValidNeverBreaks(t, 0, maxBytes, step);
    }
    chunks := CutAll(t, maxBytes, step);
  }

  /** The loop over the starts of the chunks. */
  method CutAll(t: seq<Byte>, maxBytes: int, step: nat) returns (chunks: Option<seq<Chunk>>)
    requires t != [] && step >= 1
    ensures if Breaks(t, 0, maxBytes, step) then chunks == None
            else chunks.Some? && Layout(chunks.value, t, maxBytes, step)
  {
    var cut: seq<Chunk> := [];
    var start, idx := 0, 0;
    while start < |t|
      invariant idx == |cut| && Spaced(cut, t, maxBytes, step, start)
      invariant Breaks(t, 0, maxBytes, step) == Breaks(t, start, maxBytes, step)
      decreases |t| - start
    {
      var chunk := CutChunk(t, start, idx, maxBytes);
      if chunk.None? {
        return None;
      }
      SpacedSnoc(cut, chunk.value, t, maxBytes, step);
      cut := cut + [chunk.value];
      idx := idx + 1;
      start := start + step;
    }
    return Some(cut);
  }

  /**
    Chunks start at the front of the text and then four bytes per token of the part that does not overlap
    further on, at least one byte; they go on until the next would start past the end.
   */
  lemma ChunksStartApart(chunks: seq<Chunk>, t: seq<Byte>, maxTokens: int, overlapTokens: int)
    requires Layout(chunks, t, 4 * maxTokens, Step(4 * maxTokens, 4 * overlapTokens))
    ensures var apart := Max(1, 4 * (maxTokens - overlapTokens));
            && chunks[0].start == 0
            && (forall i :: 0 < i < |chunks| ==> chunks[i].start - chunks[i - 1].start == apart)
            && chunks[|chunks| - 1].start < |t| <= chunks[|chunks| - 1].start + apart
  {
  }

  // --- Coverage ---

  predicate Covered(chunks: seq<Chunk>, p: nat) {
    exists i :: 0 <= i < |chunks| && chunks[i].start <= p < chunks[i].end
  }

  ghost predicate CoversAll(chunks: seq<Chunk>, t: seq<Byte>) {
    forall p: nat :: p < |t| ==> Covered(chunks, p)
  }

  /** No chunk stops before the next one starts. */
  ghost predicate NoGap(chunks: seq<Chunk>, t: seq<Byte>, step: nat, from: nat := 0) {
    forall i :: from <= i < |chunks| ==> Reaches(chunks[i], t, step)
  }

  predicate Reaches(c: Chunk, t: seq<Byte>, step: nat) {
    c.start + step <= c.end || c.end == |t|
  }

  lemma {:induction false} NoGapCovers(chunks: seq<Chunk>, t: seq<Byte>, maxBytes: nat, step: nat, p: nat, i: nat)
    requires Layout(chunks, t, maxBytes, step) && NoGap(chunks, t, step)
    requires i < |chunks| && chunks[i].start <= p < |t|
    ensures Covered(chunks, p)
    decreases |chunks| - i
  {
    assert Reaches(chunks[i], t, step);
    if chunks[i].end <= p {
      NoGapCovers(chunks, t, maxBytes, step, p, i + 1);
    }
  }

  lemma {:induction false} StartsGrow(chunks: seq<Chunk>, t: seq<Byte>, maxBytes: nat, step: nat, i: nat, j: nat)
    requires Layout(chunks, t, maxBytes, step) && i < j < |chunks|
    ensures chunks[i].start + step <= chunks[j].start
    decreases j
  {
    if i < j - 1 {
      StartsGrow(chunks, t, maxBytes, step, i, j - 1);
    }
  }

  lemma EndIsWithin(c: Chunk, t: seq<Byte>, i: nat, maxBytes: nat)
    requires ChunkOk(c, t, i, maxBytes)
    ensures c.end <= c.start + maxBytes
  {
    FloorSpec(t, if c.start + maxBytes > |t| then |t| else c.start + maxBytes);
  }

  /** When the step is at least a full chunk, the byte after a chunk that stops short is in no chunk. */
  lemma GapIsUncovered(chunks: seq<Chunk>, t: seq<Byte>, maxBytes: nat, step: nat, i: nat)
    requires Layout(chunks, t, maxBytes, step) && maxBytes <= step && i < |chunks|
    requires chunks[i].end < chunks[i].start + step && chunks[i].end < |t|
    ensures !Covered(chunks, chunks[i].end)
  {
    forall j | 0 <= j < |chunks| ensures !(chunks[j].start <= chunks[i].end < chunks[j].end) {
      EndIsWithin(chunks[j], t, j, maxBytes);
      if j < i {
        StartsGrow(chunks, t, maxBytes, step, j, i);
      } else if i < j {
        StartsGrow(chunks, t, maxBytes, step, i, j);
      }
    }
  }

  /** From `p` on, every point a full chunk length further is a character boundary. */
  predicate Aligned(t: seq<Byte>, p: nat, maxBytes: nat)
    requires maxBytes > 0
    decreases |t| - p
  {
    p >= |t| || (IsBoundary(t, p) && Aligned(t, p + maxBytes, maxBytes))
  }

  /** A chunk reaches the next exactly when its full length ends at a boundary, and the next starts there. */
  ghost predicate MarkAt(chunks: seq<Chunk>, t: seq<Byte>, maxBytes: nat, i: nat)
    requires i < |chunks|
  {
    var p := chunks[i].start + maxBytes;
    && (Reaches(chunks[i], t, maxBytes) <==> p >= |t| || IsBoundary(t, p))
    && if i + 1 < |chunks| then chunks[i + 1].start == p < |t| else p >= |t|
  }

  lemma ChunkInLayout(chunks: seq<Chunk>, t: seq<Byte>, maxBytes: nat, step: nat, i: nat)
    requires Layout(chunks, t, maxBytes, step) && i < |chunks|
    ensures ChunkOk(chunks[i], t, i, maxBytes)
  {
  }

  lemma LayoutMarks(chunks: seq<Chunk>, t: seq<Byte>, maxBytes: nat, i: nat)
    requires ValidUtf8(t) && maxBytes > 0 && Layout(chunks, t, maxBytes, maxBytes) && i < |chunks|
    ensures MarkAt(chunks, t, maxBytes, i)
  {
    NextStart(chunks, t, maxBytes, maxBytes, i);
    ChunkInLayout(chunks, t, maxBytes, maxBytes, i);
    ReachesIff(chunks[i], t, i, maxBytes);
  }

  lemma {:induction false} AlignedMarks(chunks: seq<Chunk>, t: seq<Byte>, maxBytes: nat, i: nat)
    requires maxBytes > 0 && i < |chunks| && forall k :: i <= k < |chunks| ==> MarkAt(chunks, t, maxBytes, k)
    ensures Aligned(t, chunks[i].start + maxBytes, maxBytes) <==> NoGap(chunks, t, maxBytes, i)
    decreases |chunks| - i
  {
    assert MarkAt(chunks, t, maxBytes, i);
    NoGapStep(chunks, t, maxBytes, i);
    AlignedStep(t, chunks[i].start + maxBytes, maxBytes);
    if i + 1 < |chunks| {
      AlignedMarks(chunks, t, maxBytes, i + 1);
    }
  }

  lemma AlignedLayout(chunks: seq<Chunk>, t: seq<Byte>, maxBytes: nat)
    requires ValidUtf8(t) && maxBytes > 0 && Layout(chunks, t, maxBytes, maxBytes)
    ensures Aligned(t, chunks[0].start + maxBytes, maxBytes) <==> NoGap(chunks, t, maxBytes, 0)
  {
    forall k | 0 <= k < |chunks| ensures MarkAt(chunks, t, maxBytes, k) {
      LayoutMarks(chunks, t, maxBytes, k);
    }
    AlignedMarks(chunks, t, maxBytes, 0);
  }

  lemma NextStart(chunks: seq<Chunk>, t: seq<Byte>, maxBytes: nat, step: nat, i: nat)
    requires Layout(chunks, t, maxBytes, step) && i < |chunks|
    ensures if i + 1 < |chunks| then chunks[i + 1].start == chunks[i].start + step < |t|
            else chunks[i].start + step >= |t|
  {
    assert i + 1 < |chunks| ==> ChunkOk(chunks[i + 1], t, i + 1, maxBytes);
  }

  lemma AlignedStep(t: seq<Byte>, p: nat, maxBytes: nat)
    requires maxBytes > 0
    ensures Aligned(t, p, maxBytes) <==> p >= |t| || (IsBoundary(t, p) && Aligned(t, p + maxBytes, maxBytes))
  {
  }

  lemma NoGapStep(chunks: seq<Chunk>, t: seq<Byte>, step: nat, i: nat)
    requires i < |chunks|
    ensures NoGap(chunks, t, step, i) <==> Reaches(chunks[i], t, step) && NoGap(chunks, t, step, i + 1)
  {
  }

  lemma FloorStaysIff(t: seq<Byte>, pos: nat)
    requires ValidUtf8(t) && pos <= |t|
    ensures Floor(t, pos) == pos <==> IsBoundary(t, pos)
  {
    FloorOfValid(t, pos);
  }

  lemma ReachesIff(c: Chunk, t: seq<Byte>, i: nat, maxBytes: nat)
    requires ValidUtf8(t) && ChunkOk(c, t, i, maxBytes) && maxBytes > 0
    ensures Reaches(c, t, maxBytes) <==> c.start + maxBytes >= |t| || IsBoundary(t, c.start + maxBytes)
  {
    var pos := if c.start + maxBytes > |t| then |t| else c.start + maxBytes;
    assert c.end == Floor(t, pos);
    FloorSpec(t, pos);
    FloorStaysIff(t, pos);
  }

  /** Snapping back to a boundary costs at most three bytes, so any overlap leaves no gap. */
  lemma OverlapHasNoGap(chunks: seq<Chunk>, t: seq<Byte>, maxBytes: nat, step: nat)
    requires ValidUtf8(t) && Layout(chunks, t, maxBytes, step) && step + 3 <= maxBytes
    ensures NoGap(chunks, t, step)
  {
    forall i | 0 <= i < |chunks| ensures Reaches(chunks[i], t, step) {
      ChunkOfValid(chunks[i], t, i, maxBytes);
    }
  }

  lemma AlignedHasNoGap(chunks: seq<Chunk>, t: seq<Byte>, maxBytes: nat)
    requires ValidUtf8(t) && 0 < maxBytes < |t| && Layout(chunks, t, maxBytes, maxBytes)
    ensures NoGap(chunks, t, maxBytes) <==> Aligned(t, 0, maxBytes)
  {
    AlignedLayout(chunks, t, maxBytes);
    AlignedStep(t, 0, maxBytes);
    assert IsBoundary(t, 0);
  }

  lemma LongStepHasGap(chunks: seq<Chunk>, t: seq<Byte>, maxBytes: nat, step: nat)
    requires maxBytes < step && maxBytes < |t| && Layout(chunks, t, maxBytes, step)
    ensures !NoGap(chunks, t, step)
  {
    EndIsWithin(chunks[0], t, 0, maxBytes);
    assert !Reaches(chunks[0], t, step);
  }

  lemma CoversIffNoGap(chunks: seq<Chunk>, t: seq<Byte>, maxBytes: nat, step: nat)
    requires ValidUtf8(t) && Layout(chunks, t, maxBytes, step) && (maxBytes <= step || step + 3 <= maxBytes) && t != []
    ensures CoversAll(chunks, t) <==> NoGap(chunks, t, step)
  {
    if NoGap(chunks, t, step) {
      forall p: nat | p < |t| ensures Covered(chunks, p) {
        NoGapCovers(chunks, t, maxBytes, step, p, 0);
      }
    } else {
      var i :| 0 <= i < |chunks| && !Reaches(chunks[i], t, step);
      if step + 3 <= maxBytes {
        OverlapHasNoGap(chunks, t, maxBytes, step);
      } else {
        GapIsUncovered(chunks, t, maxBytes, step, i);
      }
    }
  }

  /**
    A long text loses no byte exactly when the overlap is at least one token, or it is zero and every
    multiple of the chunk length is a character boundary.
   */
  lemma CoverageIff(chunks: seq<Chunk>, t: seq<Byte>, maxTokens: nat, overlapTokens: int)
    requires ValidUtf8(t) && maxTokens > 0 && |t| > 4 * maxTokens
    requires Layout(chunks, t, 4 * maxTokens, Step(4 * maxTokens, 4 * overlapTokens))
    ensures CoversAll(chunks, t) <==> overlapTokens >= 1 || (overlapTokens == 0 && Aligned(t, 0, 4 * maxTokens))
  {
    var maxBytes, step := 4 * maxTokens, Step(4 * maxTokens, 4 * overlapTokens);
    CoversIffNoGap(chunks, t, maxBytes, step);
    if overlapTokens >= 1 {
      OverlapHasNoGap(chunks, t, maxBytes, step);
    } else if overlapTokens == 0 {
      AlignedHasNoGap(chunks, t, maxBytes);
    } else {
      LongStepHasGap(chunks, t, maxBytes, step);
    }
  }

  /** Without overlap the lead byte of a character across a cut is lost: three letters and an accented one. */
  lemma ZeroOverlapCanLose(chunks: seq<Chunk>)
    requires Layout(chunks, [0x61, 0x61, 0x61, 0xC3, 0xA9], 4, 4)
    ensures ValidUtf8([0x61, 0x61, 0x61, 0xC3, 0xA9]) && !Covered(chunks, 3)
  {
    var t: seq<Byte> := [0x61, 0x61, 0x61, 0xC3, 0xA9];
    assert t[1..] == [0x61, 0x61, 0xC3, 0xA9] && t[1..][1..] == [0x61, 0xC3, 0xA9];
    assert t[1..][1..][1..] == [0xC3, 0xA9] && t[1..][1..][1..][2..] == [];
    assert ValidUtf8(t[1..][1..][1..]) && ValidUtf8(t[1..][1..]);
    assert ChunkOk(chunks[0], t, 0, 4) && IsContinuation(t[4]);
    GapIsUncovered(chunks, t, 4, 4, 0);
  }
}
