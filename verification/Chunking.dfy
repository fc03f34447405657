/** Splitting a text into chunks at paragraph, sentence or word boundaries. */
module Chunking {
  import opened Numbers
  import opened Strings
  import opened Unicode
  import opened Normalization

  datatype ChunkSpan = ChunkSpan(ordinal: nat, start: nat, end: nat, text: string)

  /** Chunks are looked for from half the target on. */
  function MinLength(target: nat): nat { Max(target / 2, 1) }

  // ------------------------------------------------------------------ sentence ends

  function SkipClosers(w: string, i: nat): (j: nat)
    requires i <= |w|
    ensures i <= j <= |w|
    ensures forall k :: i <= k < j ==> IsCloser(w[k])
    decreases |w| - i
  {
    if i < |w| && IsCloser(w[i]) then SkipClosers(w, i + 1) else i
  }

  /** The sentence end that starts at `i`: a terminator, closing marks, one whitespace character. */
  function SentenceEndAt(u: Tables, w: string, i: nat): (end: Option<nat>)
    requires i <= |w|
    ensures end.Some? ==> i + 1 < end.value <= |w|
  {
    if i < |w| && IsTerminator(w[i]) then
      var j := SkipClosers(w, i + 1);
      if j < |w| && w[j] in u.space then Some(j + 1) else None
    else None
  }

  /** The end of the sentence end that starts last, among those that start before `k`. */
  function LastSentenceEnd(u: Tables, w: string, k: nat): Option<nat>
    requires k <= |w|
  {
    if k == 0 then None
    else if SentenceEndAt(u, w, k - 1).Some? then SentenceEndAt(u, w, k - 1)
    else LastSentenceEnd(u, w, k - 1)
  }

  /** Nothing starts inside a sentence end. */
  lemma {:induction false} NoneInside(u: Tables, w: string, i: nat, k: nat)
    requires u.Valid() && i < k <= |w| && SentenceEndAt(u, w, i).Some? && k <= SentenceEndAt(u, w, i).value
    ensures LastSentenceEnd(u, w, k) == SentenceEndAt(u, w, i)
    decreases k
  {
    if k > i + 1 {
      assert IsCloser(w[k - 1]) || w[k - 1] in u.space;
      NoneInside(u, w, i, k - 1);
    }
  }

  /** The scan over non-overlapping matches from the left keeps the one that starts last. */
  method ScanSentences(u: Tables, w: string) returns (last: Option<nat>)
    requires u.Valid()
    ensures last == LastSentenceEnd(u, w, |w|)
  {
    last := None;
    var i := 0;
    while i < |w|
      invariant 0 <= i <= |w|
      invariant last == LastSentenceEnd(u, w, i)
    {
      var m := SentenceEndAt(u, w, i);
      if m.Some? {
        NoneInside(u, w, i, m.value);
        last := m;
        i := m.value;
      } else {
        i := i + 1;
      }
    }
  }

  // ------------------------------------------------------------------ one chunk

  /** Where the chunk that starts at `pos` is cut: after the last blank line of the window, else
      after its last sentence, else after its last space, else at the hard end. */
  function CutAt(u: Tables, text: string, pos: nat, target: nat): (end: nat)
    requires pos < |text| && target >= 1
    ensures pos < end <= Min(pos + target, |text|)
    ensures end < |text| ==> pos + MinLength(target) <= end
  {
    var hardEnd := Min(pos + target, |text|);
    if hardEnd == |text| then hardEnd
    else
      var base := pos + MinLength(target);
      var window := text[base..hardEnd];
      var cut := RFind(window, "\n\n");
      if cut >= 0 then base + cut + 2
      else
        var sentence := LastSentenceEnd(u, window, |window|);
        if sentence.Some? then
          LastSentenceInside(u, window, |window|);
          base + sentence.value
        else
          var space := RFind(window, " ");
          if space >= 0 then base + space + 1 else hardEnd
  }

  lemma {:induction false} LastSentenceInside(u: Tables, w: string, k: nat)
    requires k <= |w| && LastSentenceEnd(u, w, k).Some?
    ensures 1 < LastSentenceEnd(u, w, k).value <= |w|
  {
    if SentenceEndAt(u, w, k - 1).None? { LastSentenceInside(u, w, k - 1); }
  }

  /** `end` without the whitespace before it. */
  function TrimEnd(u: Tables, text: string, pos: nat, end: nat): (stop: nat)
    requires pos <= end <= |text|
    ensures pos <= stop <= end
    ensures forall k :: stop <= k < end ==> text[k] in u.space
    ensures stop > pos ==> text[stop - 1] !in u.space
    decreases end - pos
  {
    if end > pos && text[end - 1] in u.space then TrimEnd(u, text, pos, end - 1) else end
  }

  lemma {:induction false} SkippedAreSpaces(u: Tables, text: string, j: nat)
    requires j <= |text|
    ensures var k := SkipSpaces(u, text, j);
            && (forall m :: j <= m < k ==> text[m] in u.space)
            && (k < |text| ==> text[k] !in u.space)
    decreases |text| - j
  {
    if j < |text| && text[j] in u.space { SkippedAreSpaces(u, text, j + 1); }
  }

  // ------------------------------------------------------------------ the whole chunking

  /** Where the search for chunk `k` begins. */
  function Resume(u: Tables, text: string, target: nat, spans: seq<ChunkSpan>, k: nat): (pos: nat)
    requires target >= 1 && k <= |spans|
    requires k > 0 ==> spans[k - 1].start < |text|
    ensures pos <= |text|
  {
    if k == 0 then 0 else CutAt(u, text, spans[k - 1].start, target)
  }

  /** Chunk `k` starts at the next visible character and is the trimmed text up to its cut. */
  ghost predicate ChunkOk(u: Tables, text: string, target: nat, spans: seq<ChunkSpan>, k: nat)
    requires target >= 1 && k < |spans|
  {
    && (k > 0 ==> spans[k - 1].start < |text|)
    && spans[k].start == SkipSpaces(u, text, Resume(u, text, target, spans, k)) < |text|
    && spans[k].end == TrimEnd(u, text, spans[k].start, CutAt(u, text, spans[k].start, target))
    && spans[k].text == text[spans[k].start..spans[k].end]
    && spans[k].ordinal == k
  }

  ghost predicate IsPrefixOfChunking(u: Tables, text: string, target: nat, spans: seq<ChunkSpan>) {
    && target >= 1
    && forall k :: 0 <= k < |spans| ==> ChunkOk(u, text, target, spans, k)
  }

  /** The chunks follow the cutting rule one after another, and nothing visible is left after them. */
  ghost predicate IsChunking(u: Tables, text: string, target: nat, spans: seq<ChunkSpan>) {
    && IsPrefixOfChunking(u, text, target, spans)
    && (|spans| > 0 ==> spans[|spans| - 1].start < |text|)
    && SkipSpaces(u, text, Resume(u, text, target, spans, |spans|)) == |text|
  }

  /** `chunk_text`. */
  method ChunkText(u: Tables, text: string, target: nat) returns (spans: seq<ChunkSpan>)
    requires u.Valid() && target >= 1
    ensures IsChunking(u, text, target, spans)
    ensures Tiles(u, text, target, spans)
    ensures FewChunks(text, target, spans)
  {
    hide Tiles, FewChunks, CutAt;
    spans := [];
    var n := |text|;
    var pos := 0;
    var minLen := Max(target / 2, 1);
    while pos < n
      invariant 0 <= pos <= n
      invariant IsPrefixOfChunking(u, text, target, spans)
      invariant |spans| > 0 ==> spans[|spans| - 1].start < n
      invariant SkipSpaces(u, text, Resume(u, text, target, spans, |spans|)) == SkipSpaces(u, text, pos)
      decreases n - pos
    {
      pos := SkipLoop(u, text, pos);
      if pos >= n {
        break;
      }
      var end := FindCut(u, text, pos, target, minLen);
      var stop := end;
      while stop > pos && text[stop - 1] in u.space
        invariant pos <= stop <= end
        invariant TrimEnd(u, text, pos, end) == TrimEnd(u, text, pos, stop)
      {
        stop := stop - 1;
      }
      SkippedAreSpaces(u, text, pos);
      if stop > pos {
        spans := Extend(u, text, target, spans, pos, stop);
      }
      pos := end;
    }
    ChunkingTiles(u, text, target, spans);
  }

  method SkipLoop(u: Tables, text: string, start: nat) returns (pos: nat)
    requires start <= |text|
    ensures pos == SkipSpaces(u, text, start)
    ensures pos <= |text| && SkipSpaces(u, text, pos) == pos
  {
    pos := start;
    while pos < |text| && text[pos] in u.space
      invariant start <= pos <= |text|
      invariant SkipSpaces(u, text, start) == SkipSpaces(u, text, pos)
    {
      pos := pos + 1;
    }
  }

  method FindCut(u: Tables, text: string, pos: nat, target: nat, minLen: nat) returns (end: nat)
    requires u.Valid() && pos < |text| && target >= 1 && minLen == MinLength(target)
    ensures end == CutAt(u, text, pos, target)
  {
    var hardEnd := Min(pos + target, |text|);
    end := hardEnd;
    if hardEnd < |text| {
      var window := text[pos + minLen..hardEnd];
      var cut := RFind(window, "\n\n");
      if cut >= 0 {
        end := pos + minLen + cut + 2;
      } else {
        var last := ScanSentences(u, window);
        if last.Some? {
          end := pos + minLen + last.value;
        } else {
          var space := RFind(window, " ");
          if space >= 0 {
            end := pos + minLen + space + 1;
          }
        }
      }
    }
  }

  /** Appending the next chunk. */
  method Extend(u: Tables, text: string, target: nat, spans: seq<ChunkSpan>, pos: nat, stop: nat)
    returns (more: seq<ChunkSpan>)
    requires IsPrefixOfChunking(u, text, target, spans)
    requires |spans| > 0 ==> spans[|spans| - 1].start < |text|
    requires pos == SkipSpaces(u, text, Resume(u, text, target, spans, |spans|)) < |text|
    requires stop == TrimEnd(u, text, pos, CutAt(u, text, pos, target))
    ensures more == spans + [ChunkSpan(|spans|, pos, stop, text[pos..stop])]
    ensures IsPrefixOfChunking(u, text, target, more)
  {
    hide CutAt, TrimEnd, SkipSpaces;
    more := spans + [ChunkSpan(|spans|, pos, stop, text[pos..stop])];
    forall k | 0 <= k < |more| ensures ChunkOk(u, text, target, more, k) {
      if k < |spans| { assert ChunkOk(u, text, target, spans, k); }
    }
  }

  // ------------------------------------------------------------------ what a chunking guarantees

  ghost predicate Inside(spans: seq<ChunkSpan>, p: nat) {
    exists k :: 0 <= k < |spans| && spans[k].start <= p < spans[k].end
  }

  /** A chunk is a visible-edged piece of the text, no longer than the target. */
  ghost predicate GoodChunk(u: Tables, text: string, target: nat, c: ChunkSpan) {
    && c.start < c.end <= |text| && c.end - c.start <= target
    && c.text == text[c.start..c.end]
    && text[c.start] !in u.space && text[c.end - 1] !in u.space
  }

  ghost predicate AllGood(u: Tables, text: string, target: nat, spans: seq<ChunkSpan>) {
    forall k :: 0 <= k < |spans| ==> spans[k].ordinal == k && GoodChunk(u, text, target, spans[k])
  }

  ghost predicate InOrderAndDisjoint(spans: seq<ChunkSpan>) {
    forall j, k :: 0 <= j < k < |spans| ==> spans[j].end <= spans[k].start
  }

  ghost predicate NothingVisibleOutside(u: Tables, text: string, spans: seq<ChunkSpan>) {
    forall p :: 0 <= p < |text| && !Inside(spans, p) ==> text[p] in u.space
  }

  ghost predicate Tiles(u: Tables, text: string, target: nat, spans: seq<ChunkSpan>) {
    AllGood(u, text, target, spans) && InOrderAndDisjoint(spans) && NothingVisibleOutside(u, text, spans)
  }

  /** All chunks but the last take at least half the target. */
  ghost predicate FewChunks(text: string, target: nat, spans: seq<ChunkSpan>) {
    |spans| > 0 ==> (|spans| - 1) * MinLength(target) < |text|
  }

  lemma OneChunk(u: Tables, text: string, target: nat, spans: seq<ChunkSpan>, k: nat)
    requires IsPrefixOfChunking(u, text, target, spans) && k < |spans|
    ensures GoodChunk(u, text, target, spans[k]) && spans[k].ordinal == k
    ensures spans[k].start < |text|
    ensures var cut := CutAt(u, text, spans[k].start, target);
            && spans[k].end <= cut
            && forall p :: spans[k].end <= p < cut ==> text[p] in u.space
    ensures k > 0 ==> spans[k - 1].start < |text| && CutAt(u, text, spans[k - 1].start, target) <= spans[k].start
    ensures k > 0 ==> CutAt(u, text, spans[k - 1].start, target) < |text|
    ensures forall p :: Before(u, text, target, spans, k) <= p < spans[k].start ==> text[p] in u.space
  {
    hide CutAt, TrimEnd, SkipSpaces;
    assert ChunkOk(u, text, target, spans, k);
    SkippedAreSpaces(u, text, Resume(u, text, target, spans, k));
  }

  ghost function Before(u: Tables, text: string, target: nat, spans: seq<ChunkSpan>, k: nat): (pos: nat)
    requires target >= 1 && k <= |spans|
  {
    if k == 0 || spans[k - 1].start >= |text| then 0 else CutAt(u, text, spans[k - 1].start, target)
  }

  /** Up to the cut of chunk `k - 1`: chunks advance by at least the minimum length, stay in order,
      and leave nothing visible out. */
  lemma {:induction false} UpTo(u: Tables, text: string, target: nat, spans: seq<ChunkSpan>, k: nat)
    requires IsPrefixOfChunking(u, text, target, spans) && k <= |spans|
    ensures forall j :: 0 <= j < k ==> spans[j].end <= Before(u, text, target, spans, k)
    ensures forall p :: 0 <= p < Before(u, text, target, spans, k) && p < |text| && !Inside(spans, p) ==>
              text[p] in u.space
    ensures k > 0 && Before(u, text, target, spans, k) < |text| ==>
              k * MinLength(target) <= Before(u, text, target, spans, k)
  {
    hide CutAt, TrimEnd, SkipSpaces;
    if k > 0 {
      UpTo(u, text, target, spans, k - 1);
      OneChunk(u, text, target, spans, k - 1);
      var c := spans[k - 1];
      forall p | 0 <= p < Before(u, text, target, spans, k) && p < |text| && !Inside(spans, p)
        ensures text[p] in u.space
      {
        assert !(c.start <= p < c.end);
      }
      Distribute(k, MinLength(target));
    }
  }

  lemma Distribute(k: nat, m: nat)
    requires k > 0
    ensures k * m == (k - 1) * m + m
  {}

  /** TILING. The chunks are ordered, disjoint, non-empty, at most `target` long, without edge
      whitespace, exact slices, and everything outside them is whitespace; their number is bounded. */
  lemma ChunkingTiles(u: Tables, text: string, target: nat, spans: seq<ChunkSpan>)
    requires IsChunking(u, text, target, spans)
    ensures Tiles(u, text, target, spans)
    ensures FewChunks(text, target, spans)
  {
    hide CutAt, TrimEnd, SkipSpaces, GoodChunk;
    var n := |spans|;
    forall k | 0 <= k < n ensures spans[k].ordinal == k && GoodChunk(u, text, target, spans[k]) {
      OneChunk(u, text, target, spans, k);
    }
    forall j, k | 0 <= j < k < n ensures spans[j].end <= spans[k].start {
      UpTo(u, text, target, spans, k);
      OneChunk(u, text, target, spans, k);
    }
    UpTo(u, text, target, spans, n);
    SkippedAreSpaces(u, text, Resume(u, text, target, spans, n));
    if n > 0 {
      UpTo(u, text, target, spans, n - 1);
      OneChunk(u, text, target, spans, n - 1);
    }
  }

  /** The cutting rule leaves no choice: two chunkings of one text are the same. */
  lemma ChunkingIsUnique(u: Tables, text: string, target: nat, x: seq<ChunkSpan>, y: seq<ChunkSpan>)
    requires IsChunking(u, text, target, x) && IsChunking(u, text, target, y)
    ensures x == y
  {
    hide CutAt, TrimEnd, SkipSpaces;
    EveryStartIsInside(u, text, target, x);
    EveryStartIsInside(u, text, target, y);
    var m := Min(|x|, |y|);
    SamePrefix(u, text, target, x, y, m);
    assert m > 0 ==> x[..m][m - 1] == y[..m][m - 1];
    assert Resume(u, text, target, x, m) == Resume(u, text, target, y, m);
    assert x == x[..m] && y == y[..m];
  }

  lemma EveryStartIsInside(u: Tables, text: string, target: nat, spans: seq<ChunkSpan>)
    requires IsPrefixOfChunking(u, text, target, spans)
    ensures forall k :: 0 <= k < |spans| ==> spans[k].start < |text|
    ensures forall k :: 0 <= k < |spans| ==> SkipSpaces(u, text, Resume(u, text, target, spans, k)) < |text|
  {
    forall k | 0 <= k < |spans| ensures spans[k].start < |text| {
      assert ChunkOk(u, text, target, spans, k);
    }
    forall k | 0 <= k < |spans| ensures SkipSpaces(u, text, Resume(u, text, target, spans, k)) < |text| {
      assert ChunkOk(u, text, target, spans, k);
    }
  }

  lemma {:induction false} SamePrefix(u: Tables, text: string, target: nat, x: seq<ChunkSpan>, y: seq<ChunkSpan>, k: nat)
    requires IsPrefixOfChunking(u, text, target, x) && IsPrefixOfChunking(u, text, target, y)
    requires k <= |x| && k <= |y|
    ensures x[..k] == y[..k]
  {
    hide CutAt, TrimEnd, SkipSpaces;
    if k > 0 {
      SamePrefix(u, text, target, x, y, k - 1);
      if k > 1 { assert x[..k - 1][k - 2] == y[..k - 1][k - 2]; }
      assert ChunkOk(u, text, target, x, k - 1) && ChunkOk(u, text, target, y, k - 1);
      assert x[..k] == x[..k - 1] + [x[k - 1]] && y[..k] == y[..k - 1] + [y[k - 1]];
    }
  }
}
