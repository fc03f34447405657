/** Where a chunk is cut, said of the text alone: at the last paragraph, else sentence, else word in reach. */
module Cuts {
  import opened Numbers
  import opened Strings
  import opened Unicode
  import opened Chunking
  import QuoteLocality

  datatype Kind = Paragraph | Sentence | Word

  /** A sentence: a terminator, closing marks, one whitespace character. */
  predicate IsSentenceEnd(u: Tables, text: string, from: nat, end: nat) {
    && from + 2 <= end <= |text|
    && IsTerminator(text[from]) && text[end - 1] in u.space
    && forall k :: from < k < end - 1 ==> IsCloser(text[k])
  }

  /** The text may be cut at `end`, for something that starts at `base` or later. */
  ghost predicate MayCut(u: Tables, text: string, kind: Kind, base: nat, end: nat) {
    base < end <= |text| &&
    match kind
    case Paragraph => base + 2 <= end && text[end - 2] == '\n' && text[end - 1] == '\n'
    case Sentence => exists from :: base <= from < end && IsSentenceEnd(u, text, from, end)
    case Word => text[end - 1] == ' '
  }

  /** Some place of the kind is in reach. */
  ghost predicate IsInReach(u: Tables, text: string, kind: Kind, base: nat, limit: nat) {
    exists end: nat :: end <= limit && MayCut(u, text, kind, base, end)
  }

  /** The last place of the kind in reach. */
  ghost predicate IsLastCut(u: Tables, text: string, kind: Kind, base: nat, limit: nat, end: nat) {
    && end <= limit && MayCut(u, text, kind, base, end)
    && forall later: nat :: end < later <= limit ==> !MayCut(u, text, kind, base, later)
  }

  lemma WindowAt(text: string, base: nat, limit: nat, part: string, k: nat)
    requires base <= limit <= |text|
    ensures OccursAt(text[base..limit], part, k) <==> base + k + |part| <= limit && OccursAt(text, part, base + k)
  {
    if base + k + |part| <= limit { QuoteLocality.OccursInWindow(text, part, base + k, base, limit); }
  }

  lemma BreakIs(text: string, k: nat)
    ensures OccursAt(text, "\n\n", k) <==> k + 2 <= |text| && text[k] == '\n' && text[k + 1] == '\n'
    ensures OccursAt(text, " ", k) <==> k + 1 <= |text| && text[k] == ' '
  {
    if k + 2 <= |text| { assert text[k..k + 2] == [text[k], text[k + 1]]; }
    if k + 1 <= |text| { assert text[k..k + 1] == [text[k]]; }
  }

  /** A cut after a fixed string, in the terms of the search for it. */
  lemma FixedCut(u: Tables, text: string, kind: Kind, base: nat, limit: nat, end: nat)
    requires !kind.Sentence? && base < end <= limit <= |text|
    ensures var part := if kind.Paragraph? then "\n\n" else " ";
            MayCut(u, text, kind, base, end) <==>
              end >= base + |part| && OccursAt(text[base..limit], part, end - base - |part|)
  {
    var part := if kind.Paragraph? then "\n\n" else " ";
    if end >= base + |part| {
      WindowAt(text, base, limit, part, end - base - |part|);
      BreakIs(text, end - |part|);
    }
  }

  lemma LastFixedCut(u: Tables, text: string, kind: Kind, base: nat, limit: nat)
    requires !kind.Sentence? && base <= limit <= |text|
    ensures var part := if kind.Paragraph? then "\n\n" else " ";
            var cut := RFind(text[base..limit], part);
            if cut >= 0 then IsLastCut(u, text, kind, base, limit, base + cut + |part|)
            else !IsInReach(u, text, kind, base, limit)
  {
    hide MayCut;
    var part := if kind.Paragraph? then "\n\n" else " ";
    var cut := RFind(text[base..limit], part);
    forall end: nat | end <= limit && MayCut(u, text, kind, base, end)
      ensures end >= base + |part| && cut >= end - base - |part|
    {
      assert base < end by { CutIsAfter(u, text, kind, base, end); }
      FixedCut(u, text, kind, base, limit, end);
    }
    if cut >= 0 {
      assert OccursAt(text[base..limit], part, cut);
      FixedCut(u, text, kind, base, limit, base + cut + |part|);
    }
  }

  lemma CutIsAfter(u: Tables, text: string, kind: Kind, base: nat, end: nat)
    requires MayCut(u, text, kind, base, end)
    ensures base < end <= |text|
  {}

  // ------------------------------------------------------------------ sentences

  lemma {:induction false} ClosersEnd(w: string, i: nat, j: nat)
    requires i <= j <= |w| && (forall k :: i <= k < j ==> IsCloser(w[k])) && (j < |w| ==> !IsCloser(w[j]))
    ensures SkipClosers(w, i) == j
    decreases j - i
  {
    if i < j { ClosersEnd(w, i + 1, j); }
  }

  lemma SentenceIs(u: Tables, w: string, i: nat, end: nat)
    requires u.Valid() && i <= |w|
    ensures SentenceEndAt(u, w, i) == Some(end) <==> IsSentenceEnd(u, w, i, end)
  {
    if IsSentenceEnd(u, w, i, end) { ClosersEnd(w, i + 1, end - 1); }
  }

  /** No sentence ends later than the one that starts last. */
  lemma {:induction false} LastEndsLast(u: Tables, w: string, k: nat, i: nat)
    requires u.Valid() && i < k <= |w| && SentenceEndAt(u, w, i).Some?
    ensures LastSentenceEnd(u, w, k).Some? && SentenceEndAt(u, w, i).value <= LastSentenceEnd(u, w, k).value
    decreases k
  {
    hide SentenceEndAt;
    if i < k - 1 {
      LastEndsLast(u, w, k - 1, i);
      if SentenceEndAt(u, w, k - 1).Some? { SentencesApart(u, w, i, k - 1); }
    }
  }

  lemma SentencesApart(u: Tables, w: string, i: nat, j: nat)
    requires u.Valid() && i < j < |w| && SentenceEndAt(u, w, i).Some? && SentenceEndAt(u, w, j).Some?
    ensures SentenceEndAt(u, w, i).value < SentenceEndAt(u, w, j).value
  {
    var end := SentenceEndAt(u, w, i).value;
    SentenceIs(u, w, i, end);
    assert IsTerminator(w[j]) && !IsCloser(w[j]) && w[j] !in u.space;
  }

  lemma {:induction false} LastIsOne(u: Tables, w: string, k: nat) returns (i: nat)
    requires k <= |w| && LastSentenceEnd(u, w, k).Some?
    ensures i < k && SentenceEndAt(u, w, i) == LastSentenceEnd(u, w, k)
  {
    hide SentenceEndAt;
    i := k - 1;
    if SentenceEndAt(u, w, k - 1).None? { i := LastIsOne(u, w, k - 1); }
  }

  lemma SentenceInWindow(u: Tables, text: string, base: nat, limit: nat, i: nat, end: nat)
    requires base <= limit <= |text| && i <= end <= limit - base
    ensures IsSentenceEnd(u, text[base..limit], i, end) <==> IsSentenceEnd(u, text, base + i, base + end)
  {
    assert forall k :: i <= k < end ==> text[base..limit][k] == text[base + k];
    if IsSentenceEnd(u, text, base + i, base + end) {
      forall k | i < k < end - 1 ensures IsCloser(text[base..limit][k]) {
        assert IsCloser(text[base + k]);
      }
    }
    if IsSentenceEnd(u, text[base..limit], i, end) {
      forall k | base + i < k < base + end - 1 ensures IsCloser(text[k]) {
        assert IsCloser(text[base..limit][k - base]);
      }
    }
  }

  lemma LastSentenceCut(u: Tables, text: string, base: nat, limit: nat)
    requires u.Valid() && base <= limit <= |text|
    ensures var w := text[base..limit];
            var cut := LastSentenceEnd(u, w, |w|);
            if cut.Some? then IsLastCut(u, text, Sentence, base, limit, base + cut.value)
            else !IsInReach(u, text, Sentence, base, limit)
  {
    hide SentenceEndAt, LastSentenceEnd, IsSentenceEnd;
    var w := text[base..limit];
    var cut := LastSentenceEnd(u, w, |w|);
    forall end: nat | end <= limit && MayCut(u, text, Sentence, base, end)
      ensures cut.Some? && end <= base + cut.value
    {
      var from :| base <= from < end && IsSentenceEnd(u, text, from, end);
      SentenceInWindow(u, text, base, limit, from - base, end - base);
      SentenceIs(u, w, from - base, end - base);
      LastEndsLast(u, w, |w|, from - base);
    }
    if cut.Some? {
      var i := LastIsOne(u, w, |w|);
      SentenceIs(u, w, i, cut.value);
      EndIsAfter(u, w, i, cut.value);
      SentenceInWindow(u, text, base, limit, i, cut.value);
      assert IsSentenceEnd(u, text, base + i, base + cut.value);
    }
  }

  lemma EndIsAfter(u: Tables, w: string, i: nat, end: nat)
    requires IsSentenceEnd(u, w, i, end)
    ensures i < end <= |w|
  {}

  /**
   * THE BEST CUT. A chunk that does not reach the end of the text is cut after the last paragraph in reach; without
   * one, after the last sentence; without one, after the last word; and without that at the target.
   */
  lemma CutIsBest(u: Tables, text: string, pos: nat, target: nat)
    requires u.Valid() && pos < |text| && target >= 1
    ensures var end := CutAt(u, text, pos, target);
            var base, limit := pos + MinLength(target), pos + target;
            if limit >= |text| then end == |text|
            else if IsInReach(u, text, Paragraph, base, limit) then IsLastCut(u, text, Paragraph, base, limit, end)
            else if IsInReach(u, text, Sentence, base, limit) then IsLastCut(u, text, Sentence, base, limit, end)
            else if IsInReach(u, text, Word, base, limit) then IsLastCut(u, text, Word, base, limit, end)
            else end == limit
  {
    hide MayCut, LastSentenceEnd, RFind;
    var base, limit := pos + MinLength(target), pos + target;
    if limit < |text| {
      LastFixedCut(u, text, Paragraph, base, limit);
      LastSentenceCut(u, text, base, limit);
      LastFixedCut(u, text, Word, base, limit);
    }
  }
}
