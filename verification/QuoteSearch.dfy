/** Finding a quote: every part, in order, within a bounded span of the original text. */
module QuoteSearch {
  import opened Strings
  import opened Unicode
  import opened Normalization

  /** Offsets in the original text, end-exclusive. */
  datatype Match = Match(start: int, end: int)

  const MIN_QUOTE_CHARS := 12
  const MAX_ELIDED_SPAN := 2000

  // ------------------------------------------------------------------ the parts of a quote

  /** Where the ellipsis that starts at `i` ends (three dots or one character). */
  function EllipsisAt(s: string, i: nat): Option<nat>
    requires i <= |s|
  {
    if i < |s| && s[i] == ELLIPSIS then Some(i + 1)
    else if i + 3 <= |s| && s[i] == '.' && s[i + 1] == '.' && s[i + 2] == '.' then Some(i + 3)
    else None
  }

  /** The separator match that starts at `i`: whitespace, an ellipsis, whitespace. */
  function SeparatorAt(u: Tables, s: string, i: nat): (end: Option<nat>)
    requires i <= |s|
    ensures end.Some? ==> i < end.value <= |s|
  {
    var e := EllipsisAt(s, SkipSpaces(u, s, i));
    if e.Some? then Some(SkipSpaces(u, s, e.value)) else None
  }

  /** The leftmost position at or after `i` where a separator starts, `|s|` if there is none. */
  function NextSeparator(u: Tables, s: string, i: nat): (k: nat)
    requires i <= |s|
    ensures i <= k <= |s|
    ensures k < |s| ==> SeparatorAt(u, s, k).Some?
    ensures forall j :: i <= j < k ==> SeparatorAt(u, s, j).None?
    decreases |s| - i
  {
    if i == |s| || SeparatorAt(u, s, i).Some? then i else NextSeparator(u, s, i + 1)
  }

  /** `re.split` on the ellipsis separator. */
  function SplitEllipsis(u: Tables, s: string): (pieces: seq<string>)
    ensures |pieces| >= 1
    decreases |s|
  {
    var k := NextSeparator(u, s, 0);
    if k == |s| then [s]
    else [s[..k]] + SplitEllipsis(u, s[SeparatorAt(u, s, k).value..])
  }

  /** The normalized, non-empty pieces. */
  function NormalizedParts(u: Tables, pieces: seq<string>): (parts: seq<string>)
    ensures forall k :: 0 <= k < |parts| ==>
      |parts[k]| > 0 && parts[k][0] !in u.space && parts[k][|parts[k]| - 1] !in u.space
  {
    if |pieces| == 0 then []
    else
      var p := NormalizedText(u, pieces[0]);
      (if |p| > 0 then [p] else []) + NormalizedParts(u, pieces[1..])
  }

  function QuoteParts(u: Tables, quote: string): (parts: seq<string>)
    ensures NonEmpty(parts)
    ensures forall k :: 0 <= k < |parts| ==>
      parts[k][0] !in u.space && parts[k][|parts[k]| - 1] !in u.space
  {
    NormalizedParts(u, SplitEllipsis(u, quote))
  }

  function TotalLength(parts: seq<string>): nat {
    if |parts| == 0 then 0 else |parts[0]| + TotalLength(parts[1..])
  }

  ghost predicate NonEmpty(parts: seq<string>) {
    forall k :: 0 <= k < |parts| ==> |parts[k]| > 0
  }

  // ------------------------------------------------------------------ occurrences

  /** The parts occur at the positions `at`, in order and without overlap, from `from` on. */
  ghost predicate InOrder(text: string, parts: seq<string>, at: seq<nat>, from: nat) {
    && |at| == |parts|
    && (|parts| > 0 ==>
          && from <= at[0] && OccursAt(text, parts[0], at[0])
          && InOrder(text, parts[1..], at[1..], at[0] + |parts[0]|))
  }

  /** One past the last character of the last part. */
  ghost function EndOf(parts: seq<string>, at: seq<nat>, from: nat): (end: nat)
    requires |at| == |parts|
  {
    if |parts| == 0 then from else EndOf(parts[1..], at[1..], at[0] + |parts[0]|)
  }

  lemma {:induction false} EndIsLater(text: string, parts: seq<string>, at: seq<nat>, from: nat)
    requires InOrder(text, parts, at, from)
    ensures from <= EndOf(parts, at, from)
    ensures |parts| > 0 ==> at[0] + |parts[0]| <= EndOf(parts, at, from)
    ensures from <= |text| ==> EndOf(parts, at, from) <= |text|
  {
    if |parts| > 0 { EndIsLater(text, parts[1..], at[1..], at[0] + |parts[0]|); }
  }

  /** The inner loop of the search: each part at its first place after the previous one. */
  function Greedy(text: string, parts: seq<string>, cursor: nat): Option<nat> {
    if |parts| == 0 then Some(cursor)
    else
      var pos := Find(text, parts[0], cursor);
      if pos < 0 then None else Greedy(text, parts[1..], pos + |parts[0]|)
  }

  /** The places the inner loop chooses. */
  ghost function GreedyAt(text: string, parts: seq<string>, cursor: nat): (at: seq<nat>)
    requires Greedy(text, parts, cursor).Some?
    ensures |at| == |parts|
  {
    if |parts| == 0 then []
    else
      var pos := Find(text, parts[0], cursor);
      [pos as nat] + GreedyAt(text, parts[1..], pos + |parts[0]|)
  }

  lemma {:induction false} GreedyIsInOrder(text: string, parts: seq<string>, cursor: nat)
    requires Greedy(text, parts, cursor).Some?
    ensures var at := GreedyAt(text, parts, cursor);
            && InOrder(text, parts, at, cursor)
            && EndOf(parts, at, cursor) == Greedy(text, parts, cursor).value
  {
    hide Find, OccursAt;
    if |parts| > 0 {
      var pos := Find(text, parts[0], cursor);
      GreedyIsInOrder(text, parts[1..], pos + |parts[0]|);
      assert GreedyAt(text, parts, cursor)[1..] == GreedyAt(text, parts[1..], pos + |parts[0]|);
    }
  }

  /** Exchange argument: any in-order choice from a later cursor can be moved to the greedy one,
      which ends no later. */
  lemma {:induction false} GreedyEndsFirst(text: string, parts: seq<string>, cursor: nat, at: seq<nat>, from: nat)
    requires cursor <= from && InOrder(text, parts, at, from)
    ensures Greedy(text, parts, cursor).Some?
    ensures Greedy(text, parts, cursor).value <= EndOf(parts, at, from)
  {
    if |parts| > 0 {
      var pos := Find(text, parts[0], cursor);
      assert 0 <= pos <= at[0];
      GreedyEndsFirst(text, parts[1..], pos + |parts[0]|, at[1..], at[0] + |parts[0]|);
    }
  }

  // ------------------------------------------------------------------ the bounded search

  function SpanMatch(n: seq<Mark>, first: nat, end: nat): Match
    requires first < end <= |n|
  {
    Match(n[first].src, n[end - 1].src + 1)
  }

  /** Try every place of the first part from `from` on; give up as soon as the rest cannot follow. */
  function Search(n: seq<Mark>, text: string, parts: seq<string>, from: nat): Option<Match>
    requires |text| == |n| && |parts| > 0 && NonEmpty(parts)
    decreases |text| - from
  {
    var first := Find(text, parts[0], from);
    if first < 0 then None
    else
      var end := Greedy(text, parts[1..], first + |parts[0]|);
      if end.None? then None
      else
        GreedyInText(text, parts[1..], first + |parts[0]|);
        var m := SpanMatch(n, first, end.value);
        if m.end - m.start <= MAX_ELIDED_SPAN then Some(m)
        else Search(n, text, parts, first + 1)
  }

  lemma GreedyInText(text: string, parts: seq<string>, cursor: nat)
    requires cursor <= |text| && Greedy(text, parts, cursor).Some?
    ensures cursor <= Greedy(text, parts, cursor).value <= |text|
  {
    GreedyIsInOrder(text, parts, cursor);
    EndIsLater(text, parts, GreedyAt(text, parts, cursor), cursor);
  }

  /** `find_quote`: `None` unless the quote is really there. */
  function Locate(u: Tables, haystack: string, quote: string): Option<Match> {
    var n := Normalize(u, haystack);
    var text := Chars(n);
    var parts := QuoteParts(u, quote);
    if |parts| == 0 || TotalLength(parts) < MIN_QUOTE_CHARS then None
    else if |parts| == 1 then
      var pos := Find(text, parts[0], 0);
      if pos < 0 then None else Some(SpanMatch(n, pos, pos + |parts[0]|))
    else Search(n, text, parts, 0)
  }

  /** The two loops of the program: restart after each first part, walk through the others. */
  method FindQuote(u: Tables, haystack: string, quote: string) returns (m: Option<Match>)
    ensures m == Locate(u, haystack, quote)
  {
    hide Normalize, Chars, Sources, Find, Greedy, QuoteParts, TotalLength;
    ghost var n := Normalize(u, haystack);
    var normHay, index := NormalizeWithMap(u, haystack);
    var parts := QuoteParts(u, quote);
    if |parts| == 0 || TotalLength(parts) < MIN_QUOTE_CHARS {
      return None;
    }
    if |parts| == 1 {
      var pos := Find(normHay, parts[0], 0);
      if pos < 0 {
        return None;
      }
      return Some(Match(index[pos], index[pos + |parts[0]| - 1] + 1));
    }
    var searchFrom := 0;
    while true
      invariant 0 <= searchFrom <= |normHay|
      invariant Locate(u, haystack, quote) == Search(n, normHay, parts, searchFrom)
      decreases |normHay| - searchFrom
    {
      var first := Find(normHay, parts[0], searchFrom);
      if first < 0 {
        return None;
      }
      var end := WalkParts(normHay, parts, first + |parts[0]|);
      if end.None? {
        return None;
      }
      GreedyInText(normHay, parts[1..], first + |parts[0]|);
      var start, stop := index[first], index[end.value - 1] + 1;
      if stop - start <= MAX_ELIDED_SPAN {
        return Some(Match(start, stop));
      }
      searchFrom := first + 1;
    }
  }

  /** The inner loop over the parts after the first. */
  method WalkParts(text: string, parts: seq<string>, start: nat) returns (end: Option<nat>)
    requires |parts| > 0
    ensures end == Greedy(text, parts[1..], start)
  {
    var cursor: nat := start;
    for k := 1 to |parts|
      invariant Greedy(text, parts[1..], start) == Greedy(text, parts[k..], cursor)
    {
      assert parts[k..][1..] == parts[k + 1..];
      var pos := Find(text, parts[k], cursor);
      if pos < 0 {
        return None;
      }
      cursor := pos + |parts[k]|;
    }
    return Some(cursor);
  }

  // ------------------------------------------------------------------ completeness and minimality

  /** An acceptable reading: all parts in order, and within the span bound if the quote is elided. */
  ghost predicate Fits(n: seq<Mark>, parts: seq<string>, at: seq<nat>) {
    && |at| == |parts| > 0 && NonEmpty(parts)
    && InOrder(Chars(n), parts, at, 0)
    && EndOf(parts, at, 0) <= |n| && at[0] < EndOf(parts, at, 0)
    && (|parts| == 1 || Span(n, parts, at) <= MAX_ELIDED_SPAN)
  }

  ghost function Span(n: seq<Mark>, parts: seq<string>, at: seq<nat>): int
    requires |at| == |parts| > 0 && at[0] < EndOf(parts, at, 0) <= |n|
  {
    n[EndOf(parts, at, 0) - 1].src + 1 - n[at[0]].src
  }

  ghost function MatchAt(n: seq<Mark>, parts: seq<string>, at: seq<nat>): Match
    requires Fits(n, parts, at)
  {
    SpanMatch(n, at[0], EndOf(parts, at, 0))
  }

  /** `at` is acceptable, and no acceptable reading with a start from `from` on starts or ends before it. */
  ghost predicate Best(n: seq<Mark>, parts: seq<string>, at: seq<nat>, from: nat) {
    && Fits(n, parts, at) && from <= at[0]
    && forall other :: Fits(n, parts, other) && from <= other[0] ==>
         at[0] <= other[0] && EndOf(parts, at, 0) <= EndOf(parts, other, 0)
  }

  /** Any acceptable reading starts at or after the first occurrence of the first part, and ends at
      or after the end of the greedy walk from there. */
  lemma GreedyBounds(n: seq<Mark>, parts: seq<string>, from: nat, other: seq<nat>)
    requires Fits(n, parts, other) && from <= other[0]
    ensures var first := Find(Chars(n), parts[0], from);
            && 0 <= first <= other[0]
            && var end := Greedy(Chars(n), parts[1..], first + |parts[0]|);
               end.Some? && end.value <= EndOf(parts, other, 0)
  {
    hide Greedy, Chars, Span;
    var text := Chars(n);
    var first := Find(text, parts[0], from);
    GreedyEndsFirst(text, parts[1..], first + |parts[0]|, other[1..], other[0] + |parts[0]|);
  }

  lemma GreedyReading(n: seq<Mark>, parts: seq<string>, from: nat) returns (at: seq<nat>)
    requires |parts| > 0 && NonEmpty(parts)
    requires var first := Find(Chars(n), parts[0], from);
             first >= 0 && Greedy(Chars(n), parts[1..], first + |parts[0]|).Some?
    ensures var first := Find(Chars(n), parts[0], from);
            && |at| == |parts| && at[0] == first && InOrder(Chars(n), parts, at, 0)
            && EndOf(parts, at, 0) == Greedy(Chars(n), parts[1..], first + |parts[0]|).value
            && first < EndOf(parts, at, 0) <= |n|
  {
    var first := Find(Chars(n), parts[0], from);
    var cursor := first + |parts[0]|;
    GreedyIsInOrder(Chars(n), parts[1..], cursor);
    GreedyInText(Chars(n), parts[1..], cursor);
    at := [first as nat] + GreedyAt(Chars(n), parts[1..], cursor);
    assert at[1..] == GreedyAt(Chars(n), parts[1..], cursor);
  }

  lemma {:induction false} SearchIsBest(n: seq<Mark>, parts: seq<string>, from: nat) returns (at: seq<nat>)
    requires |parts| > 1 && NonEmpty(parts) && Monotone(n)
    ensures var m := Search(n, Chars(n), parts, from);
            && (m.None? ==> forall other :: Fits(n, parts, other) ==> other[0] < from)
            && (m.None? && from == 0 ==> forall other :: !Fits(n, parts, other))
            && (m.Some? ==> Best(n, parts, at, from) && m.value == MatchAt(n, parts, at))
    decreases |n| - from
  {
    hide Greedy, Find, Chars, InOrder, EndOf, Monotone;
    var text := Chars(n);
    var first := Find(text, parts[0], from);
    at := [];
    forall other | Fits(n, parts, other) && from <= other[0]
      ensures 0 <= first <= other[0]
      ensures var end := Greedy(text, parts[1..], first + |parts[0]|);
              end.Some? && end.value <= EndOf(parts, other, 0)
    {
      GreedyBounds(n, parts, from, other);
    }
    if first >= 0 && Greedy(text, parts[1..], first + |parts[0]|).Some? {
      at := GreedyReading(n, parts, from);
      var end := EndOf(parts, at, 0);
      if SpanMatch(n, first, end).end - SpanMatch(n, first, end).start > MAX_ELIDED_SPAN {
        forall other | Fits(n, parts, other) && from <= other[0] ensures first + 1 <= other[0] {
          if other[0] == first { WiderSpan(n, first, end, EndOf(parts, other, 0)); }
        }
        at := SearchIsBest(n, parts, first + 1);
      }
    }
  }

  lemma WiderSpan(n: seq<Mark>, first: nat, end: nat, end': nat)
    requires Monotone(n) && first < end <= end' <= |n|
    ensures SpanMatch(n, first, end).end <= SpanMatch(n, first, end').end
  {}

  predicate LongEnough(parts: seq<string>) {
    |parts| > 0 && TotalLength(parts) >= MIN_QUOTE_CHARS
  }

  /** COMPLETE AND MINIMAL. A quote is found exactly when it is long enough and some acceptable
      reading exists; the match is then the reading that starts first and ends first. */
  lemma LocateIsBest(u: Tables, haystack: string, quote: string) returns (at: seq<nat>)
    ensures var n := Normalize(u, haystack);
            var parts := QuoteParts(u, quote);
            var m := Locate(u, haystack, quote);
            && (m.Some? <==> LongEnough(parts) && exists other :: Fits(n, parts, other))
            && (m.Some? ==> Best(n, parts, at, 0) && m.value == MatchAt(n, parts, at))
  {
    hide NormalizeFrom, Chars, Find, QuoteParts, OccursAt, TotalLength, Fits, Search, Monotone;
    var n := Normalize(u, haystack);
    var parts := QuoteParts(u, quote);
    at := [];
    if LongEnough(parts) {
      if |parts| == 1 {
        at := SinglePartIsBest(n, parts);
      } else {
        IndexInRange(u, haystack, 0, Nothing);
        at := SearchIsBest(n, parts, 0);
      }
    }
  }

  lemma SinglePartIsBest(n: seq<Mark>, parts: seq<string>) returns (at: seq<nat>)
    requires |parts| == 1 && NonEmpty(parts)
    ensures var pos := Find(Chars(n), parts[0], 0);
            && (pos < 0 ==> forall other :: !Fits(n, parts, other))
            && (pos >= 0 ==> Best(n, parts, at, 0) && MatchAt(n, parts, at) == SpanMatch(n, pos, pos + |parts[0]|))
  {
    forall other | Fits(n, parts, other)
      ensures 0 <= Find(Chars(n), parts[0], 0) <= other[0]
      ensures EndOf(parts, other, 0) == other[0] + |parts[0]|
    {
      GreedyBounds(n, parts, 0, other);
    }
    at := [];
    if Find(Chars(n), parts[0], 0) >= 0 { at := GreedyReading(n, parts, 0); }
  }
}
