/** The slice that a match names is itself a faithful copy of the quote: it contains every part, and
    searching it again finds all of it. */
module QuoteLocality {
  import opened Strings
  import opened Unicode
  import opened Normalization
  import opened QuoteSearch

  lemma OccursInWindow(text: string, part: string, k: nat, f: nat, g: nat)
    requires f <= k && k + |part| <= g <= |text|
    ensures OccursAt(text, part, k) <==> OccursAt(text[f..g], part, k - f)
  {
    var x, y := text[f..g][k - f..k - f + |part|], text[k..k + |part|];
    assert |x| == |y| && forall j :: 0 <= j < |x| ==> x[j] == y[j];
    assert x == y;
  }

  /** Reading in a window of the text. */
  lemma {:induction false} IntoWindow(text: string, parts: seq<string>, at: seq<nat>, from: nat, f: nat, g: nat)
    returns (at': seq<nat>)
    requires f <= from && f <= g <= |text|
    requires InOrder(text, parts, at, from) && EndOf(parts, at, from) <= g
    ensures |at'| == |at| && InOrder(text[f..g], parts, at', from - f)
    ensures EndOf(parts, at', from - f) == EndOf(parts, at, from) - f
    ensures |parts| > 0 ==> at'[0] == at[0] - f
  {
    at' := [];
    if |parts| > 0 {
      EndIsLater(text, parts, at, from);
      OccursInWindow(text, parts[0], at[0], f, g);
      var rest := IntoWindow(text, parts[1..], at[1..], at[0] + |parts[0]|, f, g);
      at' := [at[0] - f] + rest;
      assert at'[1..] == rest;
    }
  }

  /** A reading of the window is a reading of the text. */
  lemma {:induction false} OutOfWindow(text: string, parts: seq<string>, at: seq<nat>, from: nat, f: nat, g: nat)
    returns (at': seq<nat>)
    requires f <= g <= |text| && InOrder(text[f..g], parts, at, from)
    ensures |at'| == |at| && InOrder(text, parts, at', from + f)
    ensures EndOf(parts, at', from + f) == EndOf(parts, at, from) + f
    ensures |parts| > 0 ==> at'[0] == at[0] + f
  {
    at' := [];
    if |parts| > 0 {
      OccursInWindow(text, parts[0], at[0] + f, f, g);
      var rest := OutOfWindow(text, parts[1..], at[1..], at[0] + |parts[0]|, f, g);
      at' := [at[0] + f] + rest;
      assert at'[1..] == rest;
    }
  }

  lemma FromZero(text: string, parts: seq<string>, at: seq<nat>, from: nat)
    requires |at| == |parts| > 0 && from <= at[0]
    ensures InOrder(text, parts, at, from) == InOrder(text, parts, at, 0)
    ensures EndOf(parts, at, from) == EndOf(parts, at, 0)
  {}

  /** `part` is the output `f..f + |part|` of `n`, seen from source position `a`. */
  ghost predicate IsWindow(n: seq<Mark>, part: seq<Mark>, f: nat, a: int) {
    && f + |part| <= |n|
    && Chars(part) == Chars(n)[f..f + |part|]
    && forall k :: 0 <= k < |part| ==> part[k].src + a == n[f + k].src
  }

  lemma WindowOfSplit(n: seq<Mark>, earlier: seq<Mark>, part: seq<Mark>, later: seq<Mark>, a: int)
    requires n == earlier + (Shift(part, a) + later)
    ensures IsWindow(n, part, |earlier|, a)
  {
    hide Shift;
    ShiftAt(part, a);
    var f := |earlier|;
    forall k | 0 <= k < |part|
      ensures part[k].src + a == n[f + k].src && Chars(part)[k] == Chars(n)[f..f + |part|][k]
    {
      assert n[f + k] == Shift(part, a)[k];
    }
  }

  lemma FitsInWindow(n: seq<Mark>, part: seq<Mark>, f: nat, a: int, parts: seq<string>, at: seq<nat>)
    returns (at': seq<nat>)
    requires IsWindow(n, part, f, a) && Fits(n, parts, at)
    requires f <= at[0] && EndOf(parts, at, 0) <= f + |part|
    ensures Fits(part, parts, at') && at'[0] == at[0] - f
    ensures EndOf(parts, at', 0) == EndOf(parts, at, 0) - f
  {
    hide Chars;
    FromZero(Chars(n), parts, at, f);
    at' := IntoWindow(Chars(n), parts, at, f, f, f + |part|);
    FromZero(Chars(part), parts, at', 0);
  }

  lemma FitsOutOfWindow(n: seq<Mark>, part: seq<Mark>, f: nat, a: int, parts: seq<string>, at: seq<nat>)
    returns (at': seq<nat>)
    requires IsWindow(n, part, f, a) && Fits(part, parts, at)
    ensures Fits(n, parts, at') && at'[0] == at[0] + f
    ensures EndOf(parts, at', 0) == EndOf(parts, at, 0) + f
  {
    hide Chars;
    at' := OutOfWindow(Chars(n), parts, at, 0, f, f + |part|);
    FromZero(Chars(n), parts, at', f);
  }

  /** The normalized slice of a match, the window it is, and the reading inside it. */
  lemma SliceReading(u: Tables, haystack: string, quote: string)
    returns (f: nat, at: seq<nat>, at': seq<nat>)
    requires u.Valid() && Locate(u, haystack, quote).Some?
    ensures var m := Locate(u, haystack, quote).value;
            var n := Normalize(u, haystack);
            var parts := QuoteParts(u, quote);
            && 0 <= m.start < m.end <= |haystack|
            && Best(n, parts, at, 0) && m == MatchAt(n, parts, at)
            && var slice := Normalize(u, haystack[m.start..m.end]);
               && IsWindow(n, slice, f, m.start)
               && Fits(slice, parts, at') && at'[0] == at[0] - f
               && EndOf(parts, at', 0) == EndOf(parts, at, 0) - f
  {
    hide NormalizeFrom, Chars, QuoteParts, Locate, Shift, IsWindow;
    var n := Normalize(u, haystack);
    var parts := QuoteParts(u, quote);
    at := LocateIsBest(u, haystack, quote);
    var m := MatchAt(n, parts, at);
    assert OccursAt(Chars(n), parts[0], at[0]);
    assert n[at[0]].c == parts[0][0];
    var earlier, later := LocalNormalization(u, haystack, at[0], EndOf(parts, at, 0) - 1);
    var slice := Normalize(u, haystack[m.start..m.end]);
    f := |earlier|;
    WindowOfSplit(n, earlier, slice, later, m.start);
    at' := FitsInWindow(n, slice, f, m.start, parts, at);
  }

  /** REAL QUOTE. Whatever `find_quote` returns, the slice it names, normalized on its own, contains
      every normalized part of the quote, in order and without overlap - although hyphen joining,
      space collapsing and expansions depend on the text around a character. */
  lemma SliceContainsQuote(u: Tables, haystack: string, quote: string) returns (at: seq<nat>)
    requires u.Valid() && Locate(u, haystack, quote).Some?
    ensures var m := Locate(u, haystack, quote).value;
            && 0 <= m.start < m.end <= |haystack|
            && InOrder(NormalizedText(u, haystack[m.start..m.end]), QuoteParts(u, quote), at, 0)
  {
    var f, at0, at1 := SliceReading(u, haystack, quote);
    var m := Locate(u, haystack, quote).value;
    hide NormalizeFrom, Chars, QuoteParts, Locate, IsWindow, Best;
    at := StripKeeps(u, Chars(Normalize(u, haystack[m.start..m.end])), QuoteParts(u, quote), at1);
  }

  /** Stripping whitespace from the ends cannot cut into a reading of stripped parts. */
  lemma StripKeeps(u: Tables, text: string, parts: seq<string>, at: seq<nat>) returns (at': seq<nat>)
    requires |parts| > 0 && NonEmpty(parts) && InOrder(text, parts, at, 0)
    requires forall k :: 0 <= k < |parts| ==>
      parts[k][0] !in u.space && parts[k][|parts[k]| - 1] !in u.space
    ensures InOrder(Strip(u, text), parts, at', 0)
  {
    hide *;
    EndIsLater(text, parts, at, 0);
    LastCharacter(text, parts, at, 0);
    FirstCharacter(text, parts, at, 0);
    var l, r := StripIsWindow(u, text);
    var end := EndOf(parts, at, 0);
    assert l <= at[0];
    assert end <= r by { assert text[end - 1] !in u.space; }
    FromZero(text, parts, at, l);
    at' := IntoWindow(text, parts, at, l, l, r);
  }

  lemma FirstCharacter(text: string, parts: seq<string>, at: seq<nat>, from: nat)
    requires |parts| > 0 && NonEmpty(parts) && InOrder(text, parts, at, from)
    ensures |at| == |parts| && at[0] < |text| && text[at[0]] == parts[0][0]
  {
    assert text[at[0]..at[0] + |parts[0]|][0] == parts[0][0];
  }

  lemma {:induction false} LastCharacter(text: string, parts: seq<string>, at: seq<nat>, from: nat)
    requires |parts| > 0 && NonEmpty(parts) && InOrder(text, parts, at, from)
    ensures 0 < EndOf(parts, at, from) <= |text|
    ensures var last := parts[|parts| - 1]; text[EndOf(parts, at, from) - 1] == last[|last| - 1]
  {
    if |parts| == 1 {
      assert EndOf(parts, at, from) == at[0] + |parts[0]|;
      assert text[at[0]..at[0] + |parts[0]|][|parts[0]| - 1] == parts[0][|parts[0]| - 1];
    } else {
      LastCharacter(text, parts[1..], at[1..], at[0] + |parts[0]|);
    }
  }

  /** FOUND AGAIN. Searching the returned slice for the same quote finds all of it: what is stored as
      the citation passes the same check that admitted it. */
  lemma FoundAgain(u: Tables, haystack: string, quote: string)
    requires u.Valid() && Locate(u, haystack, quote).Some?
    ensures var m := Locate(u, haystack, quote).value;
            && 0 <= m.start < m.end <= |haystack|
            && Locate(u, haystack[m.start..m.end], quote) == Some(Match(0, m.end - m.start))
  {
    hide NormalizeFrom, Chars, QuoteParts, Locate, InOrder;
    var m := Locate(u, haystack, quote).value;
    var parts := QuoteParts(u, quote);
    var n := Normalize(u, haystack);
    var f, at, at' := SliceReading(u, haystack, quote);
    var slice := Normalize(u, haystack[m.start..m.end]);
    var best := LocateIsBest(u, haystack[m.start..m.end], quote);
    var first := LocateIsBest(u, haystack, quote);
    var outer := FitsOutOfWindow(n, slice, f, m.start, parts, best);
    assert best[0] == at'[0] && EndOf(parts, best, 0) == EndOf(parts, at', 0);
  }
}
