/** What an ellipsis in a quote means: the pieces around it are all that is searched, and each of them must occur. */
module Elisions {
  import opened Strings
  import opened Unicode
  import opened Normalization
  import opened QuoteSearch

  /** Whitespace, an ellipsis, whitespace. */
  datatype Separator = Separator(before: string, dots: string, after: string) {
    function Text(): string { before + dots + after }
  }

  predicate IsEllipsis(dots: string) { dots == "..." || dots == [ELLIPSIS] }

  predicate IsSpace(u: Tables, s: string) { forall k :: 0 <= k < |s| ==> s[k] in u.space }

  predicate IsSeparator(u: Tables, sep: Separator) {
    IsSpace(u, sep.before) && IsEllipsis(sep.dots) && IsSpace(u, sep.after)
  }

  predicate HasEllipsisAt(s: string, k: nat) { OccursAt(s, "...", k) || OccursAt(s, [ELLIPSIS], k) }

  ghost predicate HasEllipsis(s: string) { exists k :: HasEllipsisAt(s, k) }

  /** The pieces with the separators between them, put together. */
  function Join(pieces: seq<string>, seps: seq<Separator>): string
    requires |pieces| == |seps| + 1
  {
    if |seps| == 0 then pieces[0] else pieces[0] + seps[0].Text() + Join(pieces[1..], seps[1..])
  }

  /** No whitespace next to the separator is left to its neighbours, and no ellipsis ends before its own. */
  ghost predicate IsTight(u: Tables, piece: string, sep: Separator, rest: string)
    requires |sep.dots| > 0
  {
    && (|piece| > 0 ==> piece[|piece| - 1] !in u.space)
    && (|rest| > 0 ==> rest[0] !in u.space)
    && !HasEllipsis(piece + sep.before + sep.dots[..|sep.dots| - 1])
  }

  /** `s` read from the left: a piece, the first separator, and so on, and a last piece without an ellipsis. */
  ghost predicate IsElision(u: Tables, s: string, pieces: seq<string>, seps: seq<Separator>) {
    && |pieces| == |seps| + 1
    && if |seps| == 0 then s == pieces[0] && !HasEllipsis(s)
       else
         && IsSeparator(u, seps[0])
         && pieces[0] + seps[0].Text() <= s
         && var rest := s[|pieces[0] + seps[0].Text()|..];
            IsTight(u, pieces[0], seps[0], rest) && IsElision(u, rest, pieces[1..], seps[1..])
  }

  // ------------------------------------------------------------------ the split is such a reading

  lemma {:induction false} SkipsSpaces(u: Tables, s: string, j: nat)
    requires j <= |s|
    ensures var k := SkipSpaces(u, s, j);
            IsSpace(u, s[j..k]) && (k < |s| ==> s[k] !in u.space)
    decreases |s| - j
  {
    if j < |s| && s[j] in u.space {
      SkipsSpaces(u, s, j + 1);
      var k := SkipSpaces(u, s, j + 1);
      assert s[j..k] == [s[j]] + s[j + 1..k];
    }
  }

  lemma {:induction false} SkipsTo(u: Tables, s: string, j: nat, k: nat)
    requires j <= k <= |s| && IsSpace(u, s[j..k]) && (k < |s| ==> s[k] !in u.space)
    ensures SkipSpaces(u, s, j) == k
    decreases k - j
  {
    if j < k {
      assert s[j] == s[j..k][0] && s[j + 1..k] == s[j..k][1..];
      SkipsTo(u, s, j + 1, k);
    }
  }

  /** The same, character by character. */
  predicate DotsAt(s: string, k: nat) {
    || (k < |s| && s[k] == ELLIPSIS)
    || (k + 3 <= |s| && s[k] == '.' && s[k + 1] == '.' && s[k + 2] == '.')
  }

  lemma EllipsisIsDots(s: string, k: nat)
    ensures HasEllipsisAt(s, k) <==> DotsAt(s, k)
  {
    if k + 3 <= |s| { assert s[k..k + 3] == [s[k], s[k + 1], s[k + 2]]; }
    if k + 1 <= |s| { assert s[k..k + 1] == [s[k]]; }
  }

  lemma NoDots(s: string)
    ensures !HasEllipsis(s) <==> forall k: nat :: !DotsAt(s, k)
  {
    hide HasEllipsisAt, DotsAt;
    forall k: nat ensures HasEllipsisAt(s, k) <==> DotsAt(s, k) { EllipsisIsDots(s, k); }
  }

  lemma EllipsisEnds(s: string, k: nat)
    requires k <= |s|
    ensures EllipsisAt(s, k).Some? <==> DotsAt(s, k)
    ensures EllipsisAt(s, k).Some? ==> k < EllipsisAt(s, k).value <= |s| && IsEllipsis(s[k..EllipsisAt(s, k).value])
  {
    if k + 3 <= |s| { assert s[k..k + 3] == [s[k], s[k + 1], s[k + 2]]; }
  }

  lemma DotsAreVisible(u: Tables, s: string, k: nat)
    requires u.Valid() && DotsAt(s, k)
    ensures k < |s| && s[k] !in u.space
  {
    assert IsTerminator(s[k]);
  }

  /** An ellipsis starts a separator. */
  lemma DotsStart(u: Tables, s: string, k: nat)
    requires u.Valid() && DotsAt(s, k)
    ensures k < |s| && SeparatorAt(u, s, k).Some?
  {
    hide DotsAt;
    DotsAreVisible(u, s, k);
    EllipsisEnds(s, k);
  }

  /** The first separator starts with its whitespace and ends with it. */
  lemma FirstSeparator(u: Tables, s: string) returns (sep: Separator)
    requires u.Valid() && NextSeparator(u, s, 0) < |s|
    ensures var k := NextSeparator(u, s, 0);
            var end := SeparatorAt(u, s, k).value;
            && IsSeparator(u, sep) && s[..k] + sep.Text() == s[..end]
            && IsTight(u, s[..k], sep, s[end..])
  {
    hide HasEllipsis, NextSeparator, SkipSpaces, IsEllipsis, IsSpace, EllipsisAt;
    var k := NextSeparator(u, s, 0);
    var e := SkipSpaces(u, s, k);
    var f := EllipsisAt(s, e).value;
    var end := SkipSpaces(u, s, f);
    EllipsisEnds(s, e);
    SkipsSpaces(u, s, k);
    SkipsSpaces(u, s, f);
    sep := Separator(s[k..e], s[e..f], s[f..end]);
    assert s[..k] + sep.Text() == s[..end];
    BeforeIsVisible(u, s);
    NoEarlier(u, s, e, f);
    assert s[..k] + sep.before + sep.dots[..|sep.dots| - 1] == s[..f - 1];
  }

  lemma BeforeIsVisible(u: Tables, s: string)
    requires NextSeparator(u, s, 0) < |s|
    ensures var k := NextSeparator(u, s, 0); k > 0 ==> s[k - 1] !in u.space
  {
    hide EllipsisAt;
    var k := NextSeparator(u, s, 0);
    assert k > 0 ==> SeparatorAt(u, s, k - 1).None?;
  }

  lemma SpaceAt(u: Tables, s: string, j: nat, k: nat, p: nat)
    requires j <= p < k <= |s| && IsSpace(u, s[j..k])
    ensures s[p] in u.space
  {
    assert s[p] == s[j..k][p - j];
  }

  lemma LastDots(s: string, e: nat, f: nat, j: nat)
    requires e <= j < f - 1 < |s| && IsEllipsis(s[e..f])
    ensures !DotsAt(s[..f - 1], j)
  {
    assert s[j] == s[e..f][j - e];
  }

  lemma NoEarlier(u: Tables, s: string, e: nat, f: nat)
    requires u.Valid() && NextSeparator(u, s, 0) <= e < f <= |s|
    requires IsSpace(u, s[NextSeparator(u, s, 0)..e]) && IsEllipsis(s[e..f])
    ensures !HasEllipsis(s[..f - 1])
  {
    hide NextSeparator, SeparatorAt, EllipsisAt, HasEllipsis;
    var k := NextSeparator(u, s, 0);
    var head := s[..f - 1];
    forall j: nat ensures !DotsAt(head, j) {
      if DotsAt(head, j) {
        DotsAreVisible(u, head, j);
        if j < k {
          DotsStart(u, s, j);
        } else if j < e {
          SpaceAt(u, s, k, e, j);
        } else {
          LastDots(s, e, f, j);
        }
      }
    }
    NoDots(head);
  }

  /** The split of the program reads the quote from the left. */
  lemma {:induction false} SplitIsElision(u: Tables, s: string) returns (seps: seq<Separator>)
    requires u.Valid()
    ensures IsElision(u, s, SplitEllipsis(u, s), seps)
    decreases |s|
  {
    hide SeparatorAt, HasEllipsis, IsTight, IsSeparator;
    var k := NextSeparator(u, s, 0);
    if k == |s| {
      seps := [];
      NoEllipsis(u, s);
    } else {
      var end := SeparatorAt(u, s, k).value;
      var sep := FirstSeparator(u, s);
      var rest := SplitIsElision(u, s[end..]);
      seps := [sep] + rest;
      assert SplitEllipsis(u, s)[1..] == SplitEllipsis(u, s[end..]) && seps[1..] == rest;
    }
  }

  // ------------------------------------------------------------------ and the only one

  /** The first separator of a reading, as the split measures it. */
  lemma SeparatorHere(u: Tables, s: string, piece: string, sep: Separator)
    requires u.Valid() && IsSeparator(u, sep) && piece + sep.Text() <= s
    requires var rest := s[|piece + sep.Text()|..]; |rest| > 0 ==> rest[0] !in u.space
    ensures |piece| < |s| && SeparatorAt(u, s, |piece|) == Some(|piece + sep.Text()|)
  {
    hide SkipSpaces, IsSpace, EllipsisAt, DotsAt;
    var k, e := |piece|, |piece| + |sep.before|;
    var f := e + |sep.dots|;
    var end := f + |sep.after|;
    SlicesOf(s, piece, sep);
    DotsEnd(s, e, f);
    DotsAreVisible(u, s, e);
    SkipsTo(u, s, k, e);
    SkipsTo(u, s, f, end);
  }

  lemma SlicesOf(s: string, piece: string, sep: Separator)
    requires piece + sep.Text() <= s
    ensures var e := |piece| + |sep.before|;
            var f := e + |sep.dots|;
            && f + |sep.after| == |piece + sep.Text()|
            && s[|piece|..e] == sep.before && s[e..f] == sep.dots && s[f..f + |sep.after|] == sep.after
  {
    var head := piece + sep.Text();
    var e := |piece| + |sep.before|;
    var f := e + |sep.dots|;
    assert s[|piece|..e] == head[|piece|..e] == sep.before;
    assert s[e..f] == head[e..f] == sep.dots;
    assert s[f..f + |sep.after|] == head[f..f + |sep.after|] == sep.after;
  }

  lemma DotsEnd(s: string, e: nat, f: nat)
    requires e < f <= |s| && IsEllipsis(s[e..f])
    ensures EllipsisAt(s, e) == Some(f) && DotsAt(s, e)
  {
    assert s[e] == s[e..f][0];
    if f == e + 3 { assert s[e + 1] == s[e..f][1] && s[e + 2] == s[e..f][2]; }
  }

  /** ... and none before it. */
  lemma NoSeparatorIn(u: Tables, s: string, piece: string, sep: Separator, j: nat)
    requires u.Valid() && IsSeparator(u, sep) && piece + sep.Text() <= s && j < |piece|
    requires IsTight(u, piece, sep, s[|piece + sep.Text()|..])
    ensures SeparatorAt(u, s, j).None?
  {
    hide HasEllipsis, SkipSpaces, EllipsisAt, DotsAt;
    var i := SkipSpaces(u, s, j);
    SkipsSpaces(u, s, j);
    StopsBefore(u, s, j, i, |piece|);
    EllipsisEnds(s, i);
    if DotsAt(s, i) {
      var head := piece + sep.before + sep.dots[..|sep.dots| - 1];
      assert s[..|head|] == head;
      NoDots(head);
      assert s[|head|] == (piece + sep.Text())[|head|] == sep.dots[|sep.dots| - 1];
      DotsReach(s, i, |head|);
    }
  }

  lemma StopsBefore(u: Tables, s: string, j: nat, i: nat, k: nat)
    requires j < k <= |s| && j <= i <= |s| && IsSpace(u, s[j..i]) && s[k - 1] !in u.space
    ensures i < k
  {
    if i >= k { SpaceAt(u, s, j, i, k - 1); }
  }

  /** An ellipsis that does not end before `p` is three dots, two of them before `p` at the most. */
  lemma DotsReach(s: string, i: nat, p: nat)
    requires i < p < |s| && DotsAt(s, i) && !DotsAt(s[..p], i)
    ensures s[p] == '.' && p < i + 3
  {}

  /** The first separator of a reading is where the split looks for it. */
  lemma SeparatorIsNext(u: Tables, s: string, piece: string, sep: Separator)
    requires u.Valid() && IsSeparator(u, sep) && piece + sep.Text() <= s
    requires IsTight(u, piece, sep, s[|piece + sep.Text()|..])
    ensures NextSeparator(u, s, 0) == |piece| < |s|
    ensures SeparatorAt(u, s, |piece|) == Some(|piece + sep.Text()|)
  {
    hide HasEllipsis, SeparatorAt, IsSeparator, NextSeparator;
    SeparatorHere(u, s, piece, sep);
    forall j | 0 <= j < |piece| ensures SeparatorAt(u, s, j).None? {
      NoSeparatorIn(u, s, piece, sep, j);
    }
  }

  /** A text without an ellipsis has no separator. */
  lemma NoSeparator(u: Tables, s: string)
    requires !HasEllipsis(s)
    ensures NextSeparator(u, s, 0) == |s|
  {
    var k := NextSeparator(u, s, 0);
    NoDots(s);
    if k < |s| { EllipsisEnds(s, SkipSpaces(u, s, k)); }
  }

  /** A text without a separator has no ellipsis. */
  lemma NoEllipsis(u: Tables, s: string)
    requires u.Valid() && NextSeparator(u, s, 0) == |s|
    ensures !HasEllipsis(s)
  {
    hide HasEllipsis, SeparatorAt, NextSeparator;
    forall j: nat ensures !DotsAt(s, j) {
      if DotsAt(s, j) { DotsStart(u, s, j); }
    }
    NoDots(s);
  }

  /** THE SPLIT, DEFINED. There is one reading of a quote from the left, and the split is it. */
  lemma {:induction false} SplitExactly(u: Tables, s: string, pieces: seq<string>, seps: seq<Separator>)
    requires u.Valid() && IsElision(u, s, pieces, seps)
    ensures pieces == SplitEllipsis(u, s)
    decreases |seps|
  {
    hide SeparatorAt, HasEllipsis, IsTight, IsSeparator;
    if |seps| == 0 {
      NoSeparator(u, s);
    } else {
      var head := pieces[0] + seps[0].Text();
      SeparatorIsNext(u, s, pieces[0], seps[0]);
      SplitExactly(u, s[|head|..], pieces[1..], seps[1..]);
      assert s[..|pieces[0]|] == pieces[0];
    }
  }

  /** NOTHING IS DROPPED. The pieces and the separators between them are the quote, and no piece has an ellipsis. */
  lemma {:induction false} PiecesAreTheQuote(u: Tables, s: string, pieces: seq<string>, seps: seq<Separator>)
    requires IsElision(u, s, pieces, seps)
    ensures Join(pieces, seps) == s
    ensures forall k :: 0 <= k < |seps| ==> IsSeparator(u, seps[k])
    ensures forall k :: 0 <= k < |pieces| ==> !HasEllipsis(pieces[k])
    decreases |seps|
  {
    hide HasEllipsis;
    if |seps| > 0 {
      var head := pieces[0] + seps[0].Text();
      PiecesAreTheQuote(u, s[|head|..], pieces[1..], seps[1..]);
      TightHasNone(u, pieces[0], seps[0], s[|head|..]);
    }
  }

  lemma TightHasNone(u: Tables, piece: string, sep: Separator, rest: string)
    requires IsSeparator(u, sep) && IsTight(u, piece, sep, rest)
    ensures !HasEllipsis(piece)
  {
    var more := sep.before + sep.dots[..|sep.dots| - 1];
    assert piece + more == piece + sep.before + sep.dots[..|sep.dots| - 1];
    PrefixHasNone(piece, more);
  }

  lemma PrefixHasNone(s: string, more: string)
    requires !HasEllipsis(s + more)
    ensures !HasEllipsis(s)
  {
    hide HasEllipsis;
    NoDots(s + more);
    forall k: nat ensures !DotsAt(s, k) {
      assert !DotsAt(s + more, k);
    }
    NoDots(s);
  }

  // ------------------------------------------------------------------ what is searched

  ghost predicate Matches(u: Tables, parts: seq<string>, pieces: seq<string>, from: seq<nat>) {
    && |from| == |parts|
    && forall k :: 0 <= k < |from| ==> from[k] < |pieces| && parts[k] == NormalizedText(u, pieces[from[k]])
  }

  predicate IsAscending(from: seq<nat>) { forall j, k :: 0 <= j < k < |from| ==> from[j] < from[k] }

  ghost predicate HasAllVisible(u: Tables, pieces: seq<string>, from: seq<nat>) {
    forall i :: 0 <= i < |pieces| && NormalizedText(u, pieces[i]) != "" ==> i in from
  }

  /** The parts searched are the normalized pieces at the places `from`, and no other piece is visible. */
  ghost predicate ArePieces(u: Tables, parts: seq<string>, pieces: seq<string>, from: seq<nat>) {
    Matches(u, parts, pieces, from) && IsAscending(from) && HasAllVisible(u, pieces, from)
  }

  function PlusOne(from: seq<nat>): (r: seq<nat>)
    ensures |r| == |from| && forall k :: 0 <= k < |r| ==> r[k] == from[k] + 1
  {
    seq(|from|, k requires 0 <= k < |from| => from[k] + 1)
  }

  function OneMore(u: Tables, piece: string, from: seq<nat>): seq<nat> {
    (if NormalizedText(u, piece) != "" then [0] else []) + PlusOne(from)
  }

  lemma MoreMatch(u: Tables, parts: seq<string>, pieces: seq<string>, from: seq<nat>)
    requires |pieces| > 0 && Matches(u, parts, pieces[1..], from)
    ensures var p := NormalizedText(u, pieces[0]);
            Matches(u, (if p != "" then [p] else []) + parts, pieces, OneMore(u, pieces[0], from))
  {
    hide NormalizedText;
    forall k | 0 <= k < |from| ensures from[k] + 1 < |pieces| && parts[k] == NormalizedText(u, pieces[from[k] + 1]) {
      assert pieces[from[k] + 1] == pieces[1..][from[k]];
    }
  }

  lemma MoreVisible(u: Tables, pieces: seq<string>, from: seq<nat>)
    requires |pieces| > 0 && HasAllVisible(u, pieces[1..], from)
    ensures HasAllVisible(u, pieces, OneMore(u, pieces[0], from))
  {
    hide NormalizedText;
    var more := OneMore(u, pieces[0], from);
    forall i | 0 <= i < |pieces| && NormalizedText(u, pieces[i]) != "" ensures i in more {
      if i == 0 {
        assert more[0] == 0;
      } else {
        assert pieces[i] == pieces[1..][i - 1];
        var k :| 0 <= k < |from| && from[k] == i - 1;
        assert PlusOne(from)[k] == i;
      }
    }
  }

  lemma NoneToMatch(u: Tables, pieces: seq<string>)
    requires |pieces| == 0
    ensures ArePieces(u, NormalizedParts(u, pieces), pieces, [])
  {}

  /** The normalized pieces are searched, in order, and the empty ones are not. */
  lemma {:induction false} PartsArePieces(u: Tables, pieces: seq<string>) returns (from: seq<nat>)
    ensures ArePieces(u, NormalizedParts(u, pieces), pieces, from)
  {
    hide NormalizedText, Matches, HasAllVisible;
    from := [];
    if |pieces| == 0 {
      NoneToMatch(u, pieces);
    } else {
      var rest := PartsArePieces(u, pieces[1..]);
      from := OneMore(u, pieces[0], rest);
      MoreMatch(u, NormalizedParts(u, pieces[1..]), pieces, rest);
      MoreVisible(u, pieces, rest);
    }
  }

  function NormalizedPieces(u: Tables, pieces: seq<string>): (r: seq<string>)
    ensures |r| == |pieces| && forall k :: 0 <= k < |r| ==> r[k] == NormalizedText(u, pieces[k])
  {
    seq(|pieces|, k requires 0 <= k < |pieces| => NormalizedText(u, pieces[k]))
  }

  /** Empty pieces have a place anywhere. */
  lemma {:induction false} PlaceAll(u: Tables, text: string, pieces: seq<string>, at: seq<nat>, from: nat)
    returns (all: seq<nat>)
    requires from <= |text| && InOrder(text, NormalizedParts(u, pieces), at, from)
    ensures InOrder(text, NormalizedPieces(u, pieces), all, from)
    decreases |pieces|
  {
    hide NormalizedText, OccursAt, NormalizedParts, InOrder;
    if |pieces| == 0 {
      all := [];
      NoPieces(u, text, from);
    } else {
      var p := NormalizedText(u, pieces[0]);
      assert NormalizedPieces(u, pieces)[1..] == NormalizedPieces(u, pieces[1..]);
      var at0, more := FirstPlace(u, text, pieces, at, from);
      var rest := PlaceAll(u, text, pieces[1..], more, at0 + |p|);
      all := [at0] + rest;
      PutFirst(text, NormalizedPieces(u, pieces), at0, rest, from);
    }
  }

  lemma NoPieces(u: Tables, text: string, from: nat)
    ensures InOrder(text, NormalizedPieces(u, []), [], from)
  {}

  lemma PutFirst(text: string, parts: seq<string>, at: nat, rest: seq<nat>, from: nat)
    requires |parts| > 0 && from <= at && OccursAt(text, parts[0], at)
    requires InOrder(text, parts[1..], rest, at + |parts[0]|)
    ensures InOrder(text, parts, [at] + rest, from)
  {
    hide OccursAt;
    assert ([at] + rest)[1..] == rest;
  }

  lemma FirstPlace(u: Tables, text: string, pieces: seq<string>, at: seq<nat>, from: nat)
    returns (at0: nat, more: seq<nat>)
    requires |pieces| > 0 && from <= |text| && InOrder(text, NormalizedParts(u, pieces), at, from)
    ensures var p := NormalizedText(u, pieces[0]);
            && from <= at0 && at0 + |p| <= |text| && OccursAt(text, p, at0)
            && InOrder(text, NormalizedParts(u, pieces[1..]), more, at0 + |p|)
  {
    hide NormalizedText, OccursAt, NormalizedParts;
    FirstPart(u, pieces);
    if NormalizedText(u, pieces[0]) == "" {
      at0, more := from, at;
      EmptyOccurs(text, from);
    } else {
      at0, more := at[0], at[1..];
      InText(text, NormalizedText(u, pieces[0]), at0);
    }
  }

  lemma FirstPart(u: Tables, pieces: seq<string>)
    requires |pieces| > 0
    ensures var parts := NormalizedParts(u, pieces);
            if NormalizedText(u, pieces[0]) == "" then parts == NormalizedParts(u, pieces[1..])
            else
              && |parts| > 0 && parts[0] == NormalizedText(u, pieces[0])
              && parts[1..] == NormalizedParts(u, pieces[1..])
  {
    hide NormalizedText;
  }

  lemma EmptyOccurs(text: string, k: nat)
    requires k <= |text|
    ensures OccursAt(text, "", k)
  {}

  lemma InText(text: string, part: string, k: nat)
    requires OccursAt(text, part, k)
    ensures k + |part| <= |text|
  {}

  /** FOUND ONLY IF ALL IS THERE. A quote is found only if all its pieces occur in the text, in order and
      without overlap. */
  lemma AllPiecesOccur(u: Tables, haystack: string, quote: string, pieces: seq<string>, seps: seq<Separator>)
    returns (at: seq<nat>)
    requires u.Valid() && IsElision(u, quote, pieces, seps) && Locate(u, haystack, quote).Some?
    ensures InOrder(Chars(Normalize(u, haystack)), NormalizedPieces(u, pieces), at, 0)
  {
    SplitExactly(u, quote, pieces, seps);
    var places := LocateIsBest(u, haystack, quote);
    at := PlaceAll(u, Chars(Normalize(u, haystack)), pieces, places, 0);
  }

  const GAP := Separator(" ", [ELLIPSIS], " ")

  predicate IsTrimmed(u: Tables, s: string) { s != "" && s[0] !in u.space && s[|s| - 1] !in u.space }

  lemma GapIsElision(u: Tables, a: string, b: string)
    requires u.Valid() && IsTrimmed(u, a) && IsTrimmed(u, b) && !HasEllipsis(a) && !HasEllipsis(b)
    ensures IsElision(u, a + GAP.Text() + b, [a, b], [GAP])
  {
    hide HasEllipsis;
    var s := a + GAP.Text() + b;
    assert [a, b][1..] == [b] && [GAP][1..] == [];
    assert s[|a + GAP.Text()|..] == b && s[..|a + GAP.Text()|] == a + GAP.Text();
    assert a + GAP.before + GAP.dots[..|GAP.dots| - 1] == a + " ";
    NoDots(a);
    forall k: nat ensures !DotsAt(a + " ", k) {
      assert !DotsAt(a, k);
    }
    NoDots(a + " ");
  }

  lemma PartsOfTwo(u: Tables, a: string, b: string)
    ensures NormalizedParts(u, [a, b]) == NormalizedParts(u, [a]) + NormalizedParts(u, [b])
    ensures NormalizedText(u, a) != "" ==> NormalizedParts(u, [a]) == [NormalizedText(u, a)]
  {
    hide NormalizedText;
    assert [a, b][1..] == [b] && [b][1..] == [] && [a][1..] == [];
    assert NormalizedParts(u, []) == [];
  }

  /** TWO PIECES. A quote with one gap is searched as its two sides, and found only if both occur, one after the
      other. */
  lemma QuoteWithGap(u: Tables, haystack: string, a: string, b: string) returns (i: nat, j: nat)
    requires u.Valid() && IsTrimmed(u, a) && IsTrimmed(u, b) && !HasEllipsis(a) && !HasEllipsis(b)
    ensures QuoteParts(u, a + GAP.Text() + b) == QuoteParts(u, a) + QuoteParts(u, b)
    ensures NormalizedText(u, a) != "" ==> QuoteParts(u, a) == [NormalizedText(u, a)]
    ensures Locate(u, haystack, a + GAP.Text() + b).Some? ==>
              var text := Chars(Normalize(u, haystack));
              && OccursAt(text, NormalizedText(u, a), i) && OccursAt(text, NormalizedText(u, b), j)
              && i + |NormalizedText(u, a)| <= j
  {
    hide Locate, NormalizedText, NormalizeFrom, Chars, HasEllipsis, NormalizedParts;
    i, j := 0, 0;
    var quote := a + GAP.Text() + b;
    GapIsElision(u, a, b);
    SplitExactly(u, quote, [a, b], [GAP]);
    SplitExactly(u, a, [a], []);
    SplitExactly(u, b, [b], []);
    PartsOfTwo(u, a, b);
    if Locate(u, haystack, quote).Some? {
      var at := AllPiecesOccur(u, haystack, quote, [a, b], [GAP]);
      i, j := at[0], at[1];
    }
  }
}
