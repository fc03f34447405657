/** What the comparison of texts forgives, and that it forgives nothing else. */
module Typography {
  import opened Unicode
  import opened Normalization

  // ------------------------------------------------------------------ characters that are alike

  const DOUBLE_QUOTES := "\"\U{00AB}\U{00BB}\U{201C}\U{201D}\U{201E}\U{201F}\U{2033}"
  const SINGLE_QUOTES := "'`\U{2018}\U{2019}\U{201A}\U{201B}\U{2032}"
  const DASHES := "\U{2010}\U{2011}\U{2012}\U{2013}\U{2014}\U{2015}\U{2212}\U{FE58}\U{FE63}\U{FF0D}"
  const YO_AND_YE := "\U{0451}\U{0435}\U{0401}\U{0415}"

  /** A character of the typewriter: none of the marks above but the plain quotes, and with no other form. */
  predicate IsPlain(u: Tables, c: char) {
    && c !in u.space && c !in u.nfkcLower && c != SOFT_HYPHEN && c != '\U{0451}'
    && (c in DOUBLE_QUOTES ==> c == '"') && (c in SINGLE_QUOTES ==> c == '\'') && c !in DASHES
  }

  predicate IsMark(u: Tables, c: char) {
    c in DOUBLE_QUOTES || c in SINGLE_QUOTES || c in DASHES || c in u.space || c == SOFT_HYPHEN || c == '-'
  }

  /** The quotes and dashes of any style, whitespace of any kind, letters of either case, yo and ye. */
  predicate AreAlike(u: Tables, c: char, d: char) {
    || c == d
    || (c in DOUBLE_QUOTES && d in DOUBLE_QUOTES)
    || (c in SINGLE_QUOTES && d in SINGLE_QUOTES)
    || (c in DASHES && d in DASHES)
    || (c in u.space && d in u.space)
    || (c in YO_AND_YE && d in YO_AND_YE)
    || (!IsMark(u, c) && !IsMark(u, d) && FormOf(u, c) == FormOf(u, d))
  }

  function FormOf(u: Tables, c: char): string { if c in u.nfkcLower then u.nfkcLower[c] else [c] }

  /** No mark is whitespace; the plain ones have no other form; yo and ye of either case are the small letters. */
  ghost predicate KnowsMarks(u: Tables) {
    && (forall c :: c in DOUBLE_QUOTES || c in SINGLE_QUOTES || c in DASHES || c in YO_AND_YE ==> c !in u.space)
    && '-' !in u.space && SOFT_HYPHEN !in u.space && ' ' in u.space
    && '"' !in u.nfkcLower && '\'' !in u.nfkcLower && '-' !in u.nfkcLower
    && forall c :: c in YO_AND_YE ==> FormOf(u, c) == "\U{0451}" || FormOf(u, c) == "\U{0435}"
  }

  /** No hyphen stands before whitespace, where it may be the break of a word. */
  predicate IsWhole(u: Tables, text: string) {
    forall k :: 0 <= k < |text| - 1 && text[k] == '-' ==> text[k + 1] !in u.space
  }

  predicate AllAlike(u: Tables, a: string, b: string) {
    |a| == |b| && forall k :: 0 <= k < |a| ==> AreAlike(u, a[k], b[k])
  }

  lemma QuotesAre(c: char)
    ensures c in DOUBLE_QUOTES <==> c == '"' || IsDoubleQuote(c)
    ensures c in SINGLE_QUOTES <==> c == '\'' || IsSingleQuote(c)
    ensures c in DASHES <==> IsDash(c)
    ensures c in YO_AND_YE ==> c !in DOUBLE_QUOTES && c !in SINGLE_QUOTES && c !in DASHES && c != SOFT_HYPHEN
  {}

  lemma OneCharacter(c: char)
    ensures ReplaceYo([c]) == [if c == '\U{0451}' then '\U{0435}' else c]
  {
    assert [c][1..] == "";
  }

  /** Every mark has its one image. */
  lemma ImageOf(u: Tables, c: char)
    requires KnowsMarks(u)
    ensures c in DOUBLE_QUOTES ==> MapChar(u, c) == "\""
    ensures c in SINGLE_QUOTES ==> MapChar(u, c) == "'"
    ensures c in DASHES ==> MapChar(u, c) == "-"
    ensures c in u.space ==> MapChar(u, c) == " "
    ensures c in YO_AND_YE ==> MapChar(u, c) == "\U{0435}"
    ensures IsPlain(u, c) ==> MapChar(u, c) == [c]
    ensures !IsMark(u, c) ==> MapChar(u, c) == ReplaceYo(FormOf(u, c))
  {
    QuotesAre(c);
    OneCharacter(c);
    OneCharacter('\U{0451}');
    OneCharacter('\U{0435}');
  }

  lemma AlikeImages(u: Tables, c: char, d: char)
    requires KnowsMarks(u) && AreAlike(u, c, d)
    ensures MapChar(u, c) == MapChar(u, d) && (c == SOFT_HYPHEN <==> d == SOFT_HYPHEN)
  {
    hide MapChar, IsPlain;
    ImageOf(u, c);
    ImageOf(u, d);
  }

  // ------------------------------------------------------------------ texts that are alike

  lemma NoJoin(u: Tables, text: string, i: nat, last: Last)
    requires IsWhole(u, text) && i < |text|
    ensures !Joins(u, text, i, last)
  {}

  lemma OnlyCharacters(u: Tables, text: string, i: nat, last: Last)
    requires IsWhole(u, text) && i < |text|
    ensures Next(u, text, i, last) == i + 1
    ensures Emit(u, text, i, last) ==
            if text[i] == SOFT_HYPHEN then ""
            else if IsBlank(MapChar(u, text[i])) then (if last.Char? && last.c != ' ' then " " else "")
            else MapChar(u, text[i])
  {
    hide Joins;
    NoJoin(u, text, i, last);
  }

  lemma {:induction false} CharsOfOne(e: string, i: int)
    ensures Chars(FromOne(e, i)) == e
  {
    FromOneAt(e, i);
  }

  lemma {:induction false} CharsConcat(x: seq<Mark>, y: seq<Mark>)
    ensures Chars(x + y) == Chars(x) + Chars(y)
  {}

  /** One step of the output. */
  lemma NextCharacters(u: Tables, text: string, i: nat, last: Last)
    requires i < |text|
    ensures var e := Emit(u, text, i, last);
            Chars(NormalizeFrom(u, text, i, last)) ==
            e + Chars(NormalizeFrom(u, text, Next(u, text, i, last), LastOf(last, e)))
  {
    hide *;
    var e := Emit(u, text, i, last);
    var next := Next(u, text, i, last);
    Unroll(u, text, i, last, e, next);
    CharsConcat(FromOne(e, i), NormalizeFrom(u, text, next, LastOf(last, e)));
    CharsOfOne(e, i);
  }

  lemma {:induction false} AlikeFrom(u: Tables, a: string, b: string, i: nat, last: Last)
    requires KnowsMarks(u) && IsWhole(u, a) && IsWhole(u, b) && AllAlike(u, a, b) && i <= |a|
    ensures Chars(NormalizeFrom(u, a, i, last)) == Chars(NormalizeFrom(u, b, i, last))
    decreases |a| - i
  {
    hide *;
    AlikeLengths(u, a, b);
    if i == |a| {
      NothingLeft(u, a, last);
      NothingLeft(u, b, last);
    } else {
      AlikeStep(u, a, b, i, last);
      NextCharacters(u, a, i, last);
      NextCharacters(u, b, i, last);
      AlikeFrom(u, a, b, i + 1, LastOf(last, Emit(u, a, i, last)));
    }
  }

  lemma NothingLeft(u: Tables, a: string, last: Last)
    ensures Chars(NormalizeFrom(u, a, |a|, last)) == ""
  {}

  lemma AlikeLengths(u: Tables, a: string, b: string)
    requires AllAlike(u, a, b)
    ensures |a| == |b|
  {}

  lemma AlikeStep(u: Tables, a: string, b: string, i: nat, last: Last)
    requires KnowsMarks(u) && IsWhole(u, a) && IsWhole(u, b) && AllAlike(u, a, b) && i < |a|
    ensures i < |b| && Emit(u, a, i, last) == Emit(u, b, i, last)
    ensures Next(u, a, i, last) == i + 1 == Next(u, b, i, last)
  {
    hide Emit, Next, MapChar, KnowsMarks, IsWhole, AreAlike;
    AlikeImages(u, a[i], b[i]);
    OnlyCharacters(u, a, i, last);
    OnlyCharacters(u, b, i, last);
  }

  /** FORGIVEN. Texts that differ in nothing but quote and dash styles, kinds of whitespace, case and yo compare as
      equal. */
  lemma AlikeTextsAgree(u: Tables, a: string, b: string)
    requires KnowsMarks(u) && IsWhole(u, a) && IsWhole(u, b) && AllAlike(u, a, b)
    ensures NormalizedText(u, a) == NormalizedText(u, b)
  {
    AlikeFrom(u, a, b, 0, Nothing);
  }

  // ------------------------------------------------------------------ wording is kept

  /** Plain characters with single spaces between them. */
  predicate IsTyped(u: Tables, text: string) {
    && (forall k :: 0 <= k < |text| ==> text[k] == ' ' || IsPlain(u, text[k]))
    && (|text| > 0 ==> text[0] != ' ')
    && forall k :: 0 < k < |text| && text[k] == ' ' ==> text[k - 1] != ' '
  }

  lemma {:induction false} TypedFrom(u: Tables, text: string, i: nat, last: Last)
    requires KnowsMarks(u) && IsWhole(u, text) && IsTyped(u, text) && i <= |text|
    requires last == if i == 0 then Nothing else Char(text[i - 1])
    ensures Chars(NormalizeFrom(u, text, i, last)) == text[i..]
    decreases |text| - i
  {
    if i < |text| {
      hide *;
      TypedStep(u, text, i, last);
      NextCharacters(u, text, i, last);
      TypedFrom(u, text, i + 1, Char(text[i]));
      assert text[i..] == [text[i]] + text[i + 1..];
    }
  }

  lemma TypedStep(u: Tables, text: string, i: nat, last: Last)
    requires KnowsMarks(u) && IsWhole(u, text) && IsTyped(u, text) && i < |text|
    requires last == if i == 0 then Nothing else Char(text[i - 1])
    ensures Emit(u, text, i, last) == [text[i]] && Next(u, text, i, last) == i + 1
    ensures LastOf(last, [text[i]]) == Char(text[i])
  {
    hide Emit, Next, MapChar;
    ImageOf(u, text[i]);
    OnlyCharacters(u, text, i, last);
    assert IsPlain(u, text[i]) ==> text[i] != ' ';
  }

  /** NOT FORGIVEN. A typed text is compared as it stands, character by character. */
  lemma WordingIsKept(u: Tables, text: string)
    requires KnowsMarks(u) && IsWhole(u, text) && IsTyped(u, text)
    ensures Chars(Normalize(u, text)) == text
    ensures text == "" || text[|text| - 1] != ' ' ==> NormalizedText(u, text) == text
  {
    TypedFrom(u, text, 0, Nothing);
    assert text[0..] == text;
    hide Chars, NormalizeFrom;
    if text != "" && text[|text| - 1] != ' ' {
      assert IsPlain(u, text[0]) && IsPlain(u, text[|text| - 1]);
      assert StripLeft(u, text) == text && StripRight(u, text) == text;
    }
  }

  // ------------------------------------------------------------------ broken words

  /** From the same rest of a text the same is written. */
  lemma {:induction false} SameRest(u: Tables, a: string, i: nat, b: string, j: nat, last: Last)
    requires i <= |a| && j <= |b| && a[i..] == b[j..]
    ensures Chars(NormalizeFrom(u, a, i, last)) == Chars(NormalizeFrom(u, b, j, last))
    decreases |a| - i
  {
    hide *;
    assert |a| - i == |b| - j;
    if i == |a| {
      NothingLeft(u, a, last);
      NothingLeft(u, b, last);
    } else {
      SameRestStep(u, a, i, b, j, last);
      var next := Next(u, a, i, last);
      NextCharacters(u, a, i, last);
      NextCharacters(u, b, j, last);
      RestOfRest(a, i, b, j, next);
      SameRest(u, a, next, b, j + next - i, LastOf(last, Emit(u, a, i, last)));
    }
  }

  lemma RestOfRest(a: string, i: nat, b: string, j: nat, next: nat)
    requires i <= next <= |a| && j <= |b| && a[i..] == b[j..]
    ensures j + next - i <= |b| && a[next..] == b[j + next - i..]
  {
    assert |a| - i == |b| - j;
    assert a[next..] == a[i..][next - i..] && b[j + next - i..] == b[j..][next - i..];
  }

  lemma SameRestStep(u: Tables, a: string, i: nat, b: string, j: nat, last: Last)
    requires i < |a| && j < |b| && a[i..] == b[j..]
    ensures Emit(u, a, i, last) == Emit(u, b, j, last)
    ensures Next(u, a, i, last) - i == Next(u, b, j, last) - j
  {
    hide MapChar, SkipSpaces, BreaksLine;
    assert a[i] == a[i..][0] == b[j..][0] == b[j];
    assert a[i + 1..] == a[i..][1..] && b[j + 1..] == b[j..][1..];
    SameSpaces(u, a, i + 1, b, j + 1);
    var k := SkipSpaces(u, a, i + 1);
    if k < |a| { assert a[k] == a[i..][k - i] == b[j..][k - i] == b[k - i + j]; }
  }

  lemma {:induction false} SameSpaces(u: Tables, a: string, i: nat, b: string, j: nat)
    requires i <= |a| && j <= |b| && a[i..] == b[j..]
    ensures SkipSpaces(u, a, i) - i == SkipSpaces(u, b, j) - j
    ensures BreaksLine(u, a, i) == BreaksLine(u, b, j)
    decreases |a| - i
  {
    if i < |a| {
      assert a[i] == a[i..][0] == b[j..][0] == b[j];
      assert a[i + 1..] == a[i..][1..] && b[j + 1..] == b[j..][1..];
      if a[i] in u.space { SameSpaces(u, a, i + 1, b, j + 1); }
    }
  }

  /** A piece of text that ends with a letter and breaks no word. */
  predicate EndsWithLetter(u: Tables, a: string) {
    && IsWhole(u, a) && |a| > 0 && a[|a| - 1] in u.alpha && IsPlain(u, a[|a| - 1]) && a[|a| - 1] != '-'
  }

  /** It writes the same whatever follows. */
  lemma {:induction false} HeadFrom(u: Tables, a: string, x: string, y: string, i: nat, last: Last)
    returns (head: string)
    requires KnowsMarks(u) && EndsWithLetter(u, a) && i < |a|
    ensures Chars(NormalizeFrom(u, a + x, i, last)) == head + Chars(NormalizeFrom(u, a + x, |a|, Char(a[|a| - 1])))
    ensures Chars(NormalizeFrom(u, a + y, i, last)) == head + Chars(NormalizeFrom(u, a + y, |a|, Char(a[|a| - 1])))
    decreases |a| - i
  {
    hide MapChar, Chars, NormalizeFrom;
    HeadStep(u, a, x, i, last);
    HeadStep(u, a, y, i, last);
    NextCharacters(u, a + x, i, last);
    NextCharacters(u, a + y, i, last);
    var e := Emit(u, a + x, i, last);
    if i + 1 == |a| {
      ImageOf(u, a[i]);
      head := e;
    } else {
      var rest := HeadFrom(u, a, x, y, i + 1, LastOf(last, e));
      head := e + rest;
    }
  }

  lemma HeadStep(u: Tables, a: string, x: string, i: nat, last: Last)
    requires KnowsMarks(u) && EndsWithLetter(u, a) && i < |a|
    ensures Next(u, a + x, i, last) == i + 1
    ensures Emit(u, a + x, i, last) ==
            if a[i] == SOFT_HYPHEN then ""
            else if IsBlank(MapChar(u, a[i])) then (if last.Char? && last.c != ' ' then " " else "")
            else MapChar(u, a[i])
  {
    assert (a + x)[i] == a[i];
    assert a[i] == '-' ==> i + 1 < |a| && (a + x)[i + 1] == a[i + 1];
  }

  /** BROKEN WORDS. A word that a hyphen and a line break cut in two compares as the word in one piece. */
  lemma BrokenWordsAgree(u: Tables, a: string, gap: string, b: string)
    requires KnowsMarks(u) && EndsWithLetter(u, a)
    requires '\n' in gap && forall k :: 0 <= k < |gap| ==> gap[k] in u.space
    requires |b| > 0 && b[0] in u.alpha && b[0] in u.lower && b[0] !in u.space
    ensures Chars(Normalize(u, a + "-" + gap + b)) == Chars(Normalize(u, a + b))
  {
    hide MapChar, Chars, NormalizeFrom;
    var x := "-" + gap + b;
    var last := Char(a[|a| - 1]);
    assert a + "-" + gap + b == a + x;
    var head := HeadFrom(u, a, x, b, 0, Nothing);
    BreakJoins(u, a, gap, b);
    NextCharacters(u, a + x, |a|, last);
    assert (a + x)[|a| + 1 + |gap|..] == b == (a + b)[|a|..];
    SameRest(u, a + x, |a| + 1 + |gap|, a + b, |a|, last);
  }

  lemma BreakJoins(u: Tables, a: string, gap: string, b: string)
    requires |a| > 0 && a[|a| - 1] in u.alpha
    requires '\n' in gap && forall k :: 0 <= k < |gap| ==> gap[k] in u.space
    requires |b| > 0 && b[0] in u.alpha && b[0] in u.lower && b[0] !in u.space
    ensures var text, last := a + ("-" + gap + b), Char(a[|a| - 1]);
            Emit(u, text, |a|, last) == "" && Next(u, text, |a|, last) == |a| + 1 + |gap|
  {
    hide SkipSpaces, BreaksLine, MapChar;
    var text := a + ("-" + gap + b);
    BreakAt(a, gap, b);
    var n :| 0 <= n < |gap| && gap[n] == '\n';
    GapBreaks(u, text, |a| + 1, |a| + 1 + |gap|, |a| + 1 + n);
  }

  lemma BreakAt(a: string, gap: string, b: string)
    requires |b| > 0
    ensures var text := a + ("-" + gap + b);
            && text[|a|] == '-' && text[|a| + 1 + |gap|] == b[0]
            && forall k :: |a| + 1 <= k < |a| + 1 + |gap| ==> text[k] == gap[k - |a| - 1]
  {}

  lemma {:induction false} GapBreaks(u: Tables, text: string, i: nat, j: nat, n: nat)
    requires i <= j < |text| && text[j] !in u.space && forall k :: i <= k < j ==> text[k] in u.space
    ensures SkipSpaces(u, text, i) == j
    ensures i <= n < j && text[n] == '\n' ==> BreaksLine(u, text, i)
    decreases j - i
  {
    if i < j { GapBreaks(u, text, i + 1, j, n); }
  }
}
