/** The canonical form in which extracted text is stored. */
module Cleaning {
  import opened Unicode

  predicate IsDropped(c: char) { c == '\U{0000}' || c == '\U{FEFF}' }

  predicate IsLineBreak(c: char) { c == '\r' || c == '\U{2028}' || c == '\U{2029}' }

  predicate IsLineBlank(c: char) { c == ' ' || c == '\t' || c == '\U{000C}' || c == '\U{000B}' }

  /** CR LF, CR and the Unicode separators become LF; NUL and BOM disappear. */
  function Breaks(s: string): string
    decreases |s|
  {
    if |s| == 0 then ""
    else if |s| >= 2 && s[0] == '\r' && s[1] == '\n' then "\n" + Breaks(s[2..])
    else if IsDropped(s[0]) then Breaks(s[1..])
    else if IsLineBreak(s[0]) then "\n" + Breaks(s[1..])
    else [s[0]] + Breaks(s[1..])
  }

  /** The text starts with blanks that end in a line break. */
  predicate EndsLine(s: string) {
    |s| >= 2 && IsLineBlank(s[0]) && (s[1] == '\n' || EndsLine(s[1..]))
  }

  /** Blanks before a line break disappear. */
  function TrimLines(s: string): string {
    if |s| == 0 then ""
    else if EndsLine(s) then TrimLines(s[1..])
    else [s[0]] + TrimLines(s[1..])
  }

  predicate ThreeBreaks(s: string) {
    |s| >= 3 && s[0] == '\n' && s[1] == '\n' && s[2] == '\n'
  }

  /** Three or more line breaks become two. */
  function Squeeze(s: string): string {
    if |s| == 0 then ""
    else if ThreeBreaks(s) then Squeeze(s[1..])
    else [s[0]] + Squeeze(s[1..])
  }

  /** `clean_text`. */
  function CleanText(u: Tables, raw: string): string {
    Strip(u, Squeeze(TrimLines(Breaks(raw))))
  }

  // ------------------------------------------------------------------ the canonical form

  ghost predicate NoBad(s: string) {
    forall k :: 0 <= k < |s| ==> !IsDropped(s[k]) && !IsLineBreak(s[k])
  }

  ghost predicate NoTrailingBlanks(s: string) {
    forall k :: 0 <= k < |s| - 1 && IsLineBlank(s[k]) ==> s[k + 1] != '\n'
  }

  ghost predicate NoTripleBreak(s: string) {
    forall k :: 0 <= k < |s| - 2 && s[k] == '\n' && s[k + 1] == '\n' ==> s[k + 2] != '\n'
  }

  ghost predicate NoEdgeSpace(u: Tables, s: string) {
    |s| > 0 ==> s[0] !in u.space && s[|s| - 1] !in u.space
  }

  /** No stray characters, no blanks at line ends, no double blank lines, no whitespace at the ends. */
  ghost predicate Canonical(u: Tables, s: string) {
    NoBad(s) && NoTrailingBlanks(s) && NoTripleBreak(s) && NoEdgeSpace(u, s)
  }

  lemma {:induction false} BreaksRemoves(s: string)
    ensures NoBad(Breaks(s))
    decreases |s|
  {
    if |s| >= 2 && s[0] == '\r' && s[1] == '\n' {
      BreaksRemoves(s[2..]);
    } else if |s| > 0 {
      BreaksRemoves(s[1..]);
    }
  }

  lemma {:induction false} TrimLinesTrims(s: string)
    requires NoBad(s)
    ensures NoBad(TrimLines(s)) && NoTrailingBlanks(TrimLines(s))
    ensures |s| > 0 && !EndsLine(s) ==> |TrimLines(s)| > 0 && TrimLines(s)[0] == s[0]
    ensures |TrimLines(s)| > 0 && TrimLines(s)[0] == '\n' && |s| > 0 ==> s[0] == '\n' || EndsLine(s)
    ensures |s| > 0 && !EndsLine(s) && IsLineBlank(s[0]) && |TrimLines(s)| > 1 ==> TrimLines(s)[1] != '\n'
  {
    if |s| > 0 {
      TrimLinesTrims(s[1..]);
    }
  }

  lemma {:induction false} SqueezeSqueezes(s: string)
    requires NoBad(s) && NoTrailingBlanks(s)
    ensures NoBad(Squeeze(s)) && NoTrailingBlanks(Squeeze(s)) && NoTripleBreak(Squeeze(s))
    ensures |s| > 0 ==> |Squeeze(s)| > 0 && Squeeze(s)[0] == s[0]
    ensures |s| > 0 && !ThreeBreaks(s) && |Squeeze(s)| > 1 ==> |s| > 1 && Squeeze(s)[1] == s[1]
    ensures |s| > 0 && !ThreeBreaks(s) && s[0] == '\n' && |Squeeze(s)| > 2 && s[1] == '\n' ==> Squeeze(s)[2] != '\n'
  {
    if |s| > 0 {
      assert NoTrailingBlanks(s[1..]) by {
        forall k | 0 <= k < |s[1..]| - 1 && IsLineBlank(s[1..][k]) ensures s[1..][k + 1] != '\n' {
          assert IsLineBlank(s[k + 1]);
        }
      }
      SqueezeSqueezes(s[1..]);
    }
  }

  /** Cutting a window out keeps the form of the inside. */
  lemma StripKeepsForm(u: Tables, s: string)
    requires NoBad(s) && NoTrailingBlanks(s) && NoTripleBreak(s)
    ensures Canonical(u, Strip(u, s))
  {
    var l, r := StripIsWindow(u, s);
    hide Strip;
    assert forall k :: 0 <= k < r - l ==> s[l..r][k] == s[l + k];
  }

  /** CANONICAL. Cleaning always gives canonical text, ... */
  lemma CleanIsCanonical(u: Tables, raw: string)
    ensures Canonical(u, CleanText(u, raw))
  {
    hide Breaks, TrimLines, Squeeze, Strip, NoBad, NoTrailingBlanks, NoTripleBreak;
    BreaksRemoves(raw);
    TrimLinesTrims(Breaks(raw));
    SqueezeSqueezes(TrimLines(Breaks(raw)));
    StripKeepsForm(u, Squeeze(TrimLines(Breaks(raw))));
  }

  lemma {:induction false} BreaksKeeps(s: string)
    requires NoBad(s)
    ensures Breaks(s) == s
  {
    if |s| > 0 {
      BreaksKeeps(s[1..]);
      assert s == [s[0]] + s[1..];
    }
  }

  lemma {:induction false} NoLineEnds(s: string)
    requires NoTrailingBlanks(s)
    ensures !EndsLine(s)
  {
    if |s| > 0 {
      assert NoTrailingBlanks(s[1..]) by {
        forall k | 0 <= k < |s[1..]| - 1 && IsLineBlank(s[1..][k]) ensures s[1..][k + 1] != '\n' {
          assert IsLineBlank(s[k + 1]);
        }
      }
      NoLineEnds(s[1..]);
    }
  }

  lemma {:induction false} TrimLinesKeeps(s: string)
    requires NoTrailingBlanks(s)
    ensures TrimLines(s) == s
  {
    if |s| > 0 {
      NoLineEnds(s);
      assert NoTrailingBlanks(s[1..]) by {
        forall k | 0 <= k < |s[1..]| - 1 && IsLineBlank(s[1..][k]) ensures s[1..][k + 1] != '\n' {
          assert IsLineBlank(s[k + 1]);
        }
      }
      TrimLinesKeeps(s[1..]);
      assert s == [s[0]] + s[1..];
    }
  }

  lemma {:induction false} SqueezeKeeps(s: string)
    requires NoTripleBreak(s)
    ensures Squeeze(s) == s
  {
    if |s| > 0 {
      var t := s[1..];
      forall k | 0 <= k < |t| - 2 && t[k] == '\n' && t[k + 1] == '\n' ensures t[k + 2] != '\n' {
        assert s[k + 1] == '\n' && s[k + 2] == '\n' && s[k + 3] == t[k + 2];
      }
      assert !ThreeBreaks(s) by { if |s| >= 3 { assert s[0 + 2] == s[2]; } }
      SqueezeKeeps(t);
      assert s == [s[0]] + s[1..];
    }
  }

  /** ... and canonical text is left alone: cleaning twice is cleaning once. */
  lemma CanonicalIsClean(u: Tables, s: string)
    requires Canonical(u, s)
    ensures CleanText(u, s) == s
  {
    BreaksKeeps(s);
    TrimLinesKeeps(s);
    SqueezeKeeps(s);
    assert StripLeft(u, s) == s && StripRight(u, s) == s;
  }

  lemma CleaningIsIdempotent(u: Tables, raw: string)
    ensures CleanText(u, CleanText(u, raw)) == CleanText(u, raw)
  {
    CleanIsCanonical(u, raw);
    CanonicalIsClean(u, CleanText(u, raw));
  }

  // ------------------------------------------------------------------ what cleaning does to line breaks

  predicate IsBreak(br: string) {
    br == "\r\n" || br == "\r" || br == "\n" || br == "\U{2028}" || br == "\U{2029}"
  }

  predicate EndsWith(s: string, c: char) { |s| > 0 && s[|s| - 1] == c }

  predicate StartsWith(s: string, c: char) { |s| > 0 && s[0] == c }

  /** How many characters the first step reads, and what it writes. */
  function StepWidth(s: string): nat
    requires |s| > 0
  {
    if |s| >= 2 && s[0] == '\r' && s[1] == '\n' then 2 else 1
  }

  function StepOutput(s: string): string
    requires |s| > 0
  {
    if IsDropped(s[0]) then "" else if IsLineBreak(s[0]) then "\n" else [s[0]]
  }

  lemma FirstStep(s: string)
    requires |s| > 0
    ensures StepWidth(s) <= |s| && Breaks(s) == StepOutput(s) + Breaks(s[StepWidth(s)..])
  {}

  lemma SameStep(x: string, y: string)
    requires |x| > 0 && !(EndsWith(x, '\r') && StartsWith(y, '\n'))
    ensures StepWidth(x) <= |x| && StepWidth(x + y) == StepWidth(x) && StepOutput(x + y) == StepOutput(x)
    ensures (x + y)[StepWidth(x)..] == x[StepWidth(x)..] + y
  {
    assert forall k :: 0 <= k < |x| ==> (x + y)[k] == x[k];
    assert |y| > 0 ==> (x + y)[|x|] == y[0];
  }

  lemma NothingToRead(x: string)
    requires |x| == 0
    ensures Breaks(x) == ""
  {}

  lemma StepIsRead(x: string)
    requires |x| > 0
    ensures 0 < StepWidth(x) <= |x|
    ensures EndsWith(x[StepWidth(x)..], '\r') ==> EndsWith(x, '\r')
  {}

  lemma {:induction false} BreaksConcat(x: string, y: string)
    requires !(EndsWith(x, '\r') && StartsWith(y, '\n'))
    ensures Breaks(x + y) == Breaks(x) + Breaks(y)
    decreases |x|
  {
    hide *;
    if |x| == 0 {
      assert x + y == y;
      NothingToRead(x);
    } else {
      var w := StepWidth(x);
      StepIsRead(x);
      FirstStep(x);
      FirstStep(x + y);
      SameStep(x, y);
      BreaksConcat(x[w..], y);
      assert (StepOutput(x) + Breaks(x[w..])) + Breaks(y) == StepOutput(x) + (Breaks(x[w..]) + Breaks(y));
    }
  }

  /** EVERY BREAK IS ONE. A line break of any style becomes one line feed, and the text around it is cleaned apart. */
  lemma EachBreakIsOne(x: string, br: string, y: string)
    requires IsBreak(br) && (br == "\r" ==> !StartsWith(y, '\n')) && (br == "\n" ==> !EndsWith(x, '\r'))
    ensures Breaks(x + br + y) == Breaks(x) + "\n" + Breaks(y)
  {
    BreaksConcat(x + br, y);
    BreaksConcat(x, br);
    OneBreak(br);
  }

  lemma OneBreak(br: string)
    requires IsBreak(br)
    ensures Breaks(br) == "\n"
  {
    assert Breaks("") == "";
    if br == "\r\n" { assert br[2..] == ""; } else { assert br[1..] == ""; }
  }

  predicate AreBlanks(s: string) { forall k :: 0 <= k < |s| ==> IsLineBlank(s[k]) }

  lemma {:induction false} BlanksEndLine(blanks: string, y: string)
    requires AreBlanks(blanks)
    ensures TrimLines(blanks + "\n" + y) == "\n" + TrimLines(y)
  {
    var s := blanks + "\n" + y;
    if |blanks| == 0 {
      assert s[0] == '\n' && s[1..] == y;
    } else {
      assert s[1..] == blanks[1..] + "\n" + y;
      BlanksAreEnded(blanks, y);
      BlanksEndLine(blanks[1..], y);
    }
  }

  lemma {:induction false} BlanksAreEnded(blanks: string, y: string)
    requires AreBlanks(blanks) && |blanks| > 0
    ensures EndsLine(blanks + "\n" + y)
  {
    var s := blanks + "\n" + y;
    assert s[1..] == blanks[1..] + "\n" + y;
    if |blanks| > 1 { BlanksAreEnded(blanks[1..], y); }
  }

  /** BLANKS GO. The blanks before a line break disappear, and the lines around it are trimmed apart. */
  lemma {:induction false} LinesAreTrimmed(x: string, blanks: string, y: string)
    requires AreBlanks(blanks) && (|x| > 0 ==> !IsLineBlank(x[|x| - 1]))
    ensures TrimLines(x + blanks + "\n" + y) == TrimLines(x) + "\n" + TrimLines(y)
  {
    var s := x + blanks + "\n" + y;
    if |x| == 0 {
      assert s == blanks + "\n" + y;
      BlanksEndLine(blanks, y);
    } else {
      assert s[0] == x[0] && s[1..] == x[1..] + blanks + "\n" + y;
      EndsInside(x, blanks + "\n" + y);
      assert s == x + (blanks + "\n" + y);
      LinesAreTrimmed(x[1..], blanks, y);
    }
  }

  /** Whether blanks end a line is decided before the first character that is no blank. */
  lemma {:induction false} EndsInside(x: string, y: string)
    requires |x| > 0 && !IsLineBlank(x[|x| - 1])
    ensures EndsLine(x + y) <==> EndsLine(x)
  {
    assert (x + y)[0] == x[0] && (x + y)[1..] == x[1..] + y;
    if |x| > 1 {
      assert (x + y)[1] == x[1];
      EndsInside(x[1..], y);
    }
  }

  function LineFeeds(n: nat): (s: string)
    ensures |s| == n && forall k :: 0 <= k < n ==> s[k] == '\n'
  {
    seq(n, _ => '\n')
  }

  lemma SqueezeStep(s: string)
    requires |s| > 0
    ensures Squeeze(s) == (if ThreeBreaks(s) then "" else [s[0]]) + Squeeze(s[1..])
  {}

  lemma FeedsStep(n: nat, y: string)
    requires n >= 1 && !StartsWith(y, '\n')
    ensures var s := LineFeeds(n) + y;
            s[0] == '\n' && s[1..] == LineFeeds(n - 1) + y && (ThreeBreaks(s) <==> n >= 3)
  {}

  lemma {:induction false} SqueezeFeeds(n: nat, y: string)
    requires !StartsWith(y, '\n')
    ensures Squeeze(LineFeeds(n) + y) == LineFeeds(if n <= 2 then n else 2) + Squeeze(y)
  {
    hide Squeeze, ThreeBreaks, StartsWith, LineFeeds;
    if n == 0 {
      NoFeeds(y);
      NoFeeds(Squeeze(y));
    } else {
      FeedsStep(n, y);
      SqueezeStep(LineFeeds(n) + y);
      SqueezeFeeds(n - 1, y);
      if n <= 2 {
        OneMoreFeed(n - 1, Squeeze(y));
      } else {
        assert "" + (LineFeeds(2) + Squeeze(y)) == LineFeeds(2) + Squeeze(y);
      }
    }
  }

  /** AT MOST ONE EMPTY LINE. A run of line feeds is kept up to two, and the text around it is squeezed apart. */
  lemma {:induction false} FeedsAreSqueezed(x: string, n: nat, y: string)
    requires n >= 1 && !EndsWith(x, '\n') && !StartsWith(y, '\n')
    ensures Squeeze(x + LineFeeds(n) + y) == Squeeze(x) + LineFeeds(if n <= 2 then n else 2) + Squeeze(y)
  {
    hide Squeeze, ThreeBreaks, StartsWith, LineFeeds;
    var s := x + LineFeeds(n) + y;
    if |x| == 0 {
      assert s == LineFeeds(n) + y;
      SqueezeFeeds(n, y);
      NothingToSqueeze(x);
    } else {
      assert s[0] == x[0] && s[1..] == x[1..] + LineFeeds(n) + y;
      FeedsAreSqueezed(x[1..], n, y);
      ThreeInside(x, LineFeeds(n) + y);
      assert s == x + (LineFeeds(n) + y);
      SqueezeStep(x);
      SqueezeStep(s);
    }
  }

  lemma NothingToSqueeze(x: string)
    requires |x| == 0
    ensures Squeeze(x) == ""
  {}

  lemma ThreeInside(x: string, y: string)
    requires |x| > 0 && !EndsWith(x, '\n')
    ensures ThreeBreaks(x + y) <==> ThreeBreaks(x)
  {
    assert forall k :: 0 <= k < |x| ==> (x + y)[k] == x[k];
  }

  // ------------------------------------------------------------------ two paragraphs

  /** A line of blanks with the break that ends it. */
  datatype BlankLine = BlankLine(blanks: string, br: string)

  predicate IsGap(lines: seq<BlankLine>) {
    && (forall k :: 0 <= k < |lines| ==> AreBlanks(lines[k].blanks) && IsBreak(lines[k].br))
    && forall k :: 0 < k < |lines| ==> !(lines[k - 1].br == "\r" && lines[k] == BlankLine("", "\n"))
  }

  function GapText(lines: seq<BlankLine>): string {
    if |lines| == 0 then "" else lines[0].blanks + lines[0].br + GapText(lines[1..])
  }

  /** A blank line is one line feed after the first two steps. */
  lemma OneBlankLine(line: BlankLine, rest: string)
    requires AreBlanks(line.blanks) && IsBreak(line.br) && (line.br == "\r" ==> !StartsWith(rest, '\n'))
    ensures TrimLines(Breaks(line.blanks + line.br + rest)) == "\n" + TrimLines(Breaks(rest))
  {
    hide Breaks, TrimLines, IsBreak;
    assert !EndsWith(line.blanks, '\r');
    EachBreakIsOne(line.blanks, line.br, rest);
    BreaksKeeps(line.blanks);
    BlanksEndLine(line.blanks, Breaks(rest));
  }

  lemma GapStarts(lines: seq<BlankLine>, q: string)
    requires IsGap(lines) && |lines| > 0
    ensures StartsWith(GapText(lines) + q, '\n') ==> lines[0] == BlankLine("", "\n")
  {
    var line := lines[0];
    var s := GapText(lines) + q;
    assert |line.br| > 0;
    assert s[0] == (if |line.blanks| > 0 then line.blanks[0] else line.br[0]);
    assert !IsLineBlank('\n');
  }

  lemma RestOfGap(lines: seq<BlankLine>)
    requires IsGap(lines) && |lines| > 0
    ensures IsGap(lines[1..])
  {}

  lemma NoFeeds(q: string)
    ensures LineFeeds(0) + q == q
  {}

  lemma OneMoreFeed(n: nat, q: string)
    ensures "\n" + (LineFeeds(n) + q) == LineFeeds(n + 1) + q
  {}

  /** After the first two steps a gap is its line breaks. */
  lemma {:induction false} GapIsFeeds(lines: seq<BlankLine>, q: string)
    requires IsGap(lines) && NoBad(q) && NoTrailingBlanks(q) && !StartsWith(q, '\n')
    ensures TrimLines(Breaks(GapText(lines) + q)) == LineFeeds(|lines|) + q
  {
    hide Breaks, TrimLines, NoBad, NoTrailingBlanks, StartsWith, LineFeeds, IsBreak, AreBlanks;
    if |lines| == 0 {
      BreaksKeeps(q);
      TrimLinesKeeps(q);
      NoFeeds(q);
      assert GapText(lines) + q == q;
    } else {
      var rest := GapText(lines[1..]) + q;
      assert GapText(lines) + q == lines[0].blanks + lines[0].br + rest;
      RestOfGap(lines);
      GapIsFeeds(lines[1..], q);
      if |lines| > 1 { GapStarts(lines[1..], q); } else { assert rest == q; }
      OneBlankLine(lines[0], rest);
      OneMoreFeed(|lines| - 1, q);
    }
  }

  /** The first three steps over a gap between two paragraphs. */
  lemma GapIsSqueezed(u: Tables, p: string, lines: seq<BlankLine>, q: string)
    requires Canonical(u, p) && Canonical(u, q) && p != "" && q != "" && '\n' in u.space && IsGap(lines) && |lines| > 0
    requires forall c :: IsLineBlank(c) ==> c in u.space
    ensures Squeeze(TrimLines(Breaks(p + GapText(lines) + q))) == p + LineFeeds(if |lines| == 1 then 1 else 2) + q
  {
    hide Breaks, TrimLines, Squeeze, NoBad, NoTrailingBlanks, NoTripleBreak, LineFeeds, GapText, IsGap;
    var rest := GapText(lines) + q;
    assert p + GapText(lines) + q == p + rest;
    GapIsFeeds(lines, q);
    NoReturn(p);
    BreaksConcat(p, rest);
    BreaksKeeps(p);
    TrimParagraph(p, Breaks(rest));
    TrimLinesKeeps(p);
    assert p + (LineFeeds(|lines|) + q) == p + LineFeeds(|lines|) + q;
    FeedsAreSqueezed(p, |lines|, q);
    SqueezeKeeps(p);
    SqueezeKeeps(q);
  }

  lemma NoReturn(p: string)
    requires NoBad(p)
    ensures !EndsWith(p, '\r')
  {
    assert IsLineBreak('\r');
  }

  lemma VisibleEdges(u: Tables, s: string)
    requires s != "" && s[0] !in u.space && s[|s| - 1] !in u.space
    ensures Strip(u, s) == s
  {
    assert StripLeft(u, s) == s && StripRight(u, s) == s;
  }

  /** TWO PARAGRAPHS. Whatever lines stand between two pieces of clean text, with breaks of any style, they become one
      line break or one empty line, and the pieces stay as they are. */
  lemma ParagraphsStay(u: Tables, p: string, lines: seq<BlankLine>, q: string)
    requires Canonical(u, p) && Canonical(u, q) && p != "" && q != "" && '\n' in u.space && IsGap(lines) && |lines| > 0
    requires forall c :: IsLineBlank(c) ==> c in u.space
    ensures CleanText(u, p + GapText(lines) + q) == p + LineFeeds(if |lines| == 1 then 1 else 2) + q
  {
    hide Breaks, TrimLines, Squeeze, NoBad, NoTrailingBlanks, NoTripleBreak, IsGap, Strip;
    GapIsSqueezed(u, p, lines, q);
    VisibleEdges(u, p + LineFeeds(if |lines| == 1 then 1 else 2) + q);
  }

  lemma TrimStep(s: string)
    requires |s| > 0
    ensures TrimLines(s) == (if EndsLine(s) then "" else [s[0]]) + TrimLines(s[1..])
  {}

  lemma NothingToTrim(s: string)
    requires |s| == 0
    ensures TrimLines(s) == ""
  {}

  /** A text that ends with a visible character is trimmed apart from what follows. */
  lemma {:induction false} TrimParagraph(p: string, y: string)
    requires |p| > 0 ==> !IsLineBlank(p[|p| - 1])
    ensures TrimLines(p + y) == TrimLines(p) + TrimLines(y)
  {
    hide TrimLines, EndsLine, IsLineBlank;
    if |p| == 0 {
      assert p + y == y;
      NothingToTrim(p);
    } else {
      assert (p + y)[0] == p[0] && (p + y)[1..] == p[1..] + y;
      EndsInside(p, y);
      TrimParagraph(p[1..], y);
      TrimStep(p);
      TrimStep(p + y);
    }
  }
}
