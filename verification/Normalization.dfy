/** Normalization for matching, with the source index of every output character. */
module Normalization {
  import opened Unicode

  /** One output character and the position of the source character it comes from. */
  datatype Mark = Mark(c: char, src: int)

  function Chars(m: seq<Mark>): (s: string)
    ensures |s| == |m|
    ensures forall k :: 0 <= k < |m| ==> s[k] == m[k].c
  {
    if |m| == 0 then "" else [m[0].c] + Chars(m[1..])
  }

  function Sources(m: seq<Mark>): (s: seq<int>)
    ensures |s| == |m|
    ensures forall k :: 0 <= k < |m| ==> s[k] == m[k].src
  {
    if |m| == 0 then [] else [m[0].src] + Sources(m[1..])
  }

  /** Every character of `e` comes from position `i`. */
  function FromOne(e: string, i: int): (m: seq<Mark>)
    ensures |m| == |e|
  {
    if |e| == 0 then [] else [Mark(e[0], i)] + FromOne(e[1..], i)
  }

  /** The same output, with every source position moved by `a`. */
  function Shift(m: seq<Mark>, a: int): (r: seq<Mark>)
    ensures |r| == |m|
  {
    if |m| == 0 then [] else [Mark(m[0].c, m[0].src + a)] + Shift(m[1..], a)
  }

  ghost predicate Within(m: seq<Mark>, lo: int, hi: int) {
    forall k :: 0 <= k < |m| ==> lo <= m[k].src < hi
  }

  ghost predicate Monotone(m: seq<Mark>) {
    forall j, k :: 0 <= j <= k < |m| ==> m[j].src <= m[k].src
  }

  ghost predicate Writes(m: seq<Mark>, a: int) {
    exists k :: 0 <= k < |m| && m[k].src == a
  }

  lemma {:induction false} FromOneAt(e: string, i: int)
    ensures forall k :: 0 <= k < |e| ==> FromOne(e, i)[k] == Mark(e[k], i)
  {
    if |e| > 0 { FromOneAt(e[1..], i); }
  }

  function Repeat(i: int, n: nat): (r: seq<int>)
    ensures |r| == n && forall k :: 0 <= k < n ==> r[k] == i
  {
    seq(n, _ => i)
  }

  lemma MarksAppend(m: seq<Mark>, e: string, i: int)
    ensures Chars(m + FromOne(e, i)) == Chars(m) + e
    ensures Sources(m + FromOne(e, i)) == Sources(m) + Repeat(i, |e|)
  {
    hide *;
    FromOneAt(e, i);
  }

  lemma {:induction false} ShiftAt(m: seq<Mark>, a: int)
    ensures forall k :: 0 <= k < |m| ==> Shift(m, a)[k] == Mark(m[k].c, m[k].src + a)
  {
    if |m| > 0 { ShiftAt(m[1..], a); }
  }

  lemma {:induction false} ShiftFromOne(e: string, i: int, a: int)
    ensures Shift(FromOne(e, i), a) == FromOne(e, i + a)
  {
    if |e| > 0 {
      ShiftFromOne(e[1..], i, a);
      assert FromOne(e, i)[1..] == FromOne(e[1..], i);
    }
  }

  lemma {:induction false} ShiftAppend(x: seq<Mark>, y: seq<Mark>, a: int)
    ensures Shift(x + y, a) == Shift(x, a) + Shift(y, a)
  {
    if |x| == 0 {
      assert x + y == y;
    } else {
      assert (x + y)[0] == x[0] && (x + y)[1..] == x[1..] + y;
      ShiftAppend(x[1..], y, a);
    }
  }

  datatype Last = Nothing | Char(c: char)

  function LastOf(before: Last, s: string): Last {
    if |s| == 0 then before else Char(s[|s| - 1])
  }

  /** The first position at or after `j` that holds no whitespace. */
  function SkipSpaces(u: Tables, text: string, j: nat): (k: nat)
    requires j <= |text|
    ensures j <= k <= |text|
    decreases |text| - j
  {
    if j < |text| && text[j] in u.space then SkipSpaces(u, text, j + 1) else j
  }

  /** Is there a line break in the whitespace that starts at `j`? */
  predicate BreaksLine(u: Tables, text: string, j: nat)
    requires j <= |text|
    decreases |text| - j
  {
    j < |text| && text[j] in u.space && (text[j] == '\n' || BreaksLine(u, text, j + 1))
  }

  /** A hyphen at `i` after a letter, then a line break, then a lower-case letter: one word. */
  predicate Joins(u: Tables, text: string, i: nat, last: Last)
    requires i < |text|
  {
    && text[i] == '-' && last.Char? && last.c in u.alpha
    && var j := SkipSpaces(u, text, i + 1);
       && BreaksLine(u, text, i + 1)
       && j < |text| && text[j] in u.alpha && text[j] in u.lower
  }

  predicate IsBlank(s: string) { |s| == 1 && s[0] == ' ' }

  /** What position `i` appends, given the last character already written. */
  function Emit(u: Tables, text: string, i: nat, last: Last): string
    requires i < |text|
  {
    if text[i] == SOFT_HYPHEN || Joins(u, text, i, last) then ""
    else if IsBlank(MapChar(u, text[i])) then (if last.Char? && last.c != ' ' then " " else "")
    else MapChar(u, text[i])
  }

  function Next(u: Tables, text: string, i: nat, last: Last): (next: nat)
    requires i < |text|
    ensures i < next <= |text|
  {
    if text[i] != SOFT_HYPHEN && Joins(u, text, i, last) then SkipSpaces(u, text, i + 1) else i + 1
  }

  /** The output of the positions from `i` on. */
  function NormalizeFrom(u: Tables, text: string, i: nat, last: Last): seq<Mark>
    requires i <= |text|
    decreases |text| - i
  {
    if i == |text| then []
    else
      var e := Emit(u, text, i, last);
      FromOne(e, i) + NormalizeFrom(u, text, Next(u, text, i, last), LastOf(last, e))
  }

  function Normalize(u: Tables, text: string): seq<Mark> {
    NormalizeFrom(u, text, 0, Nothing)
  }

  function NormalizedText(u: Tables, text: string): string {
    Strip(u, Chars(Normalize(u, text)))
  }

  /** The index map stays in the text and never goes back. */
  lemma {:induction false} IndexInRange(u: Tables, text: string, i: nat, last: Last)
    requires i <= |text|
    ensures Within(NormalizeFrom(u, text, i, last), i, |text|)
    ensures Monotone(NormalizeFrom(u, text, i, last))
    decreases |text| - i
  {
    if i < |text| {
      var e := Emit(u, text, i, last);
      var next := Next(u, text, i, last);
      FromOneAt(e, i);
      IndexInRange(u, text, next, LastOf(last, e));
    }
  }

  lemma Unroll(u: Tables, text: string, i: nat, last: Last, e: string, next: nat)
    requires i < |text| && e == Emit(u, text, i, last) && next == Next(u, text, i, last)
    ensures NormalizeFrom(u, text, i, last) == FromOne(e, i) + NormalizeFrom(u, text, next, LastOf(last, e))
  {}

  /** What is written so far, completed by what the rest of the text writes, is `Normalize`. */
  ghost predicate Pending(u: Tables, text: string, i: nat, m: seq<Mark>) {
    && i <= |text|
    && Normalize(u, text) == m + NormalizeFrom(u, text, i, LastOf(Nothing, Chars(m)))
  }

  lemma PendingAtStart(u: Tables, text: string)
    ensures Pending(u, text, 0, []) && Chars([]) == "" && Sources([]) == []
  {}

  lemma PendingAtEnd(u: Tables, text: string, m: seq<Mark>)
    requires Pending(u, text, |text|, m)
    ensures m == Normalize(u, text)
  {}

  lemma Advance(u: Tables, text: string, i: nat, m: seq<Mark>) returns (more: seq<Mark>)
    requires i < |text| && Pending(u, text, i, m)
    ensures var last := LastOf(Nothing, Chars(m));
            && more == m + FromOne(Emit(u, text, i, last), i)
            && Pending(u, text, Next(u, text, i, last), more)
  {
    hide Emit, Next, NormalizeFrom, FromOne;
    var last := LastOf(Nothing, Chars(m));
    var e := Emit(u, text, i, last);
    var next := Next(u, text, i, last);
    more := m + FromOne(e, i);
    FromOneAt(e, i);
    Unroll(u, text, i, last, e, next);
    var later := NormalizeFrom(u, text, next, LastOf(last, e));
    assert m + (FromOne(e, i) + later) == more + later;
    assert LastOf(Nothing, Chars(more)) == LastOf(last, e);
  }

  /** The hyphen check with its look-ahead loop: does the word continue, and where. */
  method ContinuesWord(u: Tables, text: string, i: nat, out: string) returns (yes: bool, j: nat)
    requires i < |text|
    ensures yes == Joins(u, text, i, LastOf(Nothing, out))
    ensures yes ==> j == SkipSpaces(u, text, i + 1)
  {
    yes, j := false, i + 1;
    if text[i] == '-' && |out| > 0 && out[|out| - 1] in u.alpha {
      var sawNewline := false;
      while j < |text| && text[j] in u.space
        invariant i + 1 <= j <= |text|
        invariant BreaksLine(u, text, i + 1) == (sawNewline || BreaksLine(u, text, j))
        invariant SkipSpaces(u, text, i + 1) == SkipSpaces(u, text, j)
      {
        sawNewline := sawNewline || text[j] == '\n';
        j := j + 1;
      }
      yes := sawNewline && j < |text| && text[j] in u.alpha && text[j] in u.lower;
    }
  }

  /** The two-list loop of the program; it computes `Normalize`. */
  method NormalizeWithMap(u: Tables, text: string) returns (out: string, index: seq<int>)
    ensures out == Chars(Normalize(u, text)) && index == Sources(Normalize(u, text))
  {
    hide Pending, NormalizeFrom, MapChar, SkipSpaces, BreaksLine, Chars, Sources, FromOne;
    PendingAtStart(u, text);
    out, index := "", [];
    ghost var m: seq<Mark> := [];
    var i := 0;
    while i < |text|
      invariant i <= |text| && Pending(u, text, i, m) && out == Chars(m) && index == Sources(m)
    {
      ghost var e := Emit(u, text, i, LastOf(Nothing, out));
      ghost var before := m;
      m := Advance(u, text, i, before);
      MarksAppend(before, e, i);
      var c := text[i];
      if c == SOFT_HYPHEN {
        i := i + 1;
        continue;
      }
      var continues, j := ContinuesWord(u, text, i, out);
      if continues {
        i := j;
        continue;
      }
      var mapped := MapChar(u, c);
      if !IsBlank(mapped) {
        out, index := out + mapped, index + Repeat(i, |mapped|);
      } else if |out| > 0 && out[|out| - 1] != ' ' {
        out, index := out + " ", index + [i];
      }
      i := i + 1;
    }
    PendingAtEnd(u, text, m);
  }

  /** The run that writes something for position `a` passes through `a`. */
  lemma {:induction false} PassesThrough(u: Tables, text: string, i: nat, last: Last, a: nat)
    returns (earlier: seq<Mark>, before: Last)
    requires i <= |text| && Writes(NormalizeFrom(u, text, i, last), a)
    ensures a < |text| && Within(earlier, 0, a)
    ensures NormalizeFrom(u, text, i, last) == earlier + NormalizeFrom(u, text, a, before)
    decreases |text| - i
  {
    IndexInRange(u, text, i, last);
    if a == i {
      earlier, before := [], last;
    } else {
      hide Emit, Next, NormalizeFrom;
      var e := Emit(u, text, i, last);
      var next := Next(u, text, i, last);
      FromOneAt(e, i);
      Unroll(u, text, i, last, e, next);
      var rest := NormalizeFrom(u, text, next, LastOf(last, e));
      WritesLater(FromOne(e, i), rest, a);
      var p;
      p, before := PassesThrough(u, text, next, LastOf(last, e), a);
      earlier := FromOne(e, i) + p;
      assert FromOne(e, i) + (p + NormalizeFrom(u, text, a, before)) == earlier + NormalizeFrom(u, text, a, before);
    }
  }

  lemma WritesLater(x: seq<Mark>, y: seq<Mark>, a: int)
    requires Writes(x + y, a) && !Writes(x, a)
    ensures Writes(y, a)
  {
    var k :| 0 <= k < |x + y| && (x + y)[k].src == a;
    assert forall j :: 0 <= j < |x| ==> (x + y)[j] == x[j];
    assert y[k - |x|].src == a;
  }

  lemma {:induction false} SkipInSlice(u: Tables, text: string, a: nat, b: nat, j: nat)
    requires a <= j <= b <= |text|
    ensures var k := SkipSpaces(u, text, j);
            && SkipSpaces(u, text[a..b], j - a) == (if k <= b then k else b) - a
            && (k < b ==> BreaksLine(u, text[a..b], j - a) == BreaksLine(u, text, j))
    decreases b - j
  {
    if j < b && text[j] in u.space {
      SkipInSlice(u, text, a, b, j + 1);
    }
  }

  /** A hyphen joins inside the slice exactly when it joins in the whole text within the slice. */
  lemma JoinsInSlice(u: Tables, text: string, a: nat, b: nat, i: nat, last: Last)
    requires a <= i < b <= |text|
    ensures Joins(u, text[a..b], i - a, last)
        <==> Joins(u, text, i, last) && SkipSpaces(u, text, i + 1) < b
  {
    SkipInSlice(u, text, a, b, i + 1);
  }

  /** One step of the slice is the same step of the whole text. */
  lemma SliceStep(u: Tables, text: string, a: nat, b: nat, i: nat, last: Last)
    requires a <= i < b <= |text|
    requires Next(u, text, i, last) <= b
    requires Next(u, text, i, last) < b || |Emit(u, text, i, last)| > 0
    ensures Emit(u, text[a..b], i - a, last) == Emit(u, text, i, last)
    ensures Next(u, text[a..b], i - a, last) == Next(u, text, i, last) - a
  {
    JoinsInSlice(u, text, a, b, i, last);
    SkipInSlice(u, text, a, b, i + 1);
  }

  /** A run that still writes something for position `b - 1` does not jump over it. */
  lemma StaysBefore(u: Tables, text: string, b: nat, i: nat, last: Last)
    requires i < b <= |text| && Writes(NormalizeFrom(u, text, i, last), b - 1)
    ensures var e := Emit(u, text, i, last);
            var next := Next(u, text, i, last);
            && next <= b
            && (next < b ==> Writes(NormalizeFrom(u, text, next, LastOf(last, e)), b - 1))
            && (next == b ==> |e| > 0)
  {
    var e := Emit(u, text, i, last);
    var rest := NormalizeFrom(u, text, Next(u, text, i, last), LastOf(last, e));
    FromOneAt(e, i);
    IndexInRange(u, text, Next(u, text, i, last), LastOf(last, e));
    if !Writes(FromOne(e, i), b - 1) { WritesLater(FromOne(e, i), rest, b - 1); }
  }

  lemma SliceEnd(u: Tables, text: string, slice: string, a: nat, b: nat, last: Last)
    requires a <= b <= |text| && slice == text[a..b]
    ensures NormalizeFrom(u, text, b, last)
         == Shift(NormalizeFrom(u, slice, b - a, last), a) + NormalizeFrom(u, text, b, last)
  {}

  /** From any common point on, the slice writes what the whole text writes up to `b`. */
  lemma {:induction false} SliceTail(u: Tables, text: string, slice: string, a: nat, b: nat, i: nat, last: Last)
    returns (later: seq<Mark>)
    requires a <= i <= b <= |text| && slice == text[a..b]
    requires i == b || Writes(NormalizeFrom(u, text, i, last), b - 1)
    ensures NormalizeFrom(u, text, i, last) == Shift(NormalizeFrom(u, slice, i - a, last), a) + later
    ensures Within(later, b, |text|)
    decreases b - i
  {
    hide *;
    if i == b {
      later := NormalizeFrom(u, text, i, last);
      IndexInRange(u, text, i, last);
      SliceEnd(u, text, slice, a, b, last);
    } else {
      var e := Emit(u, text, i, last);
      var next := Next(u, text, i, last);
      StaysBefore(u, text, b, i, last);
      SliceStep(u, text, a, b, i, last);
      later := SliceTail(u, text, slice, a, b, next, LastOf(last, e));
      var part := NormalizeFrom(u, slice, next - a, LastOf(last, e));
      Unroll(u, text, i, last, e, next);
      Unroll(u, slice, i - a, last, e, next - a);
      ShiftFromOne(e, i - a, a);
      ShiftAppend(FromOne(e, i - a), part, a);
      assert FromOne(e, i) + (Shift(part, a) + later) == (FromOne(e, i) + Shift(part, a)) + later;
    }
  }

  /** An output with the source position of its own step lies in what that step emits. */
  lemma OwnStep(u: Tables, text: string, a: nat, before: Last, r: nat)
    requires a < |text|
    requires var tail := NormalizeFrom(u, text, a, before);
             r < |tail| && tail[r].src == a && tail[r].c != ' '
    ensures var e := Emit(u, text, a, before); |e| > 0 && e == MapChar(u, text[a]) && !IsBlank(e)
  {
    var e := Emit(u, text, a, before);
    FromOneAt(e, a);
    IndexInRange(u, text, Next(u, text, a, before), LastOf(before, e));
    assert r < |e| ==> e[r] != ' ';
  }

  /** Starting a slice at a visible character needs no context from before it. */
  lemma FirstOfSlice(u: Tables, text: string, a: nat, b: nat, before: Last)
    requires a < b <= |text| && var e := Emit(u, text, a, before); |e| > 0 && !IsBlank(e)
    ensures NormalizeFrom(u, text[a..b], 0, before) == Normalize(u, text[a..b])
  {
    var e := Emit(u, text, a, before);
    JoinsInSlice(u, text, a, b, a, before);
    var slice := text[a..b];
    Unroll(u, slice, 0, before, e, 1);
    Unroll(u, slice, 0, Nothing, e, 1);
  }

  /** The visible output `p` belongs to the first step of a run that also writes output `q`. */
  lemma StartsAt(u: Tables, text: string, p: nat, q: nat) returns (earlier: seq<Mark>, before: Last)
    requires p <= q < |Normalize(u, text)| && Normalize(u, text)[p].c != ' '
    ensures var a := Normalize(u, text)[p].src;
            && 0 <= a < |text| && Within(earlier, 0, a) && |earlier| <= p
            && Normalize(u, text) == earlier + NormalizeFrom(u, text, a, before)
            && Writes(NormalizeFrom(u, text, a, before), Normalize(u, text)[q].src)
            && var e := Emit(u, text, a, before); |e| > 0 && e == MapChar(u, text[a]) && !IsBlank(e)
  {
    var n := Normalize(u, text);
    IndexInRange(u, text, 0, Nothing);
    var a := n[p].src;
    earlier, before := PassesThrough(u, text, 0, Nothing, a);
    var tail := NormalizeFrom(u, text, a, before);
    assert n[p] == tail[p - |earlier|] && n[q] == tail[q - |earlier|];
    OwnStep(u, text, a, before, p - |earlier|);
  }

  /** The whole output is what comes from before `a`, the cut `a..b` on its own, and the rest. */
  ghost predicate Splits(u: Tables, text: string, a: int, b: int, earlier: seq<Mark>, later: seq<Mark>) {
    && 0 <= a < b <= |text|
    && Normalize(u, text) == earlier + (Shift(Normalize(u, text[a..b]), a) + later)
    && Within(earlier, 0, a) && Within(later, b, |text|)
  }

  /** LOCALITY. Cut the source at the characters behind two outputs `p <= q`, the first of which is
      not a space, and normalize the cut alone: the result is exactly the middle of the whole
      normalized text - everything the whole run wrote for the cut, and nothing else. */
  lemma LocalNormalization(u: Tables, text: string, p: nat, q: nat)
    returns (earlier: seq<Mark>, later: seq<Mark>)
    requires p <= q < |Normalize(u, text)| && Normalize(u, text)[p].c != ' '
    ensures var a, b := Normalize(u, text)[p].src, Normalize(u, text)[q].src + 1;
            && Splits(u, text, a, b, earlier, later)
            && |earlier| <= p && q < |earlier| + |Normalize(u, text[a..b])|
  {
    hide Emit, NormalizeFrom, MapChar, Shift;
    var n := Normalize(u, text);
    var a, b := n[p].src, n[q].src + 1;
    IndexInRange(u, text, 0, Nothing);
    var before;
    earlier, before := StartsAt(u, text, p, q);
    FirstOfSlice(u, text, a, b, before);
    later := SliceTail(u, text, text[a..b], a, b, a, before);
    BeforeLater(n, earlier, Shift(Normalize(u, text[a..b]), a), later, b, |text|, q);
  }

  lemma BeforeLater(n: seq<Mark>, x: seq<Mark>, y: seq<Mark>, z: seq<Mark>, b: int, c: int, q: nat)
    requires n == x + (y + z) && Within(z, b, c) && q < |n| && n[q].src < b
    ensures q < |x| + |y|
  {
    assert forall k :: 0 <= k < |z| ==> n[|x| + |y| + k] == z[k];
  }

  /** A source character behind a non-space output is not whitespace. */
  lemma VisibleSource(u: Tables, text: string, k: nat)
    requires k < |Normalize(u, text)| && Normalize(u, text)[k].c != ' '
    ensures 0 <= Normalize(u, text)[k].src < |text|
    ensures !IsBlank(MapChar(u, text[Normalize(u, text)[k].src]))
  {
    var earlier, before := StartsAt(u, text, k, k);
  }
}
