/** The character classes that the text engine asks Unicode for.
    The tables themselves (category, case, NFKC) are data outside the program, so they are a
    parameter: three finite sets of characters and the lower-cased NFKC form of every character
    that has one. A model property holds for all tables, or for all that meet `Valid`. */
module Unicode {

  datatype Tables = Tables(
    space: set<char>,
    alpha: set<char>,
    lower: set<char>,
    nfkcLower: map<char, string>)
  {
    /** The only facts about concrete characters that the proofs use. */
    ghost predicate Valid() {
      && ' ' in space && '\n' in space
      && forall c :: IsTerminator(c) || IsCloser(c) ==> c !in space
    }
  }

  predicate IsDoubleQuote(c: char) {
    c == '\U{00AB}' || c == '\U{00BB}' || c == '\U{201C}' || c == '\U{201D}' || c == '\U{201E}'
    || c == '\U{201F}' || c == '\U{2033}'
  }

  predicate IsSingleQuote(c: char) {
    c == '\U{2018}' || c == '\U{2019}' || c == '\U{201A}' || c == '\U{201B}' || c == '\U{2032}'
    || c == '`'
  }

  predicate IsDash(c: char) {
    c == '\U{2010}' || c == '\U{2011}' || c == '\U{2012}' || c == '\U{2013}' || c == '\U{2014}'
    || c == '\U{2015}' || c == '\U{2212}' || c == '\U{FE58}' || c == '\U{FE63}' || c == '\U{FF0D}'
  }

  /** Ends of sentences, and the quotes and brackets that may close one. */
  predicate IsTerminator(c: char) {
    c == '.' || c == '!' || c == '?' || c == ELLIPSIS
  }

  predicate IsCloser(c: char) {
    c == '"' || c == '\'' || c == '\U{00BB}' || c == '\U{201D}' || c == ')' || c == ']'
  }

  const SOFT_HYPHEN := '\U{00AD}'
  const ELLIPSIS := '\U{2026}'
  /** Cyrillic yo is read as ye. */
  function ReplaceYo(s: string): (r: string)
    ensures |r| == |s|
  {
    if |s| == 0 then "" else [if s[0] == '\U{0451}' then '\U{0435}' else s[0]] + ReplaceYo(s[1..])
  }

  /** What one source character contributes to normalized text; `" "` marks whitespace. */
  function MapChar(u: Tables, c: char): string {
    if IsDoubleQuote(c) then "\""
    else if IsSingleQuote(c) then "'"
    else if IsDash(c) then "-"
    else if c in u.space then " "
    else ReplaceYo(if c in u.nfkcLower then u.nfkcLower[c] else [c])
  }

  function StripLeft(u: Tables, s: string): (r: string)
    ensures |r| <= |s| && r == s[|s| - |r|..]
    ensures forall k :: 0 <= k < |s| - |r| ==> s[k] in u.space
    ensures r != "" ==> r[0] !in u.space
  {
    if s == "" || s[0] !in u.space then s else StripLeft(u, s[1..])
  }

  function StripRight(u: Tables, s: string): (r: string)
    ensures r <= s
    ensures forall k :: |r| <= k < |s| ==> s[k] in u.space
    ensures r != "" ==> r[|r| - 1] !in u.space
  {
    if s == "" || s[|s| - 1] !in u.space then s else StripRight(u, s[..|s| - 1])
  }

  /** `str.strip`: both ends are non-space afterwards. */
  function Strip(u: Tables, s: string): (r: string)
    ensures r != "" ==> r[0] !in u.space && r[|r| - 1] !in u.space
  {
    StripRight(u, StripLeft(u, s))
  }

  lemma PrefixOfSuffix(text: string, left: string, kept: string, l: nat)
    requires l <= |text| && left == text[l..] && kept <= left
    ensures kept == text[l..l + |kept|]
  {
    assert forall k :: 0 <= k < |kept| ==> kept[k] == left[k] == text[l + k];
  }

  /** `Strip` cuts a window out of the text, and cuts off nothing but whitespace. */
  lemma StripIsWindow(u: Tables, text: string) returns (l: nat, r: nat)
    ensures l <= r <= |text| && Strip(u, text) == text[l..r]
    ensures forall k :: 0 <= k < l || r <= k < |text| ==> text[k] in u.space
  {
    hide StripLeft, StripRight;
    var left := StripLeft(u, text);
    var kept := StripRight(u, left);
    l := |text| - |left|;
    r := l + |kept|;
    forall k | r <= k < |text| ensures text[k] in u.space {
      assert text[k] == left[k - l];
    }
    PrefixOfSuffix(text, left, kept, l);
  }
}
