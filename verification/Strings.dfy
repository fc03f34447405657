/** Substring search, as the string methods of the program define it. */
module Strings {

  datatype Option<+T> = None | Some(value: T)

  predicate OccursAt(text: string, part: string, pos: nat) {
    pos + |part| <= |text| && text[pos..pos + |part|] == part
  }

  /** `str.find(part, from)`. */
  function Find(text: string, part: string, from: nat): (pos: int)
    ensures pos < 0 ==> forall k :: from <= k ==> !OccursAt(text, part, k)
    ensures pos >= 0 ==> from <= pos && OccursAt(text, part, pos)
    ensures pos >= 0 ==> forall k :: from <= k < pos ==> !OccursAt(text, part, k)
    decreases |text| - from
  {
    if from + |part| > |text| then -1
    else if OccursAt(text, part, from) then from
    else Find(text, part, from + 1)
  }

  /** The last place at or before `k` where `part` occurs, or a negative number. */
  function RFindFrom(text: string, part: string, k: int): (pos: int)
    ensures pos <= k
    ensures pos < 0 ==> forall j :: 0 <= j <= k ==> !OccursAt(text, part, j)
    ensures pos >= 0 ==> OccursAt(text, part, pos)
    ensures pos >= 0 ==> forall j :: pos < j <= k ==> !OccursAt(text, part, j)
    decreases k + 1
  {
    if k < 0 then k else if OccursAt(text, part, k) then k else RFindFrom(text, part, k - 1)
  }

  /** `str.rfind(part)`. */
  function RFind(text: string, part: string): (pos: int)
    ensures pos < 0 ==> forall j :: 0 <= j ==> !OccursAt(text, part, j)
    ensures pos >= 0 ==> OccursAt(text, part, pos)
    ensures pos >= 0 ==> forall j :: pos < j ==> !OccursAt(text, part, j)
  {
    RFindFrom(text, part, |text| - |part|)
  }
}
