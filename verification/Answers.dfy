/** Assembling an answer: filters that lose no claim silently, and footnotes that fit. */
module Answers {
  import opened Unicode
  import opened Citations
  import opened Claims

  datatype RawConflict = RawConflict(description: string, positions: seq<RawClaim>)

  /** What the model returned. */
  datatype ModelAnswer = ModelAnswer(noAnswer: bool, claims: seq<RawClaim>, conflicts: seq<RawConflict>)

  /** A claim object; `id` is its identity. */
  datatype Item = Item(id: nat, claim: VerifiedClaim)

  datatype Conflict = Conflict(description: string, positions: seq<Item>)

  /** The claims and the conflicts with at least two positions. */
  datatype Sorted = Sorted(claims: seq<Item>, conflicts: seq<Conflict>)

  /** A verdict of the support check on the claim with this number (1-based). */
  datatype Verdict = Verdict(number: nat, supported: bool)

  // ------------------------------------------------------------------ regrouping

  function Flat(conflicts: seq<Conflict>): seq<Item> {
    if |conflicts| == 0 then []
    else Flat(conflicts[..|conflicts| - 1]) + conflicts[|conflicts| - 1].positions
  }

  function AllItems(s: Sorted): seq<Item> { s.claims + Flat(s.conflicts) }

  /** A conflict with fewer than two positions left is no conflict: its position becomes a claim. */
  function Regroup(claims: seq<Item>, conflicts: seq<Conflict>): Sorted {
    if |conflicts| == 0 then Sorted(claims, [])
    else
      var s := Regroup(claims, conflicts[..|conflicts| - 1]);
      var last := conflicts[|conflicts| - 1];
      if |last.positions| >= 2 then Sorted(s.claims, s.conflicts + [last])
      else Sorted(s.claims + last.positions, s.conflicts)
  }

  lemma {:induction false} FlatAppend(conflicts: seq<Conflict>, c: Conflict)
    ensures Flat(conflicts + [c]) == Flat(conflicts) + c.positions
  {
    assert (conflicts + [c])[..|conflicts|] == conflicts;
  }

  lemma {:induction false} RegroupConserves(claims: seq<Item>, conflicts: seq<Conflict>)
    ensures multiset(AllItems(Regroup(claims, conflicts))) == multiset(claims) + multiset(Flat(conflicts))
  {
    hide Flat;
    if |conflicts| == 0 {
      assert Flat(conflicts) == [] by { NoFlat(conflicts); }
      assert claims + [] == claims;
    } else {
      var last := conflicts[|conflicts| - 1];
      var front := conflicts[..|conflicts| - 1];
      RegroupConserves(claims, front);
      var before := Regroup(claims, front);
      FlatAppend(before.conflicts, last);
      FlatAppend(front, last);
      assert conflicts == front + [last];
      Rebracket(before.claims, last.positions, Flat(before.conflicts));
    }
  }

  lemma NoFlat(conflicts: seq<Conflict>)
    requires |conflicts| == 0
    ensures Flat(conflicts) == []
  {}

  /** The conflicts that stay are those with two sides. */
  lemma {:induction false} RegroupKeepsPairs(claims: seq<Item>, conflicts: seq<Conflict>)
    ensures forall c :: c in Regroup(claims, conflicts).conflicts <==> c in conflicts && |c.positions| >= 2
  {
    if |conflicts| > 0 {
      RegroupKeepsPairs(claims, conflicts[..|conflicts| - 1]);
      assert conflicts == conflicts[..|conflicts| - 1] + [conflicts[|conflicts| - 1]];
    }
  }

  lemma Rebracket(x: seq<Item>, y: seq<Item>, z: seq<Item>)
    ensures multiset((x + y) + z) == multiset(x + z) + multiset(y)
    ensures multiset(x + (z + y)) == multiset(x + z) + multiset(y)
  {
    assert multiset((x + y) + z) == multiset(x) + multiset(y) + multiset(z);
    assert multiset(x + (z + y)) == multiset(x) + multiset(z) + multiset(y);
  }

  // ------------------------------------------------------------------ gathering and sifting

  function Tag(vs: seq<VerifiedClaim>, base: nat): (items: seq<Item>)
    ensures |items| == |vs|
    ensures forall k :: 0 <= k < |vs| ==> items[k] == Item(base + k, vs[k])
  {
    if |vs| == 0 then [] else [Item(base, vs[0])] + Tag(vs[1..], base + 1)
  }

  function VerifiedAll(s: Source, raws: seq<RawClaim>): seq<VerifiedClaim>
    requires s.Valid()
  {
    Verified(s, raws, |raws|)
  }

  /** The verified conflicts of the first `k`, with identities from `base` on. */
  function VerifiedConflicts(s: Source, raws: seq<RawConflict>, k: nat, base: nat): (cs: seq<Conflict>)
    requires s.Valid() && k <= |raws|
    ensures |cs| == k
  {
    if k == 0 then []
    else
      var before := VerifiedConflicts(s, raws, k - 1, base);
      before + [Conflict(Strip(s.u, raws[k - 1].description),
                         Tag(VerifiedAll(s, raws[k - 1].positions), base + |Flat(before)|))]
  }

  /** Everything that passed verification. */
  function Gathered(s: Source, data: ModelAnswer): Sorted
    requires s.Valid()
  {
    if data.noAnswer then Sorted([], [])
    else
      var claims := VerifiedAll(s, data.claims);
      Regroup(Tag(claims, 0), VerifiedConflicts(s, data.conflicts, |data.conflicts|, |claims|))
  }

  /** `verdict.get(id, False)` for a dictionary built from the list: the last entry counts. */
  predicate Approved(results: seq<Verdict>, number: nat) {
    |results| > 0
    && var last := results[|results| - 1];
       if last.number == number then last.supported else Approved(results[..|results| - 1], number)
  }

  /** The last verdict on the number is that the claim is supported; without a verdict it is not. */
  ghost predicate IsSupported(results: seq<Verdict>, number: nat) {
    exists k :: 0 <= k < |results| && IsLast(results, k, number) && results[k].supported
  }

  ghost predicate IsLast(results: seq<Verdict>, k: nat, number: nat)
    requires k < |results|
  {
    results[k].number == number && forall j :: k < j < |results| ==> results[j].number != number
  }

  lemma {:induction false} ApprovedExactly(results: seq<Verdict>, number: nat)
    ensures Approved(results, number) <==> IsSupported(results, number)
  {
    if |results| > 0 {
      var n := |results| - 1;
      var front := results[..n];
      ApprovedExactly(front, number);
      if results[n].number == number {
        assert IsLast(results, n, number);
      } else {
        forall k | 0 <= k < n ensures IsLast(results, k, number) <==> IsLast(front, k, number) {
          assert forall j :: k < j < n ==> results[j] == front[j];
        }
      }
    }
  }

  /** The identities of the approved ones of the first `k` items. */
  function Supported(flat: seq<Item>, results: seq<Verdict>, k: nat): set<nat>
    requires k <= |flat|
  {
    if k == 0 then {}
    else Supported(flat, results, k - 1) + if Approved(results, k) then {flat[k - 1].id} else {}
  }

  function Sift(items: seq<Item>, ids: set<nat>): (kept: seq<Item>)
    ensures |kept| <= |items|
  {
    if |items| == 0 then []
    else
      var last := items[|items| - 1];
      Sift(items[..|items| - 1], ids) + if last.id in ids then [last] else []
  }

  function SiftAll(conflicts: seq<Conflict>, ids: set<nat>): seq<Conflict> {
    if |conflicts| == 0 then []
    else
      var last := conflicts[|conflicts| - 1];
      SiftAll(conflicts[..|conflicts| - 1], ids) + [Conflict(last.description, Sift(last.positions, ids))]
  }

  /** What is shown: everything gathered, or what the support check approved of it. */
  function Shown(g: Sorted, supportCheck: bool, results: seq<Verdict>): Sorted {
    if !supportCheck then g
    else
      var ids := Supported(AllItems(g), results, |AllItems(g)|);
      Regroup(Sift(g.claims, ids), SiftAll(g.conflicts, ids))
  }

  lemma {:induction false} SiftAppend(x: seq<Item>, y: seq<Item>, ids: set<nat>)
    ensures Sift(x + y, ids) == Sift(x, ids) + Sift(y, ids)
  {
    if |y| == 0 {
      assert x + y == x;
    } else {
      SiftAppend(x, y[..|y| - 1], ids);
      assert (x + y)[..|x + y| - 1] == x + y[..|y| - 1];
    }
  }

  lemma {:induction false} SiftFlat(conflicts: seq<Conflict>, ids: set<nat>)
    ensures Flat(SiftAll(conflicts, ids)) == Sift(Flat(conflicts), ids)
  {
    if |conflicts| > 0 {
      var last := conflicts[|conflicts| - 1];
      SiftFlat(conflicts[..|conflicts| - 1], ids);
      FlatAppend(SiftAll(conflicts[..|conflicts| - 1], ids), Conflict(last.description, Sift(last.positions, ids)));
      SiftAppend(Flat(conflicts[..|conflicts| - 1]), last.positions, ids);
    }
  }

  ghost predicate DistinctIds(items: seq<Item>) {
    forall j, k :: 0 <= j < k < |items| ==> items[j].id != items[k].id
  }

  /** Exactly the items of `flat` whose last verdict is that they are supported, in order. */
  ghost function ApprovedItems(flat: seq<Item>, results: seq<Verdict>, k: nat): seq<Item>
    requires k <= |flat|
  {
    if k == 0 then []
    else ApprovedItems(flat, results, k - 1) + if IsSupported(results, k) then [flat[k - 1]] else []
  }

  lemma {:induction false} SupportedAre(flat: seq<Item>, results: seq<Verdict>, k: nat)
    requires k <= |flat|
    ensures forall id :: id in Supported(flat, results, k) <==>
              exists j :: 0 <= j < k && flat[j].id == id && Approved(results, j + 1)
  {
    if k > 0 { SupportedAre(flat, results, k - 1); }
  }

  lemma {:induction false} SiftIsApproved(flat: seq<Item>, results: seq<Verdict>, k: nat)
    requires k <= |flat| && DistinctIds(flat)
    ensures Sift(flat[..k], Supported(flat, results, |flat|)) == ApprovedItems(flat, results, k)
  {
    if k > 0 {
      SiftIsApproved(flat, results, k - 1);
      ApprovedExactly(results, k);
      SupportedAre(flat, results, |flat|);
      assert flat[..k][..k - 1] == flat[..k - 1];
    }
  }

  ghost predicate TwoSided(s: Sorted) {
    forall c :: c in s.conflicts ==> |c.positions| >= 2
  }

  /** CONSERVATION. With distinct claim objects, what is shown is exactly what was verified and
      approved - nothing lost, nothing doubled - and every conflict shown has two positions. */
  lemma ShownIsApproved(g: Sorted, supportCheck: bool, results: seq<Verdict>)
    requires DistinctIds(AllItems(g)) && TwoSided(g)
    ensures var s := Shown(g, supportCheck, results);
            var flat := AllItems(g);
            && multiset(AllItems(s))
               == multiset(if supportCheck then ApprovedItems(flat, results, |flat|) else flat)
            && TwoSided(s)
  {
    if supportCheck {
      var flat := AllItems(g);
      var ids := Supported(flat, results, |flat|);
      RegroupConserves(Sift(g.claims, ids), SiftAll(g.conflicts, ids));
      RegroupKeepsPairs(Sift(g.claims, ids), SiftAll(g.conflicts, ids));
      SiftFlat(g.conflicts, ids);
      SiftAppend(g.claims, Flat(g.conflicts), ids);
      SiftIsApproved(flat, results, |flat|);
      assert flat[..|flat|] == flat;
    }
  }

  lemma {:induction false} ApprovedAre(flat: seq<Item>, results: seq<Verdict>, k: nat, j: nat)
    requires k <= |flat| && j < |flat| && DistinctIds(flat)
    ensures flat[j] in ApprovedItems(flat, results, k) <==> j < k && IsSupported(results, j + 1)
  {
    hide IsSupported;
    if k > 0 { ApprovedAre(flat, results, k - 1, j); }
  }

  /** SHOWN EXACTLY. With the support check, an item is shown if and only if the last verdict on it is that it is
      supported: what the check rejects or does not rule on is dropped. */
  lemma ShownExactly(g: Sorted, results: seq<Verdict>, j: nat)
    requires DistinctIds(AllItems(g)) && TwoSided(g) && j < |AllItems(g)|
    ensures AllItems(g)[j] in AllItems(Shown(g, true, results)) <==> IsSupported(results, j + 1)
  {
    hide Shown, AllItems, IsSupported, ApprovedItems, DistinctIds;
    var flat := AllItems(g);
    var shown := AllItems(Shown(g, true, results));
    ShownIsApproved(g, true, results);
    ApprovedAre(flat, results, |flat|, j);
    assert flat[j] in shown <==> flat[j] in multiset(shown);
    assert flat[j] in ApprovedItems(flat, results, |flat|) <==> flat[j] in multiset(ApprovedItems(flat, results, |flat|));
  }

  // ------------------------------------------------------------------ identities are distinct

  ghost predicate IdsFrom(items: seq<Item>, base: nat) {
    forall j :: 0 <= j < |items| ==> items[j].id == base + j
  }

  lemma LastConflict(s: Source, raws: seq<RawConflict>, k: nat, base: nat)
    requires s.Valid() && 0 < k <= |raws|
    ensures var before := VerifiedConflicts(s, raws, k - 1, base);
            VerifiedConflicts(s, raws, k, base) ==
            before + [Conflict(Strip(s.u, raws[k - 1].description),
                               Tag(VerifiedAll(s, raws[k - 1].positions), base + |Flat(before)|))]
  {
    hide VerifiedAll, Strip, Flat, Tag;
  }

  lemma TagIds(vs: seq<VerifiedClaim>, base: nat)
    ensures IdsFrom(Tag(vs, base), base)
  {
    hide Tag;
  }

  lemma NoConflictIds(s: Source, raws: seq<RawConflict>, base: nat)
    requires s.Valid()
    ensures IdsFrom(Flat(VerifiedConflicts(s, raws, 0, base)), base)
  {
    NoFlat(VerifiedConflicts(s, raws, 0, base));
  }

  lemma NextConflictIds(s: Source, raws: seq<RawConflict>, k: nat, base: nat)
    requires s.Valid() && 0 < k <= |raws| && IdsFrom(Flat(VerifiedConflicts(s, raws, k - 1, base)), base)
    ensures IdsFrom(Flat(VerifiedConflicts(s, raws, k, base)), base)
  {
    hide *;
    LastConflict(s, raws, k, base);
    var before := VerifiedConflicts(s, raws, k - 1, base);
    var vs := VerifiedAll(s, raws[k - 1].positions);
    FlatAppend(before, Conflict(Strip(s.u, raws[k - 1].description), Tag(vs, base + |Flat(before)|)));
    TagIds(vs, base + |Flat(before)|);
    IdsContinue(Flat(before), Tag(vs, base + |Flat(before)|), base);
  }

  lemma {:induction false} ConflictIds(s: Source, raws: seq<RawConflict>, k: nat, base: nat)
    requires s.Valid() && k <= |raws|
    ensures IdsFrom(Flat(VerifiedConflicts(s, raws, k, base)), base)
  {
    hide *;
    if k == 0 {
      NoConflictIds(s, raws, base);
    } else {
      ConflictIds(s, raws, k - 1, base);
      NextConflictIds(s, raws, k, base);
    }
  }

  lemma IdsContinue(x: seq<Item>, y: seq<Item>, base: nat)
    requires IdsFrom(x, base) && IdsFrom(y, base + |x|)
    ensures IdsFrom(x + y, base)
  {
    forall j | 0 <= j < |x + y| ensures (x + y)[j].id == base + j {
      if j >= |x| { assert (x + y)[j] == y[j - |x|]; }
    }
  }

  lemma DistinctByMultiset(x: seq<Item>, y: seq<Item>)
    requires multiset(x) == multiset(y) && IdsFrom(y, 0)
    ensures DistinctIds(x)
  {
    forall j, k | 0 <= j < k < |x| ensures x[j].id != x[k].id {
      assert x[j] in multiset(y) && x[k] in multiset(y);
      if x[j].id == x[k].id {
        var i := x[j].id;
        assert x[j] == y[i] == x[k];
        TwiceIn(x, j, k);
        OnceIn(y, i);
      }
    }
  }

  lemma TwiceIn(x: seq<Item>, j: nat, k: nat)
    requires j < k < |x| && x[j] == x[k]
    ensures multiset(x)[x[j]] >= 2
  {
    assert x == x[..k] + [x[k]] + x[k + 1..];
    assert x[j] in x[..k];
  }

  lemma OnceIn(y: seq<Item>, i: nat)
    requires i < |y| && forall j, k :: 0 <= j < k < |y| ==> y[j].id != y[k].id
    ensures multiset(y)[y[i]] == 1
  {
    assert y == y[..i] + [y[i]] + y[i + 1..];
    assert y[i] !in y[..i] && y[i] !in y[i + 1..];
  }

  lemma GatheredIsDistinct(s: Source, data: ModelAnswer)
    requires s.Valid()
    ensures DistinctIds(AllItems(Gathered(s, data)))
    ensures TwoSided(Gathered(s, data))
  {
    hide VerifiedAll, VerifiedConflicts, Regroup, AllItems, DistinctIds;
    if !data.noAnswer {
      var claims := VerifiedAll(s, data.claims);
      var conflicts := VerifiedConflicts(s, data.conflicts, |data.conflicts|, |claims|);
      RegroupConserves(Tag(claims, 0), conflicts);
      RegroupKeepsPairs(Tag(claims, 0), conflicts);
      ConflictIds(s, data.conflicts, |data.conflicts|, |claims|);
      IdsContinue(Tag(claims, 0), Flat(conflicts), 0);
      DistinctByMultiset(AllItems(Gathered(s, data)), Tag(claims, 0) + Flat(conflicts));
    } else {
      NothingGathered();
    }
  }

  lemma NothingGathered()
    ensures DistinctIds(AllItems(Sorted([], [])))
  {}

  // ------------------------------------------------------------------ footnotes

  /** A shown claim or position with its footnote numbers. */
  datatype Line = Line(text: string, numbers: seq<nat>)

  datatype Block = ClaimBlock(line: Line) | ConflictBlock(description: string, positions: seq<Line>)

  /** What a reader can recover: the text and the fragments behind the footnotes. */
  datatype Entry = Entry(text: string, idents: seq<Ident>)

  function Idents(cs: seq<Resolved>): (r: seq<Ident>)
    ensures |r| == |cs| && forall k :: 0 <= k < |cs| ==> r[k] == IdentOf(cs[k])
  {
    if |cs| == 0 then [] else [IdentOf(cs[0])] + Idents(cs[1..])
  }

  function EntryOf(i: Item): Entry { Entry(i.claim.text, Idents(i.claim.citations)) }

  predicate InRange(items: seq<Resolved>, numbers: seq<nat>) {
    forall k :: 0 <= k < |numbers| ==> 1 <= numbers[k] <= |items|
  }

  function Decode(items: seq<Resolved>, line: Line): (e: Entry)
    requires InRange(items, line.numbers)
    ensures e.text == line.text && |e.idents| == |line.numbers|
    ensures forall k :: 0 <= k < |e.idents| ==> e.idents[k] == IdentOf(items[line.numbers[k] - 1])
  {
    Entry(line.text, DecodeNumbers(items, line.numbers))
  }

  function DecodeNumbers(items: seq<Resolved>, numbers: seq<nat>): (r: seq<Ident>)
    requires InRange(items, numbers)
    ensures |r| == |numbers| && forall k :: 0 <= k < |r| ==> r[k] == IdentOf(items[numbers[k] - 1])
  {
    if |numbers| == 0 then [] else [IdentOf(items[numbers[0] - 1])] + DecodeNumbers(items, numbers[1..])
  }

  /** `CitationTable`: every fragment once, in the order of first use. */
  class CitationTable {
    var items: seq<Resolved>
    var index: map<Ident, nat>

    ghost predicate Valid()
      reads this
    {
      && (forall id :: id in index ==> index[id] < |items| && IdentOf(items[index[id]]) == id)
      && (forall k :: 0 <= k < |items| ==> IdentOf(items[k]) in index && index[IdentOf(items[k])] == k)
    }

    constructor ()
      ensures Valid() && items == []
    {
      items, index := [], map[];
    }

    method Add(c: Resolved) returns (i: nat)
      requires Valid()
      modifies this
      ensures Valid()
      ensures items == if Has(old(items), IdentOf(c)) then old(items) else old(items) + [c]
      ensures i < |items| && IdentOf(items[i]) == IdentOf(c)
      ensures !Has(old(items), IdentOf(c)) ==> i == |old(items)|
    {
      var ident := IdentOf(c);
      if ident !in index {
        index := index[ident := |items|];
        items := items + [c];
      }
      i := index[ident];
    }
  }

  ghost predicate Refers(lines: seq<Line>, number: nat) {
    exists l :: l in lines && number in l.numbers
  }

  /** Every number after `from`, up to `to`, is referred to by some line. */
  ghost predicate Referred(lines: seq<Line>, from: nat, to: nat) {
    forall n :: from < n <= to ==> Refers(lines, n)
  }

  ghost predicate Fits(items: seq<Resolved>, lines: seq<Line>, shown: seq<Item>) {
    && |lines| == |shown|
    && forall k :: 0 <= k < |lines| ==>
         InRange(items, lines[k].numbers) && Decode(items, lines[k]) == EntryOf(shown[k])
  }

  /** One claim or position: a number for each of its citations. */
  method Number(table: CitationTable, shown: Item) returns (line: Line)
    requires table.Valid()
    modifies table
    ensures table.Valid() && old(table.items) <= table.items
    ensures InRange(table.items, line.numbers) && Decode(table.items, line) == EntryOf(shown)
    ensures Referred([line], |old(table.items)|, |table.items|)
  {
    hide Numbered, InRange, Decode, EntryOf;
    var cs := shown.claim.citations;
    var numbers: seq<nat> := [];
    NumberedNone(table.items, cs);
    for k := 0 to |cs|
      invariant table.Valid() && old(table.items) <= table.items
      invariant Numbered(table.items, numbers, cs[..k])
      invariant forall n :: |old(table.items)| < n <= |table.items| ==> n in numbers
    {
      ghost var before, had := table.items, numbers;
      var i := table.Add(cs[k]);
      NumberedMore(before, table.items, had, cs[..k], cs[k], i);
      numbers := numbers + [i + 1];
      assert numbers[k] == i + 1;
      assert cs[..k + 1] == cs[..k] + [cs[k]];
      forall n | |old(table.items)| < n <= |table.items| ensures n in numbers {
        if n <= |before| { assert n in had; }
      }
    }
    assert cs[..|cs|] == cs;
    line := Line(shown.claim.text, numbers);
    assert line in [line];
    NumberedDecodes(table.items, numbers, shown);
  }

  lemma NumberedNone(items: seq<Resolved>, cs: seq<Resolved>)
    ensures Numbered(items, [], cs[..0])
  {}

  lemma NumberedDecodes(items: seq<Resolved>, numbers: seq<nat>, shown: Item)
    requires Numbered(items, numbers, shown.claim.citations)
    ensures InRange(items, numbers) && Decode(items, Line(shown.claim.text, numbers)) == EntryOf(shown)
  {
    assert DecodeNumbers(items, numbers) == Idents(shown.claim.citations);
  }

  /** The numbers point at the citations' fragments. */
  ghost predicate Numbered(items: seq<Resolved>, numbers: seq<nat>, cs: seq<Resolved>) {
    && |numbers| == |cs| && InRange(items, numbers)
    && forall j :: 0 <= j < |cs| ==> IdentOf(items[numbers[j] - 1]) == IdentOf(cs[j])
  }

  lemma NumberedMore(items: seq<Resolved>, more: seq<Resolved>, numbers: seq<nat>, cs: seq<Resolved>, c: Resolved, i: nat)
    requires items <= more && Numbered(items, numbers, cs) && i < |more| && IdentOf(more[i]) == IdentOf(c)
    ensures |numbers| == |cs| && Numbered(more, numbers + [i + 1], cs + [c])
  {
    assert forall k :: 0 <= k < |items| ==> more[k] == items[k];
  }

  /** The lines of a list of claims or positions. */
  method NumberAll(table: CitationTable, shown: seq<Item>) returns (lines: seq<Line>)
    requires table.Valid()
    modifies table
    ensures table.Valid() && old(table.items) <= table.items
    ensures Fits(table.items, lines, shown)
    ensures Referred(lines, |old(table.items)|, |table.items|)
  {
    hide EntryOf;
    lines := [];
    for k := 0 to |shown|
      invariant table.Valid() && old(table.items) <= table.items
      invariant Fits(table.items, lines, shown[..k])
      invariant Referred(lines, |old(table.items)|, |table.items|)
    {
      ghost var before, had := table.items, lines;
      var line := Number(table, shown[k]);
      lines := lines + [line];
      FitsMore(before, table.items, had, line, shown[..k], shown[k]);
      ReferredMore(had, line, |old(table.items)|, |before|, |table.items|);
      assert shown[..k + 1] == shown[..k] + [shown[k]];
    }
    assert shown[..|shown|] == shown;
  }

  lemma DecodeStays(items: seq<Resolved>, more: seq<Resolved>, line: Line)
    requires items <= more && InRange(items, line.numbers)
    ensures InRange(more, line.numbers) && Decode(more, line) == Decode(items, line)
  {
    assert forall k :: 0 <= k < |items| ==> more[k] == items[k];
    assert DecodeNumbers(more, line.numbers) == DecodeNumbers(items, line.numbers);
  }

  lemma FitsStays(items: seq<Resolved>, more: seq<Resolved>, lines: seq<Line>, shown: seq<Item>)
    requires items <= more && Fits(items, lines, shown)
    ensures Fits(more, lines, shown)
  {
    hide Decode, InRange, EntryOf;
    forall k | 0 <= k < |lines|
      ensures InRange(more, lines[k].numbers) && Decode(more, lines[k]) == EntryOf(shown[k])
    {
      DecodeStays(items, more, lines[k]);
    }
  }

  lemma FitsMore(items: seq<Resolved>, more: seq<Resolved>, lines: seq<Line>, line: Line, shown: seq<Item>, item: Item)
    requires items <= more && Fits(items, lines, shown)
    requires InRange(more, line.numbers) && Decode(more, line) == EntryOf(item)
    ensures Fits(more, lines + [line], shown + [item])
  {
    FitsStays(items, more, lines, shown);
  }

  lemma ReferredMore(lines: seq<Line>, line: Line, from: nat, mid: nat, to: nat)
    requires Referred(lines, from, mid) && Referred([line], mid, to)
    ensures Referred(lines + [line], from, to)
  {
    ReferredConcat(lines, [line], from, mid, to);
  }

  // ------------------------------------------------------------------ the answer

  datatype Answer = Answer(answered: bool, blocks: seq<Block>, citations: seq<Resolved>,
                           proposedClaims: int, droppedClaims: int)

  /** All lines of the blocks, top to bottom. */
  function Lines(blocks: seq<Block>): seq<Line> {
    if |blocks| == 0 then []
    else
      Lines(blocks[..|blocks| - 1])
      + match blocks[|blocks| - 1]
        case ClaimBlock(line) => [line]
        case ConflictBlock(_, positions) => positions
  }

  lemma LinesAppend(blocks: seq<Block>, b: Block)
    ensures Lines(blocks + [b]) == Lines(blocks) + match b case ClaimBlock(line) => [line] case ConflictBlock(_, ps) => ps
  {
    assert (blocks + [b])[..|blocks|] == blocks;
  }

  /** A block per claim, then a block per conflict with its description. */
  ghost predicate Layout(blocks: seq<Block>, s: Sorted) {
    && |blocks| == |s.claims| + |s.conflicts|
    && (forall k :: 0 <= k < |s.claims| ==> blocks[k].ClaimBlock?)
    && (forall k :: |s.claims| <= k < |blocks| ==> Shows(blocks[k], s.conflicts[k - |s.claims|]))
  }

  ghost predicate Shows(b: Block, c: Conflict) {
    b.ConflictBlock? && b.description == c.description && |b.positions| == |c.positions|
  }

  /** The two output loops over claims and conflicts. */
  method Render(s: Sorted) returns (blocks: seq<Block>, citations: seq<Resolved>)
    ensures Layout(blocks, s) && Fits(citations, Lines(blocks), AllItems(s))
    ensures DistinctIdents(citations) && Referred(Lines(blocks), 0, |citations|)
  {
    hide Fits, Referred, Lines, Flat, DistinctIdents, Layout;
    var table := new CitationTable();
    var lines := NumberAll(table, s.claims);
    FitsLength(table.items, lines, s.claims);
    blocks := ClaimBlocks(lines);
    NoConflicts(s, blocks);
    for k := 0 to |s.conflicts|
      invariant table.Valid() && fresh(table)
      invariant Layout(blocks, Sorted(s.claims, s.conflicts[..k]))
      invariant Fits(table.items, Lines(blocks), s.claims + Flat(s.conflicts[..k]))
      invariant Referred(Lines(blocks), 0, |table.items|)
    {
      ghost var before := table.items;
      var c := s.conflicts[k];
      var positions := NumberAll(table, c.positions);
      FitsLength(table.items, positions, c.positions);
      RenderStep(before, table.items, blocks, positions, s.claims, s.conflicts[..k], c);
      LayoutStep(blocks, s.claims, s.conflicts[..k], c, positions);
      blocks := blocks + [ConflictBlock(c.description, positions)];
      assert s.conflicts[..k + 1] == s.conflicts[..k] + [c];
    }
    assert s.conflicts[..|s.conflicts|] == s.conflicts;
    citations := table.items;
    TableIsDistinct(table);
  }

  lemma NoConflicts(s: Sorted, blocks: seq<Block>)
    requires |blocks| == |s.claims| && forall k :: 0 <= k < |blocks| ==> blocks[k].ClaimBlock?
    ensures s.claims + Flat(s.conflicts[..0]) == s.claims
    ensures Layout(blocks, Sorted(s.claims, s.conflicts[..0]))
  {}

  lemma LayoutStep(blocks: seq<Block>, claims: seq<Item>, conflicts: seq<Conflict>, c: Conflict, positions: seq<Line>)
    requires Layout(blocks, Sorted(claims, conflicts)) && |positions| == |c.positions|
    ensures Layout(blocks + [ConflictBlock(c.description, positions)], Sorted(claims, conflicts + [c]))
  {
    var more := blocks + [ConflictBlock(c.description, positions)];
    forall k | |claims| <= k < |more| ensures Shows(more[k], (conflicts + [c])[k - |claims|]) {
      if k < |blocks| { assert Shows(blocks[k], conflicts[k - |claims|]); }
    }
  }

  lemma TableIsDistinct(table: CitationTable)
    requires table.Valid()
    ensures DistinctIdents(table.items)
  {}

  lemma FitsLength(items: seq<Resolved>, lines: seq<Line>, shown: seq<Item>)
    requires Fits(items, lines, shown)
    ensures |lines| == |shown|
  {}

  function ClaimBlocks(lines: seq<Line>): (blocks: seq<Block>)
    ensures |blocks| == |lines| && forall k :: 0 <= k < |lines| ==> blocks[k] == ClaimBlock(lines[k])
    ensures Lines(blocks) == lines
  {
    if |lines| == 0 then []
    else
      var front := ClaimBlocks(lines[..|lines| - 1]);
      LinesAppend(front, ClaimBlock(lines[|lines| - 1]));
      front + [ClaimBlock(lines[|lines| - 1])]
  }

  lemma RenderStep(items: seq<Resolved>, more: seq<Resolved>, blocks: seq<Block>, positions: seq<Line>,
                   claims: seq<Item>, conflicts: seq<Conflict>, c: Conflict)
    requires items <= more && Fits(items, Lines(blocks), claims + Flat(conflicts))
    requires Fits(more, positions, c.positions)
    requires Referred(Lines(blocks), 0, |items|) && Referred(positions, |items|, |more|)
    ensures var blocks' := blocks + [ConflictBlock(c.description, positions)];
            && Fits(more, Lines(blocks'), claims + Flat(conflicts + [c]))
            && Referred(Lines(blocks'), 0, |more|)
  {
    hide Lines, Flat, Fits, Referred;
    LinesAppend(blocks, ConflictBlock(c.description, positions));
    FlatAppend(conflicts, c);
    FitsStays(items, more, Lines(blocks), claims + Flat(conflicts));
    FitsConcat(more, Lines(blocks), claims + Flat(conflicts), positions, c.positions);
    assert (claims + Flat(conflicts)) + c.positions == claims + (Flat(conflicts) + c.positions);
    ReferredConcat(Lines(blocks), positions, 0, |items|, |more|);
  }

  lemma FitsConcat(items: seq<Resolved>, x: seq<Line>, xs: seq<Item>, y: seq<Line>, ys: seq<Item>)
    requires Fits(items, x, xs) && Fits(items, y, ys)
    ensures Fits(items, x + y, xs + ys)
  {
    hide Decode, InRange, EntryOf;
  }

  lemma ReferredConcat(x: seq<Line>, y: seq<Line>, from: nat, mid: nat, to: nat)
    requires Referred(x, from, mid) && Referred(y, mid, to)
    ensures Referred(x + y, from, to)
  {
    forall n | from < n <= to ensures Refers(x + y, n) {
      assert if n <= mid then Refers(x, n) else Refers(y, n);
      var l :| (l in x || l in y) && n in l.numbers;
      assert l in x + y;
    }
  }

  // ------------------------------------------------------------------ the whole of `_answer`

  function PositionCount(raws: seq<RawConflict>, k: nat): nat
    requires k <= |raws|
  {
    if k == 0 then 0 else PositionCount(raws, k - 1) + |raws[k - 1].positions|
  }

  /** How many claims and positions the model proposed. */
  function ProposedCount(data: ModelAnswer): nat {
    if data.noAnswer then 0 else |data.claims| + PositionCount(data.conflicts, |data.conflicts|)
  }

  lemma ItemCount(s: Sorted)
    ensures |AllItems(s)| == |s.claims| + |Flat(s.conflicts)|
  {}

  lemma NoConflictsYet(s: Source, raws: seq<RawConflict>, base: nat, claims: seq<Item>)
    requires s.Valid()
    ensures VerifiedConflicts(s, raws, 0, base) == [] && Flat([]) == [] && Regroup(claims, []) == Sorted(claims, [])
    ensures PositionCount(raws, 0) == 0
  {}

  /** One round of the loop over the conflicts. */
  lemma GatherStep(s: Source, raws: seq<RawConflict>, k: nat, base: nat, claims: seq<Item>, c: Conflict)
    requires s.Valid() && k < |raws|
    requires c.description == Strip(s.u, raws[k].description)
    requires c.positions == Tag(VerifiedAll(s, raws[k].positions), base + |Flat(VerifiedConflicts(s, raws, k, base))|)
    ensures var before, after := VerifiedConflicts(s, raws, k, base), VerifiedConflicts(s, raws, k + 1, base);
            var r := Regroup(claims, before);
            && |Flat(after)| == |Flat(before)| + |c.positions|
            && Regroup(claims, after) ==
               if |c.positions| >= 2 then Sorted(r.claims, r.conflicts + [c]) else Sorted(r.claims + c.positions, r.conflicts)
    ensures PositionCount(raws, k + 1) == PositionCount(raws, k) + |raws[k].positions|
  {
    hide VerifiedAll, Strip, Flat, Tag, VerifiedConflicts;
    var before := VerifiedConflicts(s, raws, k, base);
    LastConflict(s, raws, k + 1, base);
    assert (before + [c])[..|before|] == before;
    FlatAppend(before, c);
  }

  lemma GatheredIs(s: Source, data: ModelAnswer)
    requires s.Valid()
    ensures data.noAnswer ==> Gathered(s, data) == Sorted([], []) && ProposedCount(data) == 0
    ensures !data.noAnswer ==>
              && Gathered(s, data) ==
                 Regroup(Tag(VerifiedAll(s, data.claims), 0),
                         VerifiedConflicts(s, data.conflicts, |data.conflicts|, |VerifiedAll(s, data.claims)|))
              && ProposedCount(data) == |data.claims| + PositionCount(data.conflicts, |data.conflicts|)
  {}

  /** The verification of claims as `Gather` counts them. */
  method VerifySome(resolver: CitationResolver, raws: seq<RawClaim>, firstId: nat, stats: VerificationStats)
    returns (items: seq<Item>)
    requires resolver.Valid()
    modifies stats
    ensures items == Tag(VerifiedAll(resolver.State(), raws), firstId)
    ensures |items| == |VerifiedAll(resolver.State(), raws)|
    ensures stats.proposedClaims == old(stats.proposedClaims) + |raws|
    ensures stats.droppedClaims == old(stats.droppedClaims) + |raws| - |items|
  {
    hide Verified, Tag;
    var vs := resolver.VerifyClaims(raws, stats);
    items := Tag(vs, firstId);
  }

  /** The verification half: claims, then conflicts, a one-sided conflict counted as a claim. */
  method Gather(resolver: CitationResolver, data: ModelAnswer, stats: VerificationStats) returns (g: Sorted)
    requires resolver.Valid() && stats.proposedClaims == stats.droppedClaims == 0
    modifies stats
    ensures g == Gathered(resolver.State(), data)
    ensures stats.proposedClaims == ProposedCount(data)
    ensures stats.droppedClaims == ProposedCount(data) - |AllItems(g)|
  {
    hide VerifiedAll, Strip, Flat, Tag, VerifiedConflicts, Regroup, AllItems, Gathered, ProposedCount, PositionCount;
    ghost var s := resolver.State();
    GatheredIs(s, data);
    EmptyCount();
    if data.noAnswer {
      return Sorted([], []);
    }
    var claims := VerifySome(resolver, data.claims, 0, stats);
    var conflicts: seq<Conflict> := [];
    ghost var first := claims;
    var nextId := |claims|;
    NoConflictsYet(s, data.conflicts, |first|, first);
    for k := 0 to |data.conflicts|
      invariant Sorted(claims, conflicts) == Regroup(first, VerifiedConflicts(s, data.conflicts, k, |first|))
      invariant nextId == |first| + |Flat(VerifiedConflicts(s, data.conflicts, k, |first|))|
      invariant stats.proposedClaims == |data.claims| + PositionCount(data.conflicts, k)
      invariant stats.droppedClaims == stats.proposedClaims - |claims| - |Flat(conflicts)|
    {
      var raw := data.conflicts[k];
      var positions := VerifySome(resolver, raw.positions, nextId, stats);
      var c := Conflict(Strip(resolver.u, raw.description), positions);
      GatherStep(s, data.conflicts, k, |first|, first, c);
      FlatAppend(conflicts, c);
      nextId := nextId + |positions|;
      if |positions| >= 2 {
        conflicts := conflicts + [c];
      } else {
        claims := claims + c.positions;
      }
    }
    g := Sorted(claims, conflicts);
    ItemCount(g);
  }

  lemma EmptyCount()
    ensures AllItems(Sorted([], [])) == [] && Flat([]) == []
  {}

  /** The support check: unapproved items are dropped and counted, conflicts are sorted again. */
  method SupportFilter(g: Sorted, results: seq<Verdict>, stats: VerificationStats) returns (s: Sorted)
    requires DistinctIds(AllItems(g))
    modifies stats`droppedClaims
    ensures s == Shown(g, true, results)
    ensures stats.droppedClaims == old(stats.droppedClaims) + |AllItems(g)| - |AllItems(s)|
  {
    hide Flat, Approved, DistinctIds;
    var flat := AllItems(g);
    var ids: set<nat> := {};
    for k := 0 to |flat|
      invariant ids == Supported(flat, results, k)
    {
      if Approved(results, k + 1) {
        ids := ids + {flat[k].id};
      }
    }
    for k := 0 to |flat|
      invariant stats.droppedClaims == old(stats.droppedClaims) + k - |Sift(flat[..k], ids)|
    {
      assert flat[..k + 1][..k] == flat[..k];
      if flat[k].id !in ids {
        stats.droppedClaims := stats.droppedClaims + 1;
      }
    }
    assert flat[..|flat|] == flat;
    var claims, conflicts := Sift(g.claims, ids), [];
    EmptyCount();
    for k := 0 to |g.conflicts|
      invariant Sorted(claims, conflicts) == Regroup(Sift(g.claims, ids), SiftAll(g.conflicts[..k], ids))
    {
      assert g.conflicts[..k + 1][..k] == g.conflicts[..k];
      var positions := Sift(g.conflicts[k].positions, ids);
      var c := Conflict(g.conflicts[k].description, positions);
      ghost var before := SiftAll(g.conflicts[..k], ids);
      assert SiftAll(g.conflicts[..k + 1], ids) == before + [c];
      assert (before + [c])[..|before|] == before;
      if |positions| >= 2 {
        conflicts := conflicts + [c];
      } else {
        claims := claims + positions;
      }
    }
    assert g.conflicts[..|g.conflicts|] == g.conflicts;
    s := Sorted(claims, conflicts);
    SiftedCount(g, ids);
  }

  lemma SiftedCount(g: Sorted, ids: set<nat>)
    ensures |AllItems(Regroup(Sift(g.claims, ids), SiftAll(g.conflicts, ids)))| == |Sift(AllItems(g), ids)|
  {
    hide Flat, Sift, SiftAll, Regroup;
    var s := Regroup(Sift(g.claims, ids), SiftAll(g.conflicts, ids));
    RegroupConserves(Sift(g.claims, ids), SiftAll(g.conflicts, ids));
    SiftFlat(g.conflicts, ids);
    SiftAppend(g.claims, Flat(g.conflicts), ids);
    assert |multiset(AllItems(s))| == |AllItems(s)|;
    assert |multiset(Sift(g.claims, ids))| == |Sift(g.claims, ids)|;
    assert |multiset(Sift(Flat(g.conflicts), ids))| == |Sift(Flat(g.conflicts), ids)|;
  }

  /** `_answer` after the model calls: verify, check support, number the footnotes. */
  method AnswerFrom(resolver: CitationResolver, data: ModelAnswer, supportCheck: bool, results: seq<Verdict>)
    returns (answer: Answer)
    requires resolver.Valid()
    ensures var s := Shown(Gathered(resolver.State(), data), supportCheck, results);
            && Layout(answer.blocks, s)
            && Fits(answer.citations, Lines(answer.blocks), AllItems(s))
            && answer.proposedClaims == ProposedCount(data)
            && answer.proposedClaims == answer.droppedClaims + |Lines(answer.blocks)|
    ensures DistinctIdents(answer.citations) && Referred(Lines(answer.blocks), 0, |answer.citations|)
    ensures answer.answered <==> |answer.blocks| > 0
  {
    hide Shown, Gathered, AllItems, Fits, Lines, Layout, DistinctIds, ProposedCount;
    var stats := new VerificationStats();
    var g := Gather(resolver, data, stats);
    GatheredIsDistinct(resolver.State(), data);
    NothingToCheck(g, supportCheck, results);
    var s := g;
    if supportCheck && (|g.claims| > 0 || |g.conflicts| > 0) {
      s := SupportFilter(g, results, stats);
    }
    var blocks, citations := Render(s);
    FitsLength(citations, Lines(blocks), AllItems(s));
    answer := Answer(|blocks| > 0, blocks, citations, stats.proposedClaims, stats.droppedClaims);
  }

  lemma NothingToCheck(g: Sorted, supportCheck: bool, results: seq<Verdict>)
    ensures !supportCheck || (|g.claims| == 0 && |g.conflicts| == 0) ==> Shown(g, supportCheck, results) == g
  {}

  /** What a reader decodes from the blocks and the citation list: the texts with the fragments
      behind their footnotes. */
  function Decoded(items: seq<Resolved>, lines: seq<Line>): (es: seq<Entry>)
    requires forall k :: 0 <= k < |lines| ==> InRange(items, lines[k].numbers)
    ensures |es| == |lines| && forall k :: 0 <= k < |lines| ==> es[k] == Decode(items, lines[k])
  {
    if |lines| == 0 then [] else [Decode(items, lines[0])] + Decoded(items, lines[1..])
  }

  function Entries(items: seq<Item>): (es: seq<Entry>)
    ensures |es| == |items| && forall k :: 0 <= k < |items| ==> es[k] == EntryOf(items[k])
  {
    if |items| == 0 then [] else [EntryOf(items[0])] + Entries(items[1..])
  }

  lemma FitsDecodes(items: seq<Resolved>, lines: seq<Line>, shown: seq<Item>)
    requires Fits(items, lines, shown)
    ensures forall k :: 0 <= k < |lines| ==> InRange(items, lines[k].numbers)
    ensures Decoded(items, lines) == Entries(shown)
  {
    hide Decode, EntryOf, InRange;
  }

  /** NOTHING LOST, NOTHING INVENTED. Decoding the shown blocks through the citation list gives back
      the shown claims and positions, and these are, each exactly once, the gathered ones that the
      support check approved. What `Gathered` gathers is distinct and has two sides. */
  lemma AnswerConserves(g: Sorted, supportCheck: bool, results: seq<Verdict>, answer: Answer)
    requires DistinctIds(AllItems(g)) && TwoSided(g)
    requires Fits(answer.citations, Lines(answer.blocks), AllItems(Shown(g, supportCheck, results)))
    ensures forall k :: 0 <= k < |Lines(answer.blocks)| ==>
              InRange(answer.citations, Lines(answer.blocks)[k].numbers)
    ensures var flat := AllItems(g);
            var shown := AllItems(Shown(g, supportCheck, results));
            && Decoded(answer.citations, Lines(answer.blocks)) == Entries(shown)
            && multiset(shown) == multiset(if supportCheck then ApprovedItems(flat, results, |flat|) else flat)
  {
    hide Shown, AllItems, Fits, Lines, ApprovedItems, DistinctIds, Entries, Decoded;
    ShownIsApproved(g, supportCheck, results);
    FitsDecodes(answer.citations, Lines(answer.blocks), AllItems(Shown(g, supportCheck, results)));
  }

  /** Every conflict block shown has at least two positions. */
  lemma ConflictsHaveTwoSides(g: Sorted, supportCheck: bool, results: seq<Verdict>, answer: Answer)
    requires DistinctIds(AllItems(g)) && TwoSided(g)
    requires Layout(answer.blocks, Shown(g, supportCheck, results))
    ensures forall b :: b in answer.blocks && b.ConflictBlock? ==> |b.positions| >= 2
  {
    hide Shown, DistinctIds, AllItems;
    ShownIsApproved(g, supportCheck, results);
    var shown := Shown(g, supportCheck, results);
    forall b | b in answer.blocks && b.ConflictBlock? ensures |b.positions| >= 2 {
      var k :| 0 <= k < |answer.blocks| && answer.blocks[k] == b;
      assert Shows(b, shown.conflicts[k - |shown.claims|]);
      assert shown.conflicts[k - |shown.claims|] in shown.conflicts;
    }
  }
}
