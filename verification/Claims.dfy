/** Verifying the model's claims: every kept citation resolves, every kept claim has one. */
module Claims {
  import opened Strings
  import opened Unicode
  import opened Pages
  import opened QuoteSearch
  import opened Citations

  datatype RawCitation = RawCitation(chunk: string, quote: string)

  datatype RawClaim = RawClaim(text: string, citations: seq<RawCitation>)

  datatype VerifiedClaim = VerifiedClaim(text: string, citations: seq<Resolved>)

  /** Two citations of the same fragment are the same citation. */
  datatype Ident = Ident(versionId: string, start: int, end: int)

  const MAX_CITATIONS_PER_CLAIM := 3

  function IdentOf(r: Resolved): Ident { Ident(r.versionId, r.start, r.end) }

  predicate Has(items: seq<Resolved>, ident: Ident) {
    exists k :: 0 <= k < |items| && IdentOf(items[k]) == ident
  }

  // ------------------------------------------------------------------ the resolver

  /** What a resolver works with: chunks by key, runs, versions. */
  datatype Source = Source(u: Tables, dict: seq<Chunk>, runs: seq<Run>, versions: map<string, Version>) {
    ghost predicate Valid() {
      u.Valid() && forall k :: 0 <= k < |runs| ==> runs[k].versionId in versions
    }
  }

  function Resolve(s: Source, c: RawCitation): Option<Resolved>
    requires s.Valid()
  {
    Resolution(s.u, s.dict, s.runs, s.versions, c.chunk, c.quote)
  }

  /** The citations kept of the first `k`: resolved, not seen before, at most three. */
  function Kept(s: Source, cs: seq<RawCitation>, k: nat): (kept: seq<Resolved>)
    requires s.Valid() && k <= |cs|
  {
    if k == 0 then []
    else
      var kept := Kept(s, cs, k - 1);
      var r := Resolve(s, cs[k - 1]);
      if r.None? || Has(kept, IdentOf(r.value)) || |kept| >= MAX_CITATIONS_PER_CLAIM then kept
      else kept + [r.value]
  }

  function Unresolved(s: Source, cs: seq<RawCitation>, k: nat): (n: nat)
    requires s.Valid() && k <= |cs|
    ensures n <= k
  {
    if k == 0 then 0
    else Unresolved(s, cs, k - 1) + if Resolve(s, cs[k - 1]).None? then 1 else 0
  }

  function VerifyOne(s: Source, raw: RawClaim): Option<VerifiedClaim>
    requires s.Valid()
  {
    var text := Strip(s.u, raw.text);
    var kept := Kept(s, raw.citations, |raw.citations|);
    if |text| == 0 || |kept| == 0 then None else Some(VerifiedClaim(text, kept))
  }

  /** The verified ones of the first `k` claims, in order. */
  function Verified(s: Source, raws: seq<RawClaim>, k: nat): (claims: seq<VerifiedClaim>)
    requires s.Valid() && k <= |raws|
    ensures |claims| <= k
  {
    if k == 0 then []
    else
      var v := VerifyOne(s, raws[k - 1]);
      Verified(s, raws, k - 1) + if v.Some? then [v.value] else []
  }

  function CitationCount(raws: seq<RawClaim>, k: nat): nat
    requires k <= |raws|
  {
    if k == 0 then 0 else CitationCount(raws, k - 1) + |raws[k - 1].citations|
  }

  function UnresolvedCount(s: Source, raws: seq<RawClaim>, k: nat): nat
    requires s.Valid() && k <= |raws|
  {
    if k == 0 then 0
    else UnresolvedCount(s, raws, k - 1) + Unresolved(s, raws[k - 1].citations, |raws[k - 1].citations|)
  }

  // ------------------------------------------------------------------ what verification promises

  ghost predicate DistinctIdents(items: seq<Resolved>) {
    forall j, k :: 0 <= j < k < |items| ==> IdentOf(items[j]) != IdentOf(items[k])
  }

  ghost predicate ComesFrom(s: Source, cs: seq<RawCitation>, r: Resolved)
    requires s.Valid()
  {
    exists c :: c in cs && Resolve(s, c) == Some(r)
  }

  /** One to three different fragments, each the resolution of a proposed citation. */
  ghost predicate WellCited(s: Source, raw: RawClaim, claim: VerifiedClaim)
    requires s.Valid()
  {
    && claim.text == Strip(s.u, raw.text) && |claim.text| > 0
    && 1 <= |claim.citations| <= MAX_CITATIONS_PER_CLAIM
    && DistinctIdents(claim.citations)
    && forall k :: 0 <= k < |claim.citations| ==> ComesFrom(s, raw.citations, claim.citations[k])
  }

  lemma {:induction false} KeptIsGood(s: Source, cs: seq<RawCitation>, k: nat)
    requires s.Valid() && k <= |cs|
    ensures var kept := Kept(s, cs, k);
            && |kept| <= MAX_CITATIONS_PER_CLAIM && DistinctIdents(kept)
            && (forall j :: 0 <= j < |kept| ==> ComesFrom(s, cs, kept[j]))
            && (|kept| == 0 ==> forall j :: 0 <= j < k ==> Resolve(s, cs[j]).None?)
  {
    hide Resolve;
    if k > 0 {
      KeptIsGood(s, cs, k - 1);
      var kept := Kept(s, cs, k - 1);
      var r := Resolve(s, cs[k - 1]);
      if r.Some? {
        assert cs[k - 1] in cs;
        assert ComesFrom(s, cs, r.value);
      }
    }
  }

  /** FIRST THREE. Every citation that resolves is kept, in the order proposed, until three different fragments are. */
  lemma {:induction false} KeptIsFull(s: Source, cs: seq<RawCitation>, k: nat, j: nat)
    requires s.Valid() && j < k <= |cs|
    ensures Kept(s, cs, j) <= Kept(s, cs, k)
    ensures var kept := Kept(s, cs, j + 1);
            var r := Resolve(s, cs[j]);
            r.Some? ==> Has(kept, IdentOf(r.value)) || |kept| == 3
  {
    hide Resolve;
    if j < k - 1 {
      KeptIsFull(s, cs, k - 1, j);
    } else {
      var kept := Kept(s, cs, j + 1);
      KeptIsGood(s, cs, j + 1);
      assert |kept| > |Kept(s, cs, j)| ==> IdentOf(kept[|kept| - 1]) == IdentOf(Resolve(s, cs[j]).value);
    }
  }

  /** A claim passes exactly when it has text and a citation that resolves; it is then well cited. */
  lemma VerifyOneIsRight(s: Source, raw: RawClaim)
    requires s.Valid()
    ensures VerifyOne(s, raw).Some? <==>
              |Strip(s.u, raw.text)| > 0 && exists c :: c in raw.citations && Resolve(s, c).Some?
    ensures VerifyOne(s, raw).Some? ==> WellCited(s, raw, VerifyOne(s, raw).value)
  {
    hide Resolve, Strip, DistinctIdents;
    var cs := raw.citations;
    KeptIsGood(s, cs, |cs|);
    var kept := Kept(s, cs, |cs|);
    if |kept| > 0 {
      assert ComesFrom(s, cs, kept[0]);
    }
  }

  /** Every verified claim is a proposed one, well cited. */
  lemma {:induction false} VerifiedAreProposed(s: Source, raws: seq<RawClaim>, k: nat)
    requires s.Valid() && k <= |raws|
    ensures forall v :: v in Verified(s, raws, k) ==> exists raw :: raw in raws[..k] && WellCited(s, raw, v)
  {
    hide VerifyOne, WellCited;
    if k > 0 {
      VerifiedAreProposed(s, raws, k - 1);
      VerifyOneIsRight(s, raws[k - 1]);
      assert raws[..k] == raws[..k - 1] + [raws[k - 1]];
    }
  }

  ghost function UnresolvedOf(s: Source, cs: seq<RawCitation>, k: nat): set<nat>
    requires s.Valid() && k <= |cs|
  {
    set i: nat | i < k && Resolve(s, cs[i]).None?
  }

  /** The citations counted as dropped are those that do not resolve. */
  lemma {:induction false} DroppedAreUnresolved(s: Source, cs: seq<RawCitation>, k: nat)
    requires s.Valid() && k <= |cs|
    ensures Unresolved(s, cs, k) == |UnresolvedOf(s, cs, k)|
  {
    hide Resolve;
    if k > 0 {
      DroppedAreUnresolved(s, cs, k - 1);
      assert UnresolvedOf(s, cs, k) ==
             UnresolvedOf(s, cs, k - 1) + if Resolve(s, cs[k - 1]).None? then {k - 1} else {};
    }
  }

  ghost predicate PassedAt(s: Source, raws: seq<RawClaim>, v: VerifiedClaim, i: nat)
    requires s.Valid()
  {
    i < |raws| && VerifyOne(s, raws[i]) == Some(v)
  }

  ghost predicate HasAllPassed(s: Source, raws: seq<RawClaim>, from: seq<nat>)
    requires s.Valid()
  {
    forall i :: 0 <= i < |raws| && VerifyOne(s, raws[i]).Some? ==> i in from
  }

  predicate IsAscending(from: seq<nat>) { forall j, k :: 0 <= j < k < |from| ==> from[j] < from[k] }

  /** The claims `vs` are those of `raws` at the places `from`, in order, and no other claim passes. */
  ghost predicate ArePassed(s: Source, raws: seq<RawClaim>, vs: seq<VerifiedClaim>, from: seq<nat>)
    requires s.Valid()
  {
    && |from| == |vs| && IsAscending(from) && HasAllPassed(s, raws, from)
    && forall k :: 0 <= k < |vs| ==> PassedAt(s, raws, vs[k], from[k])
  }

  lemma AllStillPassed(s: Source, raws: seq<RawClaim>, raw: RawClaim, from: seq<nat>)
    requires s.Valid() && HasAllPassed(s, raws, from)
    ensures HasAllPassed(s, raws + [raw], if VerifyOne(s, raw).Some? then from + [|raws|] else from)
  {
    hide VerifyOne;
    var more := raws + [raw];
    forall i | 0 <= i < |more| && VerifyOne(s, more[i]).Some?
      ensures i in if VerifyOne(s, raw).Some? then from + [|raws|] else from
    {
      if i < |raws| { assert more[i] == raws[i]; } else { assert (from + [|raws|])[|from|] == |raws|; }
    }
  }

  lemma StillPassed(s: Source, raws: seq<RawClaim>, raw: RawClaim, v: VerifiedClaim, i: nat)
    requires s.Valid() && (PassedAt(s, raws, v, i) || (i == |raws| && VerifyOne(s, raw) == Some(v)))
    ensures PassedAt(s, raws + [raw], v, i)
  {
    hide VerifyOne;
  }

  lemma OneMoreClaim(s: Source, raws: seq<RawClaim>, raw: RawClaim, vs: seq<VerifiedClaim>, from: seq<nat>)
    requires s.Valid() && ArePassed(s, raws, vs, from)
    ensures var v := VerifyOne(s, raw);
            if v.Some? then ArePassed(s, raws + [raw], vs + [v.value], from + [|raws|])
            else ArePassed(s, raws + [raw], vs, from)
  {
    hide VerifyOne, PassedAt, HasAllPassed;
    AllStillPassed(s, raws, raw, from);
    forall k | 0 <= k < |vs| ensures PassedAt(s, raws + [raw], vs[k], from[k]) {
      StillPassed(s, raws, raw, vs[k], from[k]);
    }
    forall k | 0 <= k < |vs| ensures from[k] < |raws| { PassedInside(s, raws, vs[k], from[k]); }
    if VerifyOne(s, raw).Some? { StillPassed(s, raws, raw, VerifyOne(s, raw).value, |raws|); }
  }

  lemma PassedInside(s: Source, raws: seq<RawClaim>, v: VerifiedClaim, i: nat)
    requires s.Valid() && PassedAt(s, raws, v, i)
    ensures i < |raws|
  {}

  /** NO CLAIM IS LOST. The verified claims are, in order, exactly those of the proposed ones that pass. */
  lemma {:induction false} VerifiedExactly(s: Source, raws: seq<RawClaim>, k: nat) returns (from: seq<nat>)
    requires s.Valid() && k <= |raws|
    ensures ArePassed(s, raws[..k], Verified(s, raws, k), from)
  {
    hide VerifyOne, ArePassed;
    if k == 0 {
      from := [];
      NoClaims(s, raws);
    } else {
      var front := VerifiedExactly(s, raws, k - 1);
      OneMoreClaim(s, raws[..k - 1], raws[k - 1], Verified(s, raws, k - 1), front);
      assert raws[..k] == raws[..k - 1] + [raws[k - 1]];
      from := if VerifyOne(s, raws[k - 1]).Some? then front + [|raws[..k - 1]|] else front;
      assert Verified(s, raws, k - 1) + [] == Verified(s, raws, k - 1);
    }
  }

  lemma NoClaims(s: Source, raws: seq<RawClaim>)
    requires s.Valid()
    ensures ArePassed(s, raws[..0], Verified(s, raws, 0), [])
  {}

  /** All proposed citations of the first `k` claims in one list. */
  function AllCitations(raws: seq<RawClaim>, k: nat): seq<RawCitation>
    requires k <= |raws|
  {
    if k == 0 then [] else AllCitations(raws, k - 1) + raws[k - 1].citations
  }

  lemma {:induction false} UnresolvedConcat(s: Source, x: seq<RawCitation>, y: seq<RawCitation>)
    requires s.Valid()
    ensures Unresolved(s, x + y, |x + y|) == Unresolved(s, x, |x|) + Unresolved(s, y, |y|)
    decreases |y|
  {
    hide Resolve;
    if |y| == 0 {
      assert x + y == x;
    } else {
      var front := y[..|y| - 1];
      UnresolvedConcat(s, x, front);
      UnresolvedPrefix(s, x + y, |x + y| - 1);
      UnresolvedPrefix(s, y, |y| - 1);
      assert (x + y)[..|x + y| - 1] == x + front;
    }
  }

  lemma {:induction false} UnresolvedPrefix(s: Source, cs: seq<RawCitation>, k: nat)
    requires s.Valid() && k <= |cs|
    ensures Unresolved(s, cs, k) == Unresolved(s, cs[..k], k)
    decreases k
  {
    hide Resolve;
    if k > 0 {
      UnresolvedPrefix(s, cs, k - 1);
      UnresolvedPrefix(s, cs[..k], k - 1);
      assert cs[..k][..k - 1] == cs[..k - 1];
    }
  }

  /** The two counters are about all citations proposed: how many there are, and how many of them do not resolve. */
  lemma {:induction false} CitationsAreCounted(s: Source, raws: seq<RawClaim>, k: nat)
    requires s.Valid() && k <= |raws|
    ensures var all := AllCitations(raws, k);
            CitationCount(raws, k) == |all| && UnresolvedCount(s, raws, k) == |UnresolvedOf(s, all, |all|)|
  {
    hide Resolve, Unresolved;
    var all := AllCitations(raws, k);
    DroppedAreUnresolved(s, all, |all|);
    if k == 0 {
      NoneUnresolved(s, all);
    } else {
      var before := AllCitations(raws, k - 1);
      CitationsAreCounted(s, raws, k - 1);
      DroppedAreUnresolved(s, before, |before|);
      UnresolvedConcat(s, before, raws[k - 1].citations);
    }
  }

  lemma NoneUnresolved(s: Source, cs: seq<RawCitation>)
    requires s.Valid() && |cs| == 0
    ensures Unresolved(s, cs, 0) == 0
  {}

  // ------------------------------------------------------------------ the program's objects

  class VerificationStats {
    var proposedClaims: int
    var droppedClaims: int
    var proposedCitations: int
    var droppedCitations: int

    constructor ()
      ensures proposedClaims == droppedClaims == proposedCitations == droppedCitations == 0
    {
      proposedClaims, droppedClaims, proposedCitations, droppedCitations := 0, 0, 0, 0;
    }
  }

  lemma {:induction false} RunVersions(items: seq<Chunk>, v: string, k: nat)
    requires k <= |items| && forall c :: c in items ==> c.versionId == v
    ensures forall r :: r in RunsUpTo(items, k) ==> r.versionId == v
  {
    if k > 0 {
      RunVersions(items, v, k - 1);
      assert items[k - 1] in items;
    }
  }

  lemma SortedOfVersion(chunks: seq<Chunk>, v: string)
    ensures forall c :: c in SortByOrdinal(OfVersion(chunks, v)) ==> c.versionId == v
  {
    hide SortByOrdinal, OfVersion;
    var items := OfVersion(chunks, v);
    OfVersionSelects(chunks, v);
    SortKeeps(items);
    assert forall c :: c in SortByOrdinal(items) ==> c in multiset(SortByOrdinal(items)) && c in multiset(items);
  }

  /** `CitationResolver`: built once per run from the context given to the model. */
  class CitationResolver {
    const u: Tables
    const versions: map<string, Version>
    var chunks: seq<Chunk>
    var runs: seq<Run>

    ghost predicate Valid()
      reads this
    {
      State().Valid()
    }

    ghost function State(): Source
      reads this
    {
      Source(u, chunks, runs, versions)
    }

    constructor (u: Tables, chunks: seq<Chunk>, versions: map<string, Version>)
      requires u.Valid() && VersionsKnown(chunks, versions)
      ensures Valid()
      ensures this.u == u && this.versions == versions
      ensures this.chunks == ByKey(chunks) && this.runs == AllRuns(chunks)
    {
      this.u, this.versions := u, versions;
      this.chunks, this.runs := ByKey(chunks), [];
      new;
      hide ByKey, SortByOrdinal, OfVersion, VersionIds, RunsUpTo;
      var ids := VersionIds(chunks);
      VersionIdsAreThose(chunks);
      for k := 0 to |ids|
        invariant this.chunks == ByKey(chunks)
        invariant runs == RunsOfVersions(chunks, ids[..k])
        invariant forall j :: 0 <= j < |runs| ==> runs[j].versionId in versions
      {
        assert ids[..k + 1][..k] == ids[..k];
        assert ids[k] in ids && HasVersion(chunks, ids[k]);
        var items := SortByOrdinal(OfVersion(chunks, ids[k]));
        SortedOfVersion(chunks, ids[k]);
        RunVersions(items, ids[k], |items|);
        var more := BuildRuns(items);
        runs := runs + more;
      }
      assert ids[..|ids|] == ids;
    }

    /** The inner loop: a chunk continues the run of its predecessor or starts a new one. */
    static method BuildRuns(items: seq<Chunk>) returns (runs: seq<Run>)
      ensures runs == RunsUpTo(items, |items|)
    {
      runs := [];
      for k := 0 to |items|
        invariant runs == RunsUpTo(items, k)
      {
        var c := items[k];
        if k > 0 && c.ordinal == items[k - 1].ordinal + 1 {
          var last := |runs| - 1;
          runs := runs[..last] + [ExtendRun(runs[last], items[k - 1], c)];
        } else {
          runs := runs + [NewRun(c)];
        }
      }
    }

    /** `resolve`. */
    method ResolveQuote(c: RawCitation) returns (r: Option<Resolved>)
      requires Valid()
      ensures r == Resolve(State(), c)
    {
      hide Locate, Ordered, ChunkAt, PageAt, FirstMatch, KeyIndex, Cite;
      if KeyIndex(chunks, c.chunk) == |chunks| {
        return None;
      }
      var ordered := Ordered(runs, c.chunk);
      OrderedAreRuns(runs, c.chunk);
      FirstMatchIsFirst(u, ordered, c.quote);
      for i := 0 to |ordered|
        invariant i <= FirstMatch(u, ordered, c.quote)
      {
        var m := FindQuote(u, ordered[i].text, c.quote);
        if m.Some? {
          MatchInside(u, ordered[i].text, c.quote);
          return Some(Cite(chunks, versions[ordered[i].versionId], ordered[i], m.value));
        }
      }
      return None;
    }

    /** `verify_claims`: the claims that pass, and what happened counted on `stats`. */
    method VerifyClaims(raws: seq<RawClaim>, stats: VerificationStats) returns (verified: seq<VerifiedClaim>)
      requires Valid()
      modifies stats
      ensures verified == Verified(State(), raws, |raws|)
      ensures stats.proposedClaims == old(stats.proposedClaims) + |raws|
      ensures stats.droppedClaims == old(stats.droppedClaims) + |raws| - |verified|
      ensures stats.proposedCitations == old(stats.proposedCitations) + CitationCount(raws, |raws|)
      ensures stats.droppedCitations == old(stats.droppedCitations) + UnresolvedCount(State(), raws, |raws|)
    {
      hide Resolve, Strip;
      verified := [];
      for k := 0 to |raws|
        invariant verified == Verified(State(), raws, k)
        invariant stats.proposedClaims == old(stats.proposedClaims) + k
        invariant stats.droppedClaims == old(stats.droppedClaims) + k - |verified|
        invariant stats.proposedCitations == old(stats.proposedCitations) + CitationCount(raws, k)
        invariant stats.droppedCitations == old(stats.droppedCitations) + UnresolvedCount(State(), raws, k)
      {
        stats.proposedClaims := stats.proposedClaims + 1;
        var text := Strip(u, raws[k].text);
        var kept := KeepCitations(raws[k].citations, stats);
        if |text| == 0 || |kept| == 0 {
          stats.droppedClaims := stats.droppedClaims + 1;
        } else {
          verified := verified + [VerifiedClaim(text, kept)];
        }
      }
    }

    /** The loop over one claim's citations, with the identities seen so far. */
    method KeepCitations(cs: seq<RawCitation>, stats: VerificationStats) returns (kept: seq<Resolved>)
      requires Valid()
      modifies stats`proposedCitations, stats`droppedCitations
      ensures kept == Kept(State(), cs, |cs|)
      ensures stats.proposedCitations == old(stats.proposedCitations) + |cs|
      ensures stats.droppedCitations == old(stats.droppedCitations) + Unresolved(State(), cs, |cs|)
    {
      hide Resolve;
      kept := [];
      var seen: set<Ident> := {};
      for k := 0 to |cs|
        invariant kept == Kept(State(), cs, k)
        invariant forall id :: id in seen <==> Has(kept, id)
        invariant stats.proposedCitations == old(stats.proposedCitations) + k
        invariant stats.droppedCitations == old(stats.droppedCitations) + Unresolved(State(), cs, k)
      {
        stats.proposedCitations := stats.proposedCitations + 1;
        var r := ResolveQuote(cs[k]);
        if r.None? {
          stats.droppedCitations := stats.droppedCitations + 1;
        } else if IdentOf(r.value) !in seen && |kept| < MAX_CITATIONS_PER_CLAIM {
          SeenGrows(kept, r.value);
          seen := seen + {IdentOf(r.value)};
          kept := kept + [r.value];
        }
      }
    }
  }

  lemma SeenGrows(kept: seq<Resolved>, r: Resolved)
    ensures forall id :: Has(kept + [r], id) <==> Has(kept, id) || id == IdentOf(r)
  {
    forall id ensures Has(kept + [r], id) <==> Has(kept, id) || id == IdentOf(r) {
      if Has(kept, id) {
        var k :| 0 <= k < |kept| && IdentOf(kept[k]) == id;
        assert (kept + [r])[k] == kept[k];
      }
      assert (kept + [r])[|kept|] == r;
    }
  }
}
