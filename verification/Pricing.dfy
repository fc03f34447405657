/** The price of a summary: quoted from the chunk sizes, charged from the parts read. */
module Pricing {
  import opened Numbers
  import opened SummaryPlan

  datatype Settings = Settings(singlePass: int, partChars: int, maxBatches: int, summaryCredits: int,
                               extraPartCredits: int, maxCredits: int)

  /** No price is negative or above the cap. */
  function Cap(value: int, s: Settings): int { Max(0, Min(value, s.maxCredits)) }

  /** How many parts a price is quoted for. */
  function SummaryParts(lengths: seq<nat>, s: Settings): int {
    Max(1, Min(|Plan(lengths, s.singlePass, s.partChars)|, s.maxBatches))
  }

  function SummaryPrice(parts: int, s: Settings): int {
    Cap(s.summaryCredits + Max(parts - 1, 0) * s.extraPartCredits, s)
  }

  /** `quote` for a summary: before the run, from the chunk sizes. */
  function Quote(lengths: seq<nat>, s: Settings): int { SummaryPrice(SummaryParts(lengths, s), s) }

  /** `charge` for a summary: after the run, from `usage.units`. */
  function Charge(units: int, s: Settings): int { SummaryPrice(Max(units, 1), s) }

  /** How many parts `plan[:maxBatches]` keeps; a negative bound counts from the end. */
  function SliceLength(n: nat, bound: int): (r: nat)
    ensures r <= n
  {
    if bound >= 0 then Min(n, bound) else Max(n + bound, 0)
  }

  /** The parts a run reads; `usage.units` is their number. */
  function PartsRead(lengths: seq<nat>, s: Settings): seq<seq<nat>> {
    var plan := Plan(lengths, s.singlePass, s.partChars);
    plan[..SliceLength(|plan|, s.maxBatches)]
  }

  function UnitsOf(lengths: seq<nat>, s: Settings): nat { |PartsRead(lengths, s)| }

  /** The numbers of parts quoted and charged agree exactly when the batch limit is not negative, or
      so negative that at most one part is read. */
  lemma PartsAgree(lengths: seq<nat>, s: Settings)
    ensures SummaryParts(lengths, s) == Max(UnitsOf(lengths, s), 1) <==>
              s.maxBatches >= 0 || |Plan(lengths, s.singlePass, s.partChars)| + s.maxBatches <= 1
  {
    hide Plan;
  }

  /** What a price is before the cap. */
  function Uncapped(parts: int, s: Settings): int { s.summaryCredits + (parts - 1) * s.extraPartCredits }

  /** The value, cut at zero from below and at the most credits of a generation from above. */
  predicate IsCapped(price: int, value: int, s: Settings) {
    && 0 <= price
    && (0 <= value <= s.maxCredits ==> price == value)
    && (value > s.maxCredits >= 0 ==> price == s.maxCredits)
    && (value < 0 || s.maxCredits < 0 ==> price == 0)
  }

  /** A price is the base price and so much for each further part, under the cap. */
  lemma PriceIsCapped(parts: int, s: Settings)
    requires parts >= 1
    ensures IsCapped(SummaryPrice(parts, s), Uncapped(parts, s), s)
  {}

  /** ONE PASS IS THE BASE PRICE. A text that fits one pass is read whole, in one part, and quoted and charged at the
      base price. */
  lemma OnePassIsBasePrice(lengths: seq<nat>, s: Settings)
    requires s.maxBatches >= 1 && Sum(lengths, 0, |lengths|) <= s.singlePass
    ensures Concat(PartsRead(lengths, s)) == Interval(0, |lengths|)
    ensures UnitsOf(lengths, s) == if |lengths| == 0 then 0 else 1
    ensures Quote(lengths, s) == Charge(UnitsOf(lengths, s), s) && IsCapped(Quote(lengths, s), s.summaryCredits, s)
  {
    OnePassIsOnePart(lengths, s.singlePass, s.partChars);
    PlanIsPartition(lengths, s.singlePass, s.partChars);
    QuoteIsCharge(lengths, s);
    hide Plan, Sum, Concat, IsPartition, Cap, IsCapped;
    PriceIsCapped(1, s);
    var plan := Plan(lengths, s.singlePass, s.partChars);
    assert PartsRead(lengths, s) == plan[..|plan|] == plan;
  }

  /** A longer text is priced by the parts read: as many as planned, up to the limit. */
  lemma QuoteIsByParts(lengths: seq<nat>, s: Settings)
    requires s.maxBatches >= 1 && |lengths| > 0
    ensures var planned := |Plan(lengths, s.singlePass, s.partChars)|;
            && UnitsOf(lengths, s) == (if planned <= s.maxBatches then planned else s.maxBatches) >= 1
            && IsCapped(Quote(lengths, s), Uncapped(UnitsOf(lengths, s), s), s)
  {
    PlanIsNotEmpty(lengths, s);
    QuoteIsCharge(lengths, s);
    hide Plan;
    PriceIsCapped(UnitsOf(lengths, s), s);
  }

  lemma PlanIsNotEmpty(lengths: seq<nat>, s: Settings)
    requires |lengths| > 0
    ensures |Plan(lengths, s.singlePass, s.partChars)| >= 1
  {
    PlanIsPartition(lengths, s.singlePass, s.partChars);
    hide Plan;
    LastPart(Plan(lengths, s.singlePass, s.partChars), |lengths|);
  }

  /** QUOTED IS CHARGED, EXACTLY. The price quoted is the price charged if and only if the batch limit is
      not negative, or leaves at most one part, or the extra parts that are read leave the price as it is. */
  lemma QuoteIsChargeExactly(lengths: seq<nat>, s: Settings)
    ensures var left := |Plan(lengths, s.singlePass, s.partChars)| + s.maxBatches;
            Quote(lengths, s) == Charge(UnitsOf(lengths, s), s) <==>
              s.maxBatches >= 0 || left <= 1 || Cap(Uncapped(1, s), s) == Cap(Uncapped(left, s), s)
  {
    hide Plan, Cap;
    PartsAgree(lengths, s);
  }

  /** QUOTED IS CHARGED. With a batch limit that is not negative, the price quoted for a chunk sequence
      is the price charged for the run over it. */
  lemma QuoteIsCharge(lengths: seq<nat>, s: Settings)
    requires s.maxBatches >= 0
    ensures Quote(lengths, s) == Charge(UnitsOf(lengths, s), s)
  {
    hide Plan;
    PartsAgree(lengths, s);
  }

  /** A negative batch limit breaks the promise: three parts, the last one cut off, are charged as
      two but quoted as one. */
  lemma NegativeLimitCounterexample()
    ensures var s := Settings(0, 1, -1, 3, 2, 100);
            && Quote([1, 1, 1], s) == 3
            && Charge(UnitsOf([1, 1, 1], s), s) == 5
  {
    var s := Settings(0, 1, -1, 3, 2, 100);
    var lengths := [1, 1, 1];
    PlanIsPartition(lengths, 0, 1);
    assert Sum(lengths, 0, 1) == 1 && Sum(lengths, 0, 2) == 2 && Sum(lengths, 0, 3) == 3;
    assert Sum(lengths, 1, 2) == 1 && Sum(lengths, 1, 3) == 2 && Sum(lengths, 2, 3) == 1;
    GreedyGrows(lengths, 1, 1);
    GreedyGrows(lengths, 1, 2);
    GreedyGrows(lengths, 1, 3);
    assert |GreedyParts(lengths, 1, 3)| == 3;
  }

  /** `summary_quote`: credits, parts read, and parts in all. */
  function SummaryQuote(lengths: seq<nat>, s: Settings): (int, int, int) {
    (Quote(lengths, s), SummaryParts(lengths, s), Max(|Plan(lengths, s.singlePass, s.partChars)|, 1))
  }

  /** The quote shown is the price charged for the run, and it never reads more parts than there are. */
  lemma ShownQuoteIsCharged(lengths: seq<nat>, s: Settings)
    requires s.maxBatches >= 0
    ensures var (credits, parts, all) := SummaryQuote(lengths, s);
            && credits == Charge(UnitsOf(lengths, s), s) && parts == Max(UnitsOf(lengths, s), 1)
            && 1 <= parts <= all
            && (parts < all ==> parts == Max(s.maxBatches, 1))
  {
    hide Plan;
    QuoteIsCharge(lengths, s);
    PartsAgree(lengths, s);
  }

  // ------------------------------------------------------------------ coverage

  /** A chunk as the coverage report sees it. */
  datatype Sized = Sized(versionId: string, length: nat)

  function LengthsOf(chunks: seq<Sized>): (r: seq<nat>)
    ensures |r| == |chunks| && forall k :: 0 <= k < |chunks| ==> r[k] == chunks[k].length
  {
    if |chunks| == 0 then [] else [chunks[0].length] + LengthsOf(chunks[1..])
  }

  /** The characters of one version in the first `k` chunks. */
  function CharsOf(chunks: seq<Sized>, v: string, k: nat): nat
    requires k <= |chunks|
  {
    if k == 0 then 0
    else CharsOf(chunks, v, k - 1) + if chunks[k - 1].versionId == v then chunks[k - 1].length else 0
  }

  /** The report line of a source: characters in all and characters read. */
  datatype SourceCoverage = SourceCoverage(versionId: string, totalChars: nat, coveredChars: nat)

  datatype Coverage = Coverage(totalChars: nat, coveredChars: nat, partial: bool, sources: seq<SourceCoverage>)

  function SumTotals(sources: seq<SourceCoverage>): nat {
    if |sources| == 0 then 0 else SumTotals(sources[..|sources| - 1]) + sources[|sources| - 1].totalChars
  }

  function SumCovered(sources: seq<SourceCoverage>): nat {
    if |sources| == 0 then 0 else SumCovered(sources[..|sources| - 1]) + sources[|sources| - 1].coveredChars
  }

  /** The chunks of a prefix of the plan are a prefix of the chunks. */
  lemma {:induction false} PrefixIsPrefix(parts: seq<seq<nat>>, n: nat, m: nat)
    requires m <= |parts| && Concat(parts) == Interval(0, n)
    ensures |Concat(parts[..m])| <= n && Concat(parts[..m]) == Interval(0, |Concat(parts[..m])|)
    decreases |parts|
  {
    if m < |parts| {
      var front := parts[..|parts| - 1];
      assert Concat(front) == Interval(0, n)[..|Concat(front)|];
      assert Concat(front) == Interval(0, |Concat(front)|);
      PrefixIsPrefix(front, |Concat(front)|, m);
      assert front[..m] == parts[..m];
    } else {
      assert parts[..m] == parts;
    }
  }

  /** How many chunks a run reads. */
  function ChunksRead(lengths: seq<nat>, s: Settings): nat { |Concat(PartsRead(lengths, s))| }

  lemma ReadIsPrefix(lengths: seq<nat>, s: Settings)
    ensures ChunksRead(lengths, s) <= |lengths|
    ensures Concat(PartsRead(lengths, s)) == Interval(0, ChunksRead(lengths, s))
    ensures ChunksRead(lengths, s) == |lengths| <==> UnitsOf(lengths, s) == |Plan(lengths, s.singlePass, s.partChars)|
  {
    PlanIsPartition(lengths, s.singlePass, s.partChars);
    hide Plan;
    var plan := Plan(lengths, s.singlePass, s.partChars);
    PrefixIsPrefix(plan, |lengths|, UnitsOf(lengths, s));
    if UnitsOf(lengths, s) < |plan| {
      FewerPartsFewerChunks(plan, UnitsOf(lengths, s));
    } else {
      assert plan[..|plan|] == plan;
    }
  }

  lemma {:induction false} FewerPartsFewerChunks(parts: seq<seq<nat>>, m: nat)
    requires m < |parts| && NoEmptyPart(parts)
    ensures |Concat(parts[..m])| < |Concat(parts)|
    decreases |parts|
  {
    var front := parts[..|parts| - 1];
    if m < |front| {
      FewerPartsFewerChunks(front, m);
      assert front[..m] == parts[..m];
    } else {
      assert parts[..m] == front;
    }
  }

  /** Each line tells the characters of its source in all chunks and in those read. */
  ghost predicate Reports(sources: seq<SourceCoverage>, chunks: seq<Sized>, versions: seq<string>, read: nat) {
    && read <= |chunks| && |sources| <= |versions|
    && forall k :: 0 <= k < |sources| ==> sources[k] == LineOf(chunks, versions[k], read)
  }

  function LineOf(chunks: seq<Sized>, v: string, read: nat): SourceCoverage
    requires read <= |chunks|
  {
    SourceCoverage(v, CharsOf(chunks, v, |chunks|), CharsOf(chunks, v, read))
  }

  /** The coverage part of `_summary`: one line per source, in the order of the sources. */
  method CoverageOf(chunks: seq<Sized>, versions: seq<string>, s: Settings) returns (c: Coverage)
    ensures var lengths := LengthsOf(chunks);
            var read := ChunksRead(lengths, s);
            && read <= |chunks|
            && c.totalChars == Sum(lengths, 0, |lengths|) && c.coveredChars == Sum(lengths, 0, read)
            && c.partial == (c.coveredChars < c.totalChars)
            && |c.sources| == |versions| && Reports(c.sources, chunks, versions, read)
  {
    var lengths := LengthsOf(chunks);
    var total := SumOf(lengths);
    ReadIsPrefix(lengths, s);
    hide Plan, PartsRead, Interval, Sum, CharsOf;
    var order := Concat(PartsRead(lengths, s));
    var covered: map<string, nat> := map[];
    var coveredChars := 0;
    NothingYet(chunks, lengths);
    for k := 0 to |order|
      invariant coveredChars == Sum(lengths, 0, k)
      invariant forall v :: CharsOf(chunks, v, k) == if v in covered then covered[v] else 0
    {
      OneMore(chunks, lengths, k);
      var chunk := chunks[order[k]];
      var before := if chunk.versionId in covered then covered[chunk.versionId] else 0;
      covered := covered[chunk.versionId := before + chunk.length];
      coveredChars := coveredChars + chunk.length;
    }
    var sources := [];
    for k := 0 to |versions|
      invariant |sources| == k && Reports(sources, chunks, versions, |order|)
    {
      var v := versions[k];
      sources := sources + [SourceCoverage(v, CharsOf(chunks, v, |chunks|), if v in covered then covered[v] else 0)];
    }
    c := Coverage(total, coveredChars, coveredChars < total, sources);
  }

  lemma NothingYet(chunks: seq<Sized>, lengths: seq<nat>)
    ensures Sum(lengths, 0, 0) == 0 && forall v :: CharsOf(chunks, v, 0) == 0
  {}

  lemma OneMore(chunks: seq<Sized>, lengths: seq<nat>, k: nat)
    requires k < |chunks| && lengths == LengthsOf(chunks)
    ensures Sum(lengths, 0, k + 1) == Sum(lengths, 0, k) + chunks[k].length
    ensures forall v :: CharsOf(chunks, v, k + 1)
              == CharsOf(chunks, v, k) + if chunks[k].versionId == v then chunks[k].length else 0
  {}

  /** PARTIAL MEANS CUT OFF. When no chunk is empty, the report says partial exactly when the plan has
      more parts than are read. */
  lemma PartialExactly(lengths: seq<nat>, s: Settings)
    requires forall k :: 0 <= k < |lengths| ==> lengths[k] > 0
    requires s.maxBatches >= 0
    ensures ChunksRead(lengths, s) <= |lengths|
    ensures Sum(lengths, 0, ChunksRead(lengths, s)) < Sum(lengths, 0, |lengths|) <==>
              |Plan(lengths, s.singlePass, s.partChars)| > s.maxBatches
  {
    ReadIsPrefix(lengths, s);
    var read := ChunksRead(lengths, s);
    SumSplits(lengths, 0, read, |lengths|);
    hide Plan, PartsRead;
    if read < |lengths| { SomethingLeft(lengths, read); }
  }

  lemma SomethingLeft(lengths: seq<nat>, a: nat)
    requires a < |lengths| && lengths[|lengths| - 1] > 0
    ensures Sum(lengths, a, |lengths|) > 0
  {}

  ghost predicate Distinct(versions: seq<string>) {
    forall j, k :: 0 <= j < k < |versions| ==> versions[j] != versions[k]
  }

  /** What one chunk adds, summed over the sources. */
  function Share(versions: seq<string>, c: Sized, n: nat): nat
    requires n <= |versions|
  {
    if n == 0 then 0 else Share(versions, c, n - 1) + if versions[n - 1] == c.versionId then c.length else 0
  }

  lemma {:induction false} OneShare(versions: seq<string>, c: Sized, n: nat)
    requires n <= |versions| && Distinct(versions)
    ensures Share(versions, c, n) == if c.versionId in versions[..n] then c.length else 0
  {
    if n > 0 {
      OneShare(versions, c, n - 1);
      assert versions[..n] == versions[..n - 1] + [versions[n - 1]];
    }
  }

  function SumChars(chunks: seq<Sized>, versions: seq<string>, n: nat, k: nat): nat
    requires n <= |versions| && k <= |chunks|
  {
    if n == 0 then 0 else SumChars(chunks, versions, n - 1, k) + CharsOf(chunks, versions[n - 1], k)
  }

  lemma {:induction false} AddChunk(chunks: seq<Sized>, versions: seq<string>, n: nat, k: nat)
    requires n <= |versions| && k < |chunks|
    ensures SumChars(chunks, versions, n, k + 1) == SumChars(chunks, versions, n, k) + Share(versions, chunks[k], n)
  {
    if n > 0 { AddChunk(chunks, versions, n - 1, k); }
  }

  lemma {:induction false} SourcesAddUp(chunks: seq<Sized>, versions: seq<string>, k: nat)
    requires Distinct(versions) && k <= |chunks|
    requires forall j :: 0 <= j < |chunks| ==> chunks[j].versionId in versions
    ensures SumChars(chunks, versions, |versions|, k) == Sum(LengthsOf(chunks), 0, k)
  {
    if k == 0 {
      ZeroChars(chunks, versions, |versions|);
    } else {
      SourcesAddUp(chunks, versions, k - 1);
      AddChunk(chunks, versions, |versions|, k - 1);
      OneShare(versions, chunks[k - 1], |versions|);
      assert versions[..|versions|] == versions;
    }
  }

  lemma {:induction false} ZeroChars(chunks: seq<Sized>, versions: seq<string>, n: nat)
    requires n <= |versions|
    ensures SumChars(chunks, versions, n, 0) == 0
  {
    if n > 0 { ZeroChars(chunks, versions, n - 1); }
  }

  lemma {:induction false} LinesAddUp(chunks: seq<Sized>, versions: seq<string>, sources: seq<SourceCoverage>, read: nat)
    requires read <= |chunks| && |sources| <= |versions|
    requires Reports(sources, chunks, versions, read)
    ensures SumTotals(sources) == SumChars(chunks, versions, |sources|, |chunks|)
    ensures SumCovered(sources) == SumChars(chunks, versions, |sources|, read)
  {
    if |sources| > 0 { LinesAddUp(chunks, versions, sources[..|sources| - 1], read); }
  }

  /** THE LINES ADD UP. When every chunk belongs to one of the (distinct) sources, the per-source totals
      sum to the overall totals. */
  lemma CoverageAddsUp(chunks: seq<Sized>, versions: seq<string>, sources: seq<SourceCoverage>, read: nat)
    requires read <= |chunks| && |sources| == |versions| && Distinct(versions)
    requires forall j :: 0 <= j < |chunks| ==> chunks[j].versionId in versions
    requires Reports(sources, chunks, versions, read)
    ensures SumTotals(sources) == Sum(LengthsOf(chunks), 0, |chunks|)
    ensures SumCovered(sources) == Sum(LengthsOf(chunks), 0, read)
  {
    LinesAddUp(chunks, versions, sources, read);
    SourcesAddUp(chunks, versions, |chunks|);
    SourcesAddUp(chunks, versions, read);
  }
}
