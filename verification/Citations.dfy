/** Server-side citations: runs of consecutive chunks, and resolving a quote to a version fragment. */
module Citations {
  import opened Numbers
  import opened Strings
  import opened Unicode
  import opened Normalization
  import opened QuoteSearch
  import opened QuoteLocality
  import opened Chunking
  import opened Pages

  /** A chunk as the model sees it: `key` is its name in the prompt. */
  datatype Chunk = Chunk(key: string, chunkId: string, versionId: string, ordinal: nat,
                         start: nat, end: nat, text: string)

  datatype Version = Version(sourceId: string, title: string, kind: string, pages: Option<seq<Page>>)

  /** Consecutive chunks of one version; `start` is the version offset of `text[0]`. */
  datatype Run = Run(versionId: string, start: nat, text: string, chunkKeys: set<string>)

  datatype Resolved = Resolved(sourceId: string, versionId: string, chunkId: string, quote: string,
                               start: int, end: int, page: Option<PageRef>, pageEnd: Option<PageRef>,
                               sourceTitle: string, sourceKind: string)

  // ------------------------------------------------------------------ building the runs

  function Spaces(n: int): (s: string)
    ensures |s| == Max(n, 0)
    ensures forall k :: 0 <= k < |s| ==> s[k] == ' '
  {
    if n <= 0 then "" else Spaces(n - 1) + " "
  }

  function NewRun(c: Chunk): Run { Run(c.versionId, c.start, c.text, {c.key}) }

  /** The gap up to the next chunk is filled, so that an offset in the run stays an offset in the version. */
  function ExtendRun(run: Run, prev: Chunk, c: Chunk): Run {
    Run(run.versionId, run.start, run.text + Spaces(c.start - prev.end) + c.text, run.chunkKeys + {c.key})
  }

  /** The runs of the first `k` chunks of one version. */
  function RunsUpTo(items: seq<Chunk>, k: nat): (runs: seq<Run>)
    requires k <= |items|
    ensures k > 0 ==> |runs| > 0
  {
    if k == 0 then []
    else
      var runs := RunsUpTo(items, k - 1);
      var c := items[k - 1];
      if k > 1 && c.ordinal == items[k - 2].ordinal + 1 then
        runs[..|runs| - 1] + [ExtendRun(runs[|runs| - 1], items[k - 2], c)]
      else runs + [NewRun(c)]
  }

  /** Stable insertion by ordinal. */
  function Insert(items: seq<Chunk>, c: Chunk): seq<Chunk> {
    if |items| > 0 && items[|items| - 1].ordinal > c.ordinal
    then Insert(items[..|items| - 1], c) + [items[|items| - 1]]
    else items + [c]
  }

  function SortByOrdinal(items: seq<Chunk>): seq<Chunk> {
    if |items| == 0 then [] else Insert(SortByOrdinal(items[..|items| - 1]), items[|items| - 1])
  }

  function OfVersion(chunks: seq<Chunk>, v: string): seq<Chunk> {
    if |chunks| == 0 then []
    else
      var c := chunks[|chunks| - 1];
      OfVersion(chunks[..|chunks| - 1], v) + if c.versionId == v then [c] else []
  }

  /** The versions in the order in which they first appear. */
  function VersionIds(chunks: seq<Chunk>): seq<string> {
    if |chunks| == 0 then []
    else
      var ids := VersionIds(chunks[..|chunks| - 1]);
      var v := chunks[|chunks| - 1].versionId;
      if v in ids then ids else ids + [v]
  }

  function RunsOfVersion(chunks: seq<Chunk>, v: string): seq<Run> {
    var items := SortByOrdinal(OfVersion(chunks, v));
    RunsUpTo(items, |items|)
  }

  function RunsOfVersions(chunks: seq<Chunk>, ids: seq<string>): seq<Run> {
    if |ids| == 0 then []
    else RunsOfVersions(chunks, ids[..|ids| - 1]) + RunsOfVersion(chunks, ids[|ids| - 1])
  }

  function AllRuns(chunks: seq<Chunk>): seq<Run> { RunsOfVersions(chunks, VersionIds(chunks)) }

  // ------------------------------------------------------------------ the dictionary by key

  function KeyIndex(chunks: seq<Chunk>, key: string): (i: nat)
    ensures i <= |chunks|
    ensures i < |chunks| ==> chunks[i].key == key
    ensures forall k :: 0 <= k < i ==> chunks[k].key != key
  {
    if |chunks| == 0 || chunks[0].key == key then 0 else 1 + KeyIndex(chunks[1..], key)
  }

  /** The values of `{c.key: c}`: a later chunk with a known key takes the earlier one's place. */
  function ByKey(chunks: seq<Chunk>): seq<Chunk> {
    if |chunks| == 0 then []
    else
      var dict := ByKey(chunks[..|chunks| - 1]);
      var c := chunks[|chunks| - 1];
      var i := KeyIndex(dict, c.key);
      if i < |dict| then dict[i := c] else dict + [c]
  }

  ghost predicate DistinctKeys(chunks: seq<Chunk>) {
    forall j, k :: 0 <= j < k < |chunks| ==> chunks[j].key != chunks[k].key
  }

  lemma {:induction false} DistinctKeysStay(chunks: seq<Chunk>)
    requires DistinctKeys(chunks)
    ensures ByKey(chunks) == chunks
  {
    if |chunks| > 0 {
      DistinctKeysStay(chunks[..|chunks| - 1]);
    }
  }

  /** `_chunk_at`: the chunk of the version that holds the offset, `""` if there is none. */
  function ChunkAt(dict: seq<Chunk>, versionId: string, offset: int): (id: string)
    ensures (exists c :: c in dict && c.versionId == versionId && c.start <= offset < c.end) ==>
              exists c :: c in dict && c.versionId == versionId && c.start <= offset < c.end && c.chunkId == id
  {
    if |dict| == 0 then ""
    else if dict[0].versionId == versionId && dict[0].start <= offset < dict[0].end then dict[0].chunkId
    else ChunkAt(dict[1..], versionId, offset)
  }

  // ------------------------------------------------------------------ resolving

  function RunsWith(runs: seq<Run>, key: string, wanted: bool): seq<Run> {
    if |runs| == 0 then []
    else (if (key in runs[0].chunkKeys) == wanted then [runs[0]] else []) + RunsWith(runs[1..], key, wanted)
  }

  /** The stable sort that puts the runs holding the named chunk first. */
  function Ordered(runs: seq<Run>, key: string): seq<Run> {
    RunsWith(runs, key, true) + RunsWith(runs, key, false)
  }

  /** The index of the first run that holds the quote. */
  function FirstMatch(u: Tables, runs: seq<Run>, quote: string): (i: nat)
    ensures i <= |runs|
  {
    hide Locate;
    if |runs| == 0 || Locate(u, runs[0].text, quote).Some? then 0 else 1 + FirstMatch(u, runs[1..], quote)
  }

  lemma {:induction false} FirstMatchIsFirst(u: Tables, runs: seq<Run>, quote: string)
    ensures var i := FirstMatch(u, runs, quote);
            && (i < |runs| ==> Locate(u, runs[i].text, quote).Some?)
            && (forall k :: 0 <= k < i ==> Locate(u, runs[k].text, quote).None?)
  {
    hide Locate;
    if |runs| > 0 && Locate(u, runs[0].text, quote).None? {
      FirstMatchIsFirst(u, runs[1..], quote);
    }
  }

  function Cite(dict: seq<Chunk>, version: Version, run: Run, m: Match): Resolved
    requires 0 <= m.start <= m.end <= |run.text|
  {
    var start, end := run.start + m.start, run.start + m.end;
    Resolved(version.sourceId, run.versionId, ChunkAt(dict, run.versionId, start), run.text[m.start..m.end],
             start, end, PageAt(version.pages, start), PageAt(version.pages, Max(end - 1, start)),
             version.title, version.kind)
  }

  function Resolution(u: Tables, dict: seq<Chunk>, runs: seq<Run>, versions: map<string, Version>,
                      key: string, quote: string): Option<Resolved>
    requires u.Valid()
    requires forall k :: 0 <= k < |runs| ==> runs[k].versionId in versions
  {
    if KeyIndex(dict, key) == |dict| then None
    else
      var ordered := Ordered(runs, key);
      var i := FirstMatch(u, ordered, quote);
      if i == |ordered| then None
      else
        OrderedAreRuns(runs, key);
        FirstMatchIsFirst(u, ordered, quote);
        var m := Locate(u, ordered[i].text, quote).value;
        MatchInside(u, ordered[i].text, quote);
        Some(Cite(dict, versions[ordered[i].versionId], ordered[i], m))
  }

  lemma MatchInside(u: Tables, text: string, quote: string)
    requires u.Valid() && Locate(u, text, quote).Some?
    ensures var m := Locate(u, text, quote).value; 0 <= m.start < m.end <= |text|
  {
    FoundAgain(u, text, quote);
  }

  lemma {:induction false} RunsWithAreRuns(runs: seq<Run>, key: string, wanted: bool)
    ensures forall r :: r in RunsWith(runs, key, wanted) ==> r in runs
  {
    if |runs| > 0 { RunsWithAreRuns(runs[1..], key, wanted); }
  }

  lemma OrderedAreRuns(runs: seq<Run>, key: string)
    ensures forall k :: 0 <= k < |Ordered(runs, key)| ==> Ordered(runs, key)[k] in runs
  {
    RunsWithAreRuns(runs, key, true);
    RunsWithAreRuns(runs, key, false);
  }

  // ------------------------------------------------------------------ real fragments

  /** `c` is one of the chunks that the version's text was split into. */
  ghost predicate IsChunkOf(c: Chunk, spans: seq<ChunkSpan>) {
    && c.ordinal < |spans|
    && spans[c.ordinal].start == c.start && spans[c.ordinal].end == c.end && spans[c.ordinal].text == c.text
  }

  /** A context: any selection of chunks of the versions, each split by `chunk_text`. */
  ghost predicate IsContext(u: Tables, target: nat, chunks: seq<Chunk>, texts: map<string, string>,
                            splits: map<string, seq<ChunkSpan>>)
  {
    forall c :: c in chunks ==>
      && c.versionId in texts && c.versionId in splits
      && Tiles(u, texts[c.versionId], target, splits[c.versionId])
      && IsChunkOf(c, splits[c.versionId])
      && c.chunkId != ""
  }

  ghost predicate Covers(c: Chunk, v: string, p: int) { c.versionId == v && c.start <= p < c.end }

  ghost predicate Covered(chunks: seq<Chunk>, v: string, p: int) {
    exists c :: c in chunks && Covers(c, v, p)
  }

  /** Inside the chunks the character is the version's own; between them it is a space that stands
      for whitespace. */
  ghost predicate CharOk(u: Tables, text: string, chunks: seq<Chunk>, v: string, p: int, ch: char) {
    && 0 <= p < |text|
    && (if Covered(chunks, v, p) then ch == text[p] else ch == ' ' && text[p] in u.space)
  }

  ghost predicate RunOk(u: Tables, text: string, chunks: seq<Chunk>, run: Run) {
    forall k :: 0 <= k < |run.text| ==> CharOk(u, text, chunks, run.versionId, run.start + k, run.text[k])
  }

  /** What a tiling says about one of its chunks. */
  lemma TileAt(u: Tables, text: string, target: nat, spans: seq<ChunkSpan>, k: nat)
    requires Tiles(u, text, target, spans) && k < |spans|
    ensures var c := spans[k];
            && c.start < c.end <= |text| && |c.text| == c.end - c.start
            && (forall i :: 0 <= i < |c.text| ==> c.text[i] == text[c.start + i])
    ensures InOrderAndDisjoint(spans)
  {
    hide NothingVisibleOutside, InOrderAndDisjoint;
    assert GoodChunk(u, text, target, spans[k]);
  }

  lemma ChunkIsReal(u: Tables, text: string, target: nat, spans: seq<ChunkSpan>, chunks: seq<Chunk>, c: Chunk)
    requires Tiles(u, text, target, spans) && IsChunkOf(c, spans) && c in chunks
    ensures c.start < c.end <= |text| && |c.text| == c.end - c.start
    ensures forall k :: 0 <= k < |c.text| ==> CharOk(u, text, chunks, c.versionId, c.start + k, c.text[k])
  {
    hide Tiles;
    TileAt(u, text, target, spans, c.ordinal);
    forall k | 0 <= k < |c.text| ensures CharOk(u, text, chunks, c.versionId, c.start + k, c.text[k]) {
      assert Covers(c, c.versionId, c.start + k);
    }
  }

  /** A position between two neighbouring chunks is in no chunk. */
  lemma BetweenChunks(spans: seq<ChunkSpan>, i: nat, p: int)
    requires InOrderAndDisjoint(spans) && forall k :: 0 <= k < |spans| ==> spans[k].start <= spans[k].end
    requires i + 1 < |spans| && spans[i].end <= p < spans[i + 1].start
    ensures forall k :: 0 <= k < |spans| ==> !(spans[k].start <= p < spans[k].end)
  {
    forall k | 0 <= k < |spans| ensures !(spans[k].start <= p < spans[k].end) {
      if k < i { assert spans[k].end <= spans[i].start; }
      if k > i + 1 { assert spans[i + 1].end <= spans[k].start; }
    }
  }

  lemma StartsBeforeEnds(u: Tables, text: string, target: nat, spans: seq<ChunkSpan>)
    requires AllGood(u, text, target, spans)
    ensures forall k :: 0 <= k < |spans| ==> spans[k].start <= spans[k].end
  {
    forall k | 0 <= k < |spans| ensures spans[k].start <= spans[k].end {
      assert GoodChunk(u, text, target, spans[k]);
    }
  }

  lemma GapOk(u: Tables, text: string, chunks: seq<Chunk>, v: string, p: int)
    requires 0 <= p < |text| && text[p] in u.space
    requires forall d :: d in chunks ==> !Covers(d, v, p)
    ensures CharOk(u, text, chunks, v, p, ' ')
  {}

  /** Between two neighbouring chunks there is nothing but whitespace. */
  lemma GapIsSpace(u: Tables, text: string, target: nat, spans: seq<ChunkSpan>, chunks: seq<Chunk>,
                   prev: Chunk, c: Chunk, p: int)
    requires Tiles(u, text, target, spans) && IsChunkOf(prev, spans) && IsChunkOf(c, spans)
    requires c.ordinal == prev.ordinal + 1 && prev.end <= p < c.start
    requires forall d :: d in chunks && d.versionId == c.versionId ==> IsChunkOf(d, spans)
    ensures CharOk(u, text, chunks, c.versionId, p, ' ')
  {
    hide AllGood, GoodChunk, CharOk;
    TileAt(u, text, target, spans, prev.ordinal);
    TileAt(u, text, target, spans, c.ordinal);
    StartsBeforeEnds(u, text, target, spans);
    BetweenChunks(spans, prev.ordinal, p);
    assert forall d :: d in chunks && d.versionId == c.versionId ==> !Covers(d, c.versionId, p);
    GapOk(u, text, chunks, c.versionId, p);
  }

  /** The runs of one version are real, and the last one ends where the last chunk ends. */
  lemma {:induction false} RunsAreReal(u: Tables, text: string, target: nat, spans: seq<ChunkSpan>,
                                       chunks: seq<Chunk>, v: string, items: seq<Chunk>, k: nat)
    requires Tiles(u, text, target, spans) && k <= |items|
    requires forall c :: c in items ==> c in chunks && c.versionId == v
    requires forall c :: c in chunks && c.versionId == v ==> IsChunkOf(c, spans)
    ensures var runs := RunsUpTo(items, k);
            && (forall r :: r in runs ==> r.versionId == v && RunOk(u, text, chunks, r))
            && (k > 0 ==> runs[|runs| - 1].start + |runs[|runs| - 1].text| == items[k - 1].end)
  {
    hide Tiles, IsChunkOf, RunOk, Spaces;
    if k > 0 {
      RunsAreReal(u, text, target, spans, chunks, v, items, k - 1);
      var runs := RunsUpTo(items, k - 1);
      var c := items[k - 1];
      ChunkIsReal(u, text, target, spans, chunks, c);
      if k > 1 && c.ordinal == items[k - 2].ordinal + 1 {
        var last := runs[|runs| - 1];
        assert last in runs;
        assert items[k - 2] in items;
        ExtendIsReal(u, text, target, spans, chunks, last, items[k - 2], c);
      } else {
        NewIsReal(u, text, chunks, c);
      }
    }
  }

  lemma NewIsReal(u: Tables, text: string, chunks: seq<Chunk>, c: Chunk)
    requires forall k :: 0 <= k < |c.text| ==> CharOk(u, text, chunks, c.versionId, c.start + k, c.text[k])
    ensures RunOk(u, text, chunks, NewRun(c))
  {}

  lemma ExtendIsReal(u: Tables, text: string, target: nat, spans: seq<ChunkSpan>, chunks: seq<Chunk>,
                     run: Run, prev: Chunk, c: Chunk)
    requires Tiles(u, text, target, spans) && IsChunkOf(prev, spans) && IsChunkOf(c, spans) && c in chunks
    requires forall d :: d in chunks && d.versionId == c.versionId ==> IsChunkOf(d, spans)
    requires RunOk(u, text, chunks, run) && run.versionId == c.versionId
    requires c.ordinal == prev.ordinal + 1 && run.start + |run.text| == prev.end
    ensures RunOk(u, text, chunks, ExtendRun(run, prev, c))
    ensures run.start + |ExtendRun(run, prev, c).text| == c.end
  {
    hide Tiles, CharOk;
    ChunkIsReal(u, text, target, spans, chunks, c);
    TileAt(u, text, target, spans, prev.ordinal);
    assert prev.end <= c.start;
    var more := ExtendRun(run, prev, c);
    var gap := c.start - prev.end;
    forall k | 0 <= k < |more.text| ensures CharOk(u, text, chunks, c.versionId, run.start + k, more.text[k]) {
      if k < |run.text| {
        assert more.text[k] == run.text[k];
      } else if k < |run.text| + gap {
        GapIsSpace(u, text, target, spans, chunks, prev, c, run.start + k);
      } else {
        assert more.text[k] == c.text[k - |run.text| - gap];
      }
    }
  }

  // ------------------------------------------------------------------ every run is real

  lemma {:induction false} InsertKeeps(items: seq<Chunk>, c: Chunk)
    ensures multiset(Insert(items, c)) == multiset(items) + multiset{c}
  {
    if |items| > 0 && items[|items| - 1].ordinal > c.ordinal {
      InsertKeeps(items[..|items| - 1], c);
      assert items == items[..|items| - 1] + [items[|items| - 1]];
    }
  }

  lemma OneMoreOf(items: seq<Chunk>, c: Chunk)
    ensures multiset(items + [c]) == multiset(items) + multiset{c}
  {}

  lemma SortOfLast(items: seq<Chunk>)
    requires |items| > 0
    ensures SortByOrdinal(items) == Insert(SortByOrdinal(items[..|items| - 1]), items[|items| - 1])
  {}

  lemma {:induction false} SortKeeps(items: seq<Chunk>)
    ensures multiset(SortByOrdinal(items)) == multiset(items)
  {
    if |items| > 0 {
      hide Insert, SortByOrdinal;
      var front, last := items[..|items| - 1], items[|items| - 1];
      SortKeeps(front);
      SortOfLast(items);
      InsertKeeps(SortByOrdinal(front), last);
      OneMoreOf(front, last);
      assert items == front + [last];
    }
  }

  lemma {:induction false} OfVersionSelects(chunks: seq<Chunk>, v: string)
    ensures forall c :: c in OfVersion(chunks, v) <==> c in chunks && c.versionId == v
  {
    if |chunks| > 0 {
      OfVersionSelects(chunks[..|chunks| - 1], v);
      assert chunks == chunks[..|chunks| - 1] + [chunks[|chunks| - 1]];
    }
  }

  ghost predicate HasVersion(chunks: seq<Chunk>, v: string) {
    exists c :: c in chunks && c.versionId == v
  }

  lemma {:induction false} VersionIdsAreThose(chunks: seq<Chunk>)
    ensures forall v :: v in VersionIds(chunks) <==> HasVersion(chunks, v)
  {
    if |chunks| > 0 {
      VersionIdsAreThose(chunks[..|chunks| - 1]);
      assert chunks == chunks[..|chunks| - 1] + [chunks[|chunks| - 1]];
    }
  }

  /** A run of the context's own text: its version is known and every character is accounted for. */
  ghost predicate RealRun(u: Tables, chunks: seq<Chunk>, texts: map<string, string>, r: Run) {
    && r.versionId in texts && RunOk(u, texts[r.versionId], chunks, r)
    && HasVersion(chunks, r.versionId)
  }

  lemma VersionRunsAreReal(u: Tables, target: nat, chunks: seq<Chunk>, texts: map<string, string>,
                           splits: map<string, seq<ChunkSpan>>, v: string)
    requires IsContext(u, target, chunks, texts, splits)
    requires HasVersion(chunks, v)
    ensures forall r :: r in RunsOfVersion(chunks, v) ==> RealRun(u, chunks, texts, r)
  {
    hide Tiles, RunOk, IsChunkOf, RunsUpTo, SortByOrdinal, OfVersion;
    var items := OfVersion(chunks, v);
    OfVersionSelects(chunks, v);
    SortKeeps(items);
    var sorted := SortByOrdinal(items);
    assert forall c :: c in sorted ==> c in multiset(sorted) && c in multiset(items);
    RunsAreReal(u, texts[v], target, splits[v], chunks, v, sorted, |sorted|);
  }

  lemma {:induction false} RunsOfAreReal(u: Tables, target: nat, chunks: seq<Chunk>, texts: map<string, string>,
                                         splits: map<string, seq<ChunkSpan>>, ids: seq<string>)
    requires IsContext(u, target, chunks, texts, splits)
    requires forall v :: v in ids ==> HasVersion(chunks, v)
    ensures forall r :: r in RunsOfVersions(chunks, ids) ==> RealRun(u, chunks, texts, r)
  {
    hide IsContext, RealRun, RunsOfVersion, HasVersion;
    if |ids| > 0 {
      RunsOfAreReal(u, target, chunks, texts, splits, ids[..|ids| - 1]);
      VersionRunsAreReal(u, target, chunks, texts, splits, ids[|ids| - 1]);
    }
  }

  lemma AllRunsAreReal(u: Tables, target: nat, chunks: seq<Chunk>, texts: map<string, string>,
                       splits: map<string, seq<ChunkSpan>>)
    requires IsContext(u, target, chunks, texts, splits)
    ensures forall r :: r in AllRuns(chunks) ==> RealRun(u, chunks, texts, r)
  {
    hide IsContext, RealRun;
    VersionIdsAreThose(chunks);
    RunsOfAreReal(u, target, chunks, texts, splits, VersionIds(chunks));
  }

  // ------------------------------------------------------------------ what a resolved citation is

  /** The first and the last character of a match are visible. */
  lemma EdgesAreVisible(u: Tables, text: string, quote: string)
    requires u.Valid() && Locate(u, text, quote).Some?
    ensures var m := Locate(u, text, quote).value;
            && 0 <= m.start < m.end <= |text|
            && !IsBlank(MapChar(u, text[m.start])) && !IsBlank(MapChar(u, text[m.end - 1]))
  {
    hide NormalizeFrom, MapChar, QuoteParts, Locate;
    var n := Normalize(u, text);
    var parts := QuoteParts(u, quote);
    var at := LocateIsBest(u, text, quote);
    FirstCharacter(Chars(n), parts, at, 0);
    LastCharacter(Chars(n), parts, at, 0);
    var end := EndOf(parts, at, 0);
    assert n[at[0]].c == parts[0][0] && n[end - 1].c == Chars(n)[end - 1];
    VisibleSource(u, text, at[0]);
    VisibleSource(u, text, end - 1);
    MatchInside(u, text, quote);
  }

  lemma BlanksAreBlank(u: Tables)
    requires u.Valid()
    ensures IsBlank(MapChar(u, ' ')) && IsBlank(MapChar(u, '\n'))
  {}

  /** A visible character of a real run lies in one of the chunks. */
  lemma VisibleIsCovered(u: Tables, text: string, chunks: seq<Chunk>, v: string, p: int, ch: char)
    requires u.Valid() && CharOk(u, text, chunks, v, p, ch) && !IsBlank(MapChar(u, ch))
    ensures Covered(chunks, v, p) && text[p] == ch != '\n'
  {
    BlanksAreBlank(u);
  }

  ghost predicate VersionsKnown(chunks: seq<Chunk>, versions: map<string, Version>) {
    forall c :: c in chunks ==> c.versionId in versions
  }

  lemma RunVersionsKnown(u: Tables, target: nat, chunks: seq<Chunk>, texts: map<string, string>,
                         splits: map<string, seq<ChunkSpan>>, versions: map<string, Version>)
    requires IsContext(u, target, chunks, texts, splits) && VersionsKnown(chunks, versions)
    ensures forall k :: 0 <= k < |AllRuns(chunks)| ==> AllRuns(chunks)[k].versionId in versions
  {
    hide IsContext, RunOk, AllRuns;
    AllRunsAreReal(u, target, chunks, texts, splits);
    forall k | 0 <= k < |AllRuns(chunks)| ensures AllRuns(chunks)[k].versionId in versions {
      assert AllRuns(chunks)[k] in AllRuns(chunks);
    }
  }

  /** The quote is `start..end` of the version, character by character. */
  ghost predicate IsFaithful(u: Tables, chunks: seq<Chunk>, text: string, r: Resolved) {
    && 0 <= r.start < r.end <= |text| && |r.quote| == r.end - r.start
    && forall k :: 0 <= k < |r.quote| ==> CharOk(u, text, chunks, r.versionId, r.start + k, r.quote[k])
  }

  /** Both ends are visible characters of chunks of the context; `chunkId` names the first one. */
  ghost predicate IsAnchored(chunks: seq<Chunk>, text: string, r: Resolved) {
    && 0 <= r.start < r.end <= |text|
    && Covered(chunks, r.versionId, r.start) && Covered(chunks, r.versionId, r.end - 1)
    && text[r.start] != '\n' && text[r.end - 1] != '\n'
    && r.chunkId != ""
    && exists c :: c in chunks && Covers(c, r.versionId, r.start) && c.chunkId == r.chunkId
  }

  ghost predicate IsAttributed(version: Version, r: Resolved) {
    && r.page == PageAt(version.pages, r.start) && r.pageEnd == PageAt(version.pages, r.end - 1)
    && r.sourceId == version.sourceId && r.sourceTitle == version.title && r.sourceKind == version.kind
  }

  /** What a citation guarantees about the version text it points into. */
  ghost predicate IsReal(u: Tables, chunks: seq<Chunk>, texts: map<string, string>,
                         versions: map<string, Version>, quote: string, r: Resolved)
  {
    && r.versionId in texts && r.versionId in versions
    && IsFaithful(u, chunks, texts[r.versionId], r)
    && IsAnchored(chunks, texts[r.versionId], r)
    && IsAttributed(versions[r.versionId], r)
    && Locate(u, r.quote, quote) == Some(Match(0, |r.quote|))
  }

  lemma CiteIsFaithful(u: Tables, chunks: seq<Chunk>, text: string, version: Version, run: Run, m: Match)
    requires RunOk(u, text, chunks, run) && 0 <= m.start < m.end <= |run.text|
    ensures IsFaithful(u, chunks, text, Cite(chunks, version, run, m))
  {
    hide CharOk, PageAt, ChunkAt;
    var r := Cite(chunks, version, run, m);
    forall k | 0 <= k < |r.quote| ensures CharOk(u, text, chunks, r.versionId, r.start + k, r.quote[k]) {
      assert CharOk(u, text, chunks, run.versionId, run.start + (m.start + k), run.text[m.start + k]);
    }
    Bounds(u, text, chunks, run, m);
  }

  lemma Bounds(u: Tables, text: string, chunks: seq<Chunk>, run: Run, m: Match)
    requires RunOk(u, text, chunks, run) && 0 <= m.start < m.end <= |run.text|
    ensures run.start + m.end <= |text|
  {
    assert CharOk(u, text, chunks, run.versionId, run.start + (m.end - 1), run.text[m.end - 1]);
  }

  lemma CiteIsAnchored(u: Tables, chunks: seq<Chunk>, text: string, version: Version, run: Run, m: Match)
    requires u.Valid() && RunOk(u, text, chunks, run) && 0 <= m.start < m.end <= |run.text|
    requires forall c :: c in chunks ==> c.chunkId != ""
    requires !IsBlank(MapChar(u, run.text[m.start])) && !IsBlank(MapChar(u, run.text[m.end - 1]))
    ensures IsAnchored(chunks, text, Cite(chunks, version, run, m))
  {
    hide MapChar, PageAt, ChunkAt, CharOk, Covered;
    var v := run.versionId;
    assert CharOk(u, text, chunks, v, run.start + m.start, run.text[m.start]);
    assert CharOk(u, text, chunks, v, run.start + (m.end - 1), run.text[m.end - 1]);
    VisibleIsCovered(u, text, chunks, v, run.start + m.start, run.text[m.start]);
    VisibleIsCovered(u, text, chunks, v, run.start + (m.end - 1), run.text[m.end - 1]);
    HoldsStart(chunks, v, run.start + m.start);
    Bounds(u, text, chunks, run, m);
  }

  lemma CiteIsReal(u: Tables, chunks: seq<Chunk>, texts: map<string, string>, versions: map<string, Version>,
                   run: Run, quote: string)
    requires u.Valid() && RealRun(u, chunks, texts, run) && run.versionId in versions
    requires forall c :: c in chunks ==> c.chunkId != ""
    requires Locate(u, run.text, quote).Some?
    ensures var m := Locate(u, run.text, quote).value;
            && 0 <= m.start < m.end <= |run.text|
            && IsReal(u, chunks, texts, versions, quote, Cite(chunks, versions[run.versionId], run, m))
  {
    hide Locate, MapChar, PageAt, ChunkAt, RunOk, IsFaithful, IsAnchored;
    EdgesAreVisible(u, run.text, quote);
    FoundAgain(u, run.text, quote);
    var m := Locate(u, run.text, quote).value;
    var version := versions[run.versionId];
    CiteIsFaithful(u, chunks, texts[run.versionId], version, run, m);
    CiteIsAnchored(u, chunks, texts[run.versionId], version, run, m);
  }

  lemma HoldsStart(chunks: seq<Chunk>, v: string, p: int)
    requires Covered(chunks, v, p)
    ensures exists c :: c in chunks && Covers(c, v, p) && c.chunkId == ChunkAt(chunks, v, p)
  {
    var d :| d in chunks && Covers(d, v, p);
    var c :| c in chunks && c.versionId == v && c.start <= p < c.end && c.chunkId == ChunkAt(chunks, v, p);
    assert Covers(c, v, p);
  }

  /** REAL FRAGMENT. For any selection of chunks of any versions, whatever `resolve` returns is a
      fragment of its version: exact offsets, the version's own characters (spaces only where
      whitespace separates two chunks), a chunk of the context that holds the first character, and a
      quote that the search finds whole. */
  lemma ResolvedIsReal(u: Tables, target: nat, chunks: seq<Chunk>, texts: map<string, string>,
                       splits: map<string, seq<ChunkSpan>>, versions: map<string, Version>,
                       key: string, quote: string)
    requires u.Valid() && IsContext(u, target, chunks, texts, splits)
    requires DistinctKeys(chunks) && VersionsKnown(chunks, versions)
    ensures forall k :: 0 <= k < |AllRuns(chunks)| ==> AllRuns(chunks)[k].versionId in versions
    ensures var r := Resolution(u, ByKey(chunks), AllRuns(chunks), versions, key, quote);
            r.Some? ==> IsReal(u, chunks, texts, versions, quote, r.value)
  {
    RunVersionsKnown(u, target, chunks, texts, splits, versions);
    AllRunsAreReal(u, target, chunks, texts, splits);
    DistinctKeysStay(chunks);
    var runs := AllRuns(chunks);
    var ordered := Ordered(runs, key);
    OrderedAreRuns(runs, key);
    FirstMatchIsFirst(u, ordered, quote);
    var i := FirstMatch(u, ordered, quote);
    if i < |ordered| {
      hide Locate, RealRun, IsReal, AllRuns, Ordered, FirstMatch, Cite;
      assert ordered[i] in runs;
      CiteIsReal(u, chunks, texts, versions, ordered[i], quote);
    }
  }

  // ------------------------------------------------------------------ completeness of the search

  lemma {:induction false} RunsWithFinds(runs: seq<Run>, key: string, wanted: bool)
    ensures forall r :: r in RunsWith(runs, key, wanted) <==> r in runs && (key in r.chunkKeys) == wanted
  {
    if |runs| > 0 { RunsWithFinds(runs[1..], key, wanted); }
  }

  ghost predicate Holds(u: Tables, run: Run, quote: string) { Locate(u, run.text, quote).Some? }

  /** A citation is refused only if its chunk is not in the context or no run holds the quote; and
      the runs around the named chunk have precedence. */
  lemma ResolutionIsComplete(u: Tables, dict: seq<Chunk>, runs: seq<Run>, versions: map<string, Version>,
                             key: string, quote: string)
    requires u.Valid() && forall k :: 0 <= k < |runs| ==> runs[k].versionId in versions
    ensures var r := Resolution(u, dict, runs, versions, key, quote);
            && (r.Some? <==>
                (exists c :: c in dict && c.key == key) && (exists run :: run in runs && Holds(u, run, quote)))
            && (r.Some? && (exists run :: run in runs && key in run.chunkKeys && Holds(u, run, quote)) ==>
                exists run :: run in runs && key in run.chunkKeys && run.versionId == r.value.versionId
                  && run.start <= r.value.start < run.start + |run.text|)
  {
    hide Locate, PageAt, ChunkAt;
    RunsWithFinds(runs, key, true);
    RunsWithFinds(runs, key, false);
    var ordered := Ordered(runs, key);
    FirstMatchIsFirst(u, ordered, quote);
    var i := FirstMatch(u, ordered, quote);
    if i < |ordered| {
      MatchInside(u, ordered[i].text, quote);
      if exists run :: run in runs && key in run.chunkKeys && Holds(u, run, quote) {
        var run :| run in runs && key in run.chunkKeys && Holds(u, run, quote);
        assert run in RunsWith(runs, key, true);
        var k :| 0 <= k < |RunsWith(runs, key, true)| && RunsWith(runs, key, true)[k] == run;
        assert ordered[k] == run;
        assert i <= k;
        assert ordered[i] in RunsWith(runs, key, true);
      }
    } else {
      forall run | run in runs ensures !Holds(u, run, quote) {
        assert run in ordered;
      }
    }
    KeyIsFound(dict, key);
  }

  lemma KeyIsFound(dict: seq<Chunk>, key: string)
    ensures KeyIndex(dict, key) < |dict| <==> exists c :: c in dict && c.key == key
  {}

  // ------------------------------------------------------------------ pages, end to end

  /** The page called `ref` holds, in its own extracted text, the character at `offset`. */
  ghost predicate HoldsAt(text: string, pages: seq<Page>, parts: seq<string>, ref: Option<PageRef>, offset: int) {
    && ref.Some? && 1 <= ref.value.physical <= |pages| == |parts|
    && var i := ref.value.physical - 1;
       && pages[i].start <= offset < pages[i].end && offset - pages[i].start < |parts[i]|
       && offset < |text| && parts[i][offset - pages[i].start] == text[offset]
  }

  lemma PageNumber(text: string, pages: seq<Page>, parts: seq<string>, offset: nat)
    requires PagesTile(text, pages, parts) && |pages| > 0
    ensures |pages| == |parts|
    ensures var i := PageIndex(pages, offset);
            i < |pages| && PageAt(Some(pages), offset).Some? && PageAt(Some(pages), offset).value.physical == i + 1
  {
    hide PageIndex;
    assert PageOk(text, pages, parts, PageIndex(pages, offset));
  }

  lemma PageOfVisible(text: string, pages: seq<Page>, parts: seq<string>, offset: nat)
    requires PagesTile(text, pages, parts) && offset < |text| && text[offset] != '\n'
    ensures HoldsAt(text, pages, parts, PageAt(Some(pages), offset), offset)
  {
    hide PageIndex, PagesTile, PageAt;
    PageHoldsCharacter(text, pages, parts, offset);
    PageNumber(text, pages, parts, offset);
  }

  /** RIGHT PAGES. For a PDF version, `page` and `pageEnd` name the pages whose extracted text holds
      the first and the last character of the quote - including documents with empty pages. */
  lemma PagesOfCitation(u: Tables, chunks: seq<Chunk>, texts: map<string, string>,
                        versions: map<string, Version>, quote: string, r: Resolved, parts: seq<string>)
    requires IsReal(u, chunks, texts, versions, quote, r)
    requires versions[r.versionId].pages.Some?
    requires PagesTile(texts[r.versionId], versions[r.versionId].pages.value, parts)
    ensures var text, pages := texts[r.versionId], versions[r.versionId].pages.value;
            HoldsAt(text, pages, parts, r.page, r.start) && HoldsAt(text, pages, parts, r.pageEnd, r.end - 1)
  {
    hide Locate, PageAt, IsFaithful, HoldsAt, PagesTile, Covered, Covers;
    PageOfVisible(texts[r.versionId], versions[r.versionId].pages.value, parts, r.start);
    PageOfVisible(texts[r.versionId], versions[r.versionId].pages.value, parts, r.end - 1);
  }
}
