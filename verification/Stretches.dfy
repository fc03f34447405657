/** The runs of a context are its maximal stretches of neighbouring chunks, and each of them is searched. */
module Stretches {
  import opened Strings
  import opened Unicode
  import opened QuoteSearch
  import opened Chunking
  import opened Citations

  // ------------------------------------------------------------------ the run of a stretch

  /** The chunk `k` follows the one before it. */
  predicate Follows(items: seq<Chunk>, k: nat)
    requires 0 < k < |items|
  {
    items[k].ordinal == items[k - 1].ordinal + 1
  }

  /** Neighbours from `i` up to `j`. */
  ghost predicate IsStretch(items: seq<Chunk>, i: nat, j: nat) {
    i < j <= |items| && forall k :: i < k < j ==> Follows(items, k)
  }

  /** ... that cannot be made longer. */
  ghost predicate IsMaximal(items: seq<Chunk>, i: nat, j: nat) {
    && IsStretch(items, i, j)
    && (i > 0 ==> !Follows(items, i))
    && (j < |items| ==> !Follows(items, j))
  }

  /** Chunks as they are cut: each as long as its text, and a follower not before the end of its predecessor. */
  ghost predicate AreCut(items: seq<Chunk>) {
    && (forall k :: 0 <= k < |items| ==> items[k].end == items[k].start + |items[k].text|)
    && (forall k :: 0 < k < |items| && Follows(items, k) ==> items[k - 1].end <= items[k].start)
  }

  /** The chunk's text stands in the run at the chunk's own offset. */
  predicate HoldsChunk(run: Run, c: Chunk) {
    && run.start <= c.start && c.start - run.start + |c.text| <= |run.text|
    && run.text[c.start - run.start..c.start - run.start + |c.text|] == c.text
  }

  /** Between the two chunks the run has spaces. */
  predicate HoldsGap(run: Run, prev: Chunk, c: Chunk) {
    forall d :: 0 <= d < |run.text| && prev.end <= run.start + d < c.start ==> run.text[d] == ' '
  }

  ghost predicate HasKeysOf(run: Run, items: seq<Chunk>, i: nat, j: nat)
    requires i <= j <= |items|
  {
    forall key :: key in run.chunkKeys <==> exists k :: i <= k < j && items[k].key == key
  }

  /** From the start of the first chunk to the end of the last, with every chunk at its offset. */
  ghost predicate IsRunOf(items: seq<Chunk>, i: nat, j: nat, run: Run) {
    && i < j <= |items|
    && run.versionId == items[i].versionId
    && run.start == items[i].start && run.start + |run.text| == items[j - 1].end
    && (forall k :: i <= k < j ==> HoldsChunk(run, items[k]))
    && (forall k :: i < k < j ==> HoldsGap(run, items[k - 1], items[k]))
    && HasKeysOf(run, items, i, j)
  }

  lemma NewRunIs(items: seq<Chunk>, k: nat)
    requires AreCut(items) && k < |items|
    ensures IsRunOf(items, k, k + 1, NewRun(items[k]))
  {
    hide AreCut, HoldsChunk, HoldsGap, HasKeysOf;
    CutAt(items, k);
    NewRunHolds(items[k]);
    NewRunKeys(items, k);
  }

  lemma NewRunHolds(c: Chunk)
    ensures HoldsChunk(NewRun(c), c)
  {
    assert c.text[0..|c.text|] == c.text;
  }

  lemma NewRunKeys(items: seq<Chunk>, k: nat)
    requires k < |items|
    ensures HasKeysOf(NewRun(items[k]), items, k, k + 1)
  {
    assert items[k].key in NewRun(items[k]).chunkKeys;
  }

  lemma CutAt(items: seq<Chunk>, k: nat)
    requires AreCut(items) && k < |items|
    ensures items[k].end == items[k].start + |items[k].text|
    ensures k > 0 && Follows(items, k) ==> items[k - 1].end <= items[k].start
  {}

  lemma ExtendRunIs(items: seq<Chunk>, i: nat, k: nat, run: Run)
    requires AreCut(items) && IsRunOf(items, i, k, run) && 0 < k < |items| && Follows(items, k)
    ensures IsRunOf(items, i, k + 1, ExtendRun(run, items[k - 1], items[k]))
  {
    hide AreCut, HoldsChunk, HoldsGap, HasKeysOf, ExtendRun, Follows;
    var more := ExtendRun(run, items[k - 1], items[k]);
    CutAt(items, k);
    ExtendedText(run, items[k - 1], items[k]);
    ExtendedKeys(items, i, k, run);
    forall m | i <= m < k ensures HoldsChunk(more, items[m]) {
      StillHoldsChunk(run, more, items[m]);
    }
    forall m | i < m < k ensures HoldsGap(more, items[m - 1], items[m]) {
      StillHoldsGap(run, more, items[m - 1], items[m]);
    }
  }

  lemma ExtendedText(run: Run, prev: Chunk, c: Chunk)
    requires run.start + |run.text| == prev.end <= c.start
    ensures var more := ExtendRun(run, prev, c);
            && more.versionId == run.versionId && more.start == run.start && run.text <= more.text
            && run.start + |more.text| == c.start + |c.text|
            && HoldsChunk(more, c) && HoldsGap(more, prev, c)
  {
    hide Spaces;
    var more := ExtendRun(run, prev, c);
    var gap := Spaces(c.start - prev.end);
    assert more.text == (run.text + gap) + c.text;
    assert more.text[|run.text| + |gap|..] == c.text;
    forall d | 0 <= d < |more.text| && prev.end <= run.start + d < c.start ensures more.text[d] == ' ' {
      assert more.text[d] == gap[d - |run.text|];
    }
  }

  lemma ExtendedKeys(items: seq<Chunk>, i: nat, k: nat, run: Run)
    requires i < k < |items| && HasKeysOf(run, items, i, k)
    ensures HasKeysOf(ExtendRun(run, items[k - 1], items[k]), items, i, k + 1)
  {
    var more := ExtendRun(run, items[k - 1], items[k]);
    forall key ensures key in more.chunkKeys <==> exists m :: i <= m < k + 1 && items[m].key == key {
      if key in run.chunkKeys {
        var m :| i <= m < k && items[m].key == key;
      } else if key == items[k].key {
        assert items[k].key == key;
      }
    }
  }

  lemma StillHoldsChunk(run: Run, more: Run, c: Chunk)
    requires HoldsChunk(run, c) && run.start == more.start && run.text <= more.text
    ensures HoldsChunk(more, c)
  {
    var a := c.start - run.start;
    assert more.text[..|run.text|][a..a + |c.text|] == more.text[a..a + |c.text|];
  }

  lemma StillHoldsGap(run: Run, more: Run, prev: Chunk, c: Chunk)
    requires HoldsGap(run, prev, c) && HoldsChunk(run, c) && run.start == more.start && run.text <= more.text
    ensures HoldsGap(more, prev, c)
  {
    assert forall p :: 0 <= p < |run.text| ==> more.text[p] == run.text[p];
  }

  // ------------------------------------------------------------------ the runs are the maximal stretches

  /** Where the stretch that ends before `j` starts. */
  ghost function First(items: seq<Chunk>, j: nat): (i: nat)
    requires 0 < j <= |items|
    ensures i < j && IsStretch(items, i, j) && (i > 0 ==> !Follows(items, i))
  {
    if j > 1 && Follows(items, j - 1) then First(items, j - 1) else j - 1
  }

  lemma {:induction false} FirstIsOnly(items: seq<Chunk>, i: nat, j: nat)
    requires IsStretch(items, i, j) && (i > 0 ==> !Follows(items, i))
    ensures i == First(items, j)
    decreases j
  {
    if i < j - 1 {
      assert Follows(items, j - 1);
      FirstIsOnly(items, i, j - 1);
    }
  }

  /** A stretch that has come to its end. */
  ghost predicate IsClosed(items: seq<Chunk>, i: nat, j: nat) {
    j < |items| && IsMaximal(items, i, j)
  }

  ghost predicate HasStretch(items: seq<Chunk>, k: nat, run: Run) {
    exists i: nat, j: nat :: j < k && IsClosed(items, i, j) && IsRunOf(items, i, j, run)
  }

  ghost predicate HasRun(items: seq<Chunk>, i: nat, j: nat, runs: seq<Run>) {
    exists r :: 0 <= r < |runs| && IsRunOf(items, i, j, runs[r])
  }

  /** The runs but the last are the closed stretches of the first `k` chunks, the last one is still open. */
  ghost predicate AreStretchesUpTo(items: seq<Chunk>, k: nat, runs: seq<Run>)
    requires 0 < k <= |items| && |runs| > 0
  {
    && (forall r :: 0 <= r < |runs| - 1 ==> HasStretch(items, k, runs[r]))
    && (forall i: nat, j: nat :: j < k && IsClosed(items, i, j) ==> HasRun(items, i, j, runs[..|runs| - 1]))
    && IsRunOf(items, First(items, k), k, runs[|runs| - 1])
  }

  lemma StretchGoesOn(items: seq<Chunk>, k: nat, runs: seq<Run>)
    requires AreCut(items) && 0 < k < |items| && |runs| > 0 && Follows(items, k) && AreStretchesUpTo(items, k, runs)
    ensures AreStretchesUpTo(items, k + 1,
              runs[..|runs| - 1] + [ExtendRun(runs[|runs| - 1], items[k - 1], items[k])])
  {
    hide IsRunOf, AreCut, First, IsClosed, HasRun, HasStretch;
    var front := runs[..|runs| - 1];
    var more := front + [ExtendRun(runs[|runs| - 1], items[k - 1], items[k])];
    assert more[..|more| - 1] == front;
    ExtendRunIs(items, First(items, k), k, runs[|runs| - 1]);
    FirstGoesOn(items, k);
    forall r | 0 <= r < |more| - 1 ensures HasStretch(items, k + 1, more[r]) {
      assert more[r] == runs[r];
      LaterStretch(items, k, runs[r]);
    }
    forall i: nat, j: nat | j < k + 1 && IsClosed(items, i, j) ensures HasRun(items, i, j, front) {
      if j == k { NotClosed(items, i, k); }
    }
  }

  lemma LaterStretch(items: seq<Chunk>, k: nat, run: Run)
    requires HasStretch(items, k, run)
    ensures HasStretch(items, k + 1, run)
  {}

  lemma MoreRuns(items: seq<Chunk>, i: nat, j: nat, runs: seq<Run>, run: Run)
    requires HasRun(items, i, j, runs) || IsRunOf(items, i, j, run)
    ensures HasRun(items, i, j, runs + [run])
  {
    hide IsRunOf;
    if IsRunOf(items, i, j, run) {
      assert (runs + [run])[|runs|] == run;
    } else {
      var r :| 0 <= r < |runs| && IsRunOf(items, i, j, runs[r]);
      assert (runs + [run])[r] == runs[r];
    }
  }

  lemma FirstGoesOn(items: seq<Chunk>, k: nat)
    requires 0 < k < |items|
    ensures First(items, k + 1) == if Follows(items, k) then First(items, k) else k
  {}

  lemma NotClosed(items: seq<Chunk>, i: nat, k: nat)
    requires 0 < k < |items| && IsClosed(items, i, k)
    ensures !Follows(items, k) && i == First(items, k)
  {
    FirstIsOnly(items, i, k);
  }

  lemma FirstIsClosed(items: seq<Chunk>, k: nat, run: Run)
    requires 0 < k < |items| && !Follows(items, k) && IsRunOf(items, First(items, k), k, run)
    ensures HasStretch(items, k + 1, run)
  {
    hide IsRunOf, First;
    assert IsClosed(items, First(items, k), k);
  }

  lemma StretchEnds(items: seq<Chunk>, k: nat, runs: seq<Run>)
    requires AreCut(items) && 0 < k < |items| && |runs| > 0 && !Follows(items, k) && AreStretchesUpTo(items, k, runs)
    ensures AreStretchesUpTo(items, k + 1, runs + [NewRun(items[k])])
  {
    hide IsRunOf, AreCut, First, IsClosed, HasRun, HasStretch, NewRun;
    var more := runs + [NewRun(items[k])];
    var front, last := runs[..|runs| - 1], runs[|runs| - 1];
    assert more[..|more| - 1] == runs == front + [last];
    NewRunIs(items, k);
    FirstGoesOn(items, k);
    forall r | 0 <= r < |more| - 1 ensures HasStretch(items, k + 1, more[r]) {
      assert more[r] == runs[r];
      if r < |runs| - 1 { LaterStretch(items, k, runs[r]); } else { FirstIsClosed(items, k, last); }
    }
    forall i: nat, j: nat | j < k + 1 && IsClosed(items, i, j) ensures HasRun(items, i, j, runs) {
      if j == k { NotClosed(items, i, k); }
      MoreRuns(items, i, j, front, last);
    }
  }

  lemma {:induction false} RunsFollow(items: seq<Chunk>, k: nat)
    requires AreCut(items) && 0 < k <= |items|
    ensures AreStretchesUpTo(items, k, RunsUpTo(items, k))
  {
    hide AreCut, AreStretchesUpTo;
    if k == 1 {
      OneStretch(items);
    } else {
      RunsFollow(items, k - 1);
      hide RunsUpTo;
      NextRuns(items, k);
      if Follows(items, k - 1) {
        StretchGoesOn(items, k - 1, RunsUpTo(items, k - 1));
      } else {
        StretchEnds(items, k - 1, RunsUpTo(items, k - 1));
      }
    }
  }

  lemma NextRuns(items: seq<Chunk>, k: nat)
    requires 1 < k <= |items|
    ensures var runs := RunsUpTo(items, k - 1);
            RunsUpTo(items, k) == if Follows(items, k - 1)
              then runs[..|runs| - 1] + [ExtendRun(runs[|runs| - 1], items[k - 2], items[k - 1])]
              else runs + [NewRun(items[k - 1])]
  {}

  lemma OneStretch(items: seq<Chunk>)
    requires AreCut(items) && |items| > 0
    ensures AreStretchesUpTo(items, 1, RunsUpTo(items, 1))
  {
    hide AreCut, IsRunOf, HasRun, HasStretch;
    assert RunsUpTo(items, 0) == [];
    assert RunsUpTo(items, 1) == [NewRun(items[0])];
    NewRunIs(items, 0);
    forall i: nat, j: nat | j < 1 ensures !IsClosed(items, i, j) {}
  }

  /** THE RUNS ARE THE STRETCHES. Every run is that of a maximal stretch of neighbours, and every maximal stretch has
      its run. */
  lemma RunsAreStretches(items: seq<Chunk>)
    requires AreCut(items)
    ensures var runs := RunsUpTo(items, |items|);
            && (forall r :: r in runs ==> exists i: nat, j: nat :: IsMaximal(items, i, j) && IsRunOf(items, i, j, r))
            && (forall i: nat, j: nat :: IsMaximal(items, i, j) ==> HasRun(items, i, j, runs))
  {
    if |items| > 0 {
      hide AreCut, IsRunOf, RunsUpTo, First;
      RunsFollow(items, |items|);
      var runs := RunsUpTo(items, |items|);
      var front, last := runs[..|runs| - 1], runs[|runs| - 1];
      assert runs == front + [last];
      assert IsMaximal(items, First(items, |items|), |items|);
      forall i: nat, j: nat | IsMaximal(items, i, j) ensures HasRun(items, i, j, runs) {
        if j < |items| {
          assert IsClosed(items, i, j);
        } else {
          FirstIsOnly(items, i, j);
        }
        MoreRuns(items, i, j, front, last);
      }
    }
  }

  /** The stretch and the run's description leave no choice of the text. */
  lemma RunIsDetermined(items: seq<Chunk>, i: nat, j: nat, a: Run, b: Run)
    requires AreCut(items) && IsStretch(items, i, j) && IsRunOf(items, i, j, a) && IsRunOf(items, i, j, b)
    ensures a == b
  {
    hide AreCut, Follows, IsRunOf;
    SameUpTo(items, i, j, a, b, j);
    Determined(items, i, j, a, b);
  }

  lemma Determined(items: seq<Chunk>, i: nat, j: nat, a: Run, b: Run)
    requires IsRunOf(items, i, j, a) && IsRunOf(items, i, j, b)
    requires |a.text| == |b.text| && forall d :: 0 <= d < |a.text| ==> a.text[d] == b.text[d]
    ensures a == b
  {
    hide HoldsChunk, HoldsGap;
    assert a.text == b.text;
    assert a.chunkKeys == b.chunkKeys;
  }

  lemma {:induction false} SameUpTo(items: seq<Chunk>, i: nat, j: nat, a: Run, b: Run, k: nat)
    requires AreCut(items) && IsStretch(items, i, j) && IsRunOf(items, i, j, a) && IsRunOf(items, i, j, b) && i < k <= j
    ensures a.start == b.start && |a.text| == |b.text| == items[j - 1].end - a.start
    ensures forall d :: 0 <= d < items[k - 1].end - a.start ==> d < |a.text| && a.text[d] == b.text[d]
    decreases k
  {
    hide AreCut, HasKeysOf, HoldsGap, HoldsChunk, Follows;
    CutAt(items, k - 1);
    SameChunk(a, b, items[k - 1]);
    if k > i + 1 {
      SameUpTo(items, i, j, a, b, k - 1);
      SameGap(a, b, items[k - 2], items[k - 1]);
      assert Follows(items, k - 1);
    }
  }

  lemma SameChunk(a: Run, b: Run, c: Chunk)
    requires HoldsChunk(a, c) && HoldsChunk(b, c) && a.start == b.start
    ensures forall d :: c.start - a.start <= d < c.start - a.start + |c.text| ==>
              0 <= d < |a.text| && d < |b.text| && a.text[d] == b.text[d]
    ensures c.start - a.start + |c.text| <= |a.text|
  {
    var s := c.start - a.start;
    forall d | s <= d < s + |c.text| ensures a.text[d] == b.text[d] {
      assert a.text[s..s + |c.text|][d - s] == b.text[s..s + |c.text|][d - s];
    }
  }

  lemma SameGap(a: Run, b: Run, prev: Chunk, c: Chunk)
    requires HoldsGap(a, prev, c) && HoldsGap(b, prev, c) && a.start == b.start && |a.text| == |b.text|
    ensures forall d :: 0 <= d < |a.text| && prev.end - a.start <= d < c.start - a.start ==> a.text[d] == b.text[d]
  {}

  // ------------------------------------------------------------------ the chunks of a version in their order

  ghost predicate IsAscending(items: seq<Chunk>) {
    forall j, k :: 0 <= j < k < |items| ==> items[j].ordinal < items[k].ordinal
  }

  /** No chunk is given twice. */
  ghost predicate DistinctPlaces(chunks: seq<Chunk>) {
    forall j, k :: 0 <= j < k < |chunks| ==>
      !(chunks[j].versionId == chunks[k].versionId && chunks[j].ordinal == chunks[k].ordinal)
  }

  lemma {:induction false} InsertAscends(items: seq<Chunk>, c: Chunk)
    requires IsAscending(items) && forall d :: d in items ==> d.ordinal != c.ordinal
    ensures IsAscending(Insert(items, c)) && forall d :: d in Insert(items, c) <==> d in items || d == c
  {
    if |items| > 0 && items[|items| - 1].ordinal > c.ordinal {
      var front, last := items[..|items| - 1], items[|items| - 1];
      assert items == front + [last];
      InsertAscends(front, c);
      AppendAscends(Insert(front, c), last);
    } else if |items| > 0 {
      AppendAscends(items, c);
    }
  }

  lemma AppendAscends(items: seq<Chunk>, c: Chunk)
    requires IsAscending(items) && forall d :: d in items ==> d.ordinal < c.ordinal
    ensures IsAscending(items + [c])
  {
    assert forall j :: 0 <= j < |items| ==> items[j] in items;
  }

  ghost predicate DistinctOrdinals(items: seq<Chunk>) {
    forall j, k :: 0 <= j < k < |items| ==> items[j].ordinal != items[k].ordinal
  }

  lemma {:induction false} SortAscends(items: seq<Chunk>)
    requires DistinctOrdinals(items)
    ensures IsAscending(SortByOrdinal(items)) && forall d :: d in SortByOrdinal(items) <==> d in items
  {
    if |items| > 0 {
      hide Insert;
      var front, last := items[..|items| - 1], items[|items| - 1];
      SortAscends(front);
      assert items == front + [last];
      InsertAscends(SortByOrdinal(front), last);
    }
  }

  lemma {:induction false} OrdinalsDiffer(chunks: seq<Chunk>, v: string)
    requires DistinctPlaces(chunks)
    ensures DistinctOrdinals(OfVersion(chunks, v))
  {
    if |chunks| > 0 {
      var front, last := chunks[..|chunks| - 1], chunks[|chunks| - 1];
      OrdinalsDiffer(front, v);
      OfVersionSelects(front, v);
      forall d | d in OfVersion(front, v) && last.versionId == v ensures d.ordinal != last.ordinal {
        var j :| 0 <= j < |front| && front[j] == d;
        assert chunks[j] == d && chunks[|chunks| - 1] == last;
      }
      assert forall j :: 0 <= j < |OfVersion(front, v)| ==> OfVersion(front, v)[j] in OfVersion(front, v);
    }
  }

  /** The version's chunks as they are grouped. */
  function ItemsOf(chunks: seq<Chunk>, v: string): seq<Chunk> { SortByOrdinal(OfVersion(chunks, v)) }

  lemma ItemsAscend(chunks: seq<Chunk>, v: string)
    requires DistinctPlaces(chunks)
    ensures IsAscending(ItemsOf(chunks, v)) && forall c :: c in ItemsOf(chunks, v) <==> c in chunks && c.versionId == v
  {
    hide SortByOrdinal, OfVersion, DistinctPlaces, DistinctOrdinals;
    OrdinalsDiffer(chunks, v);
    OfVersionSelects(chunks, v);
    SortAscends(OfVersion(chunks, v));
  }

  lemma ItemsAreCut(u: Tables, target: nat, chunks: seq<Chunk>, texts: map<string, string>,
                    splits: map<string, seq<ChunkSpan>>, items: seq<Chunk>)
    requires IsContext(u, target, chunks, texts, splits)
    requires forall c :: c in items ==> c in chunks && c.versionId == items[0].versionId
    ensures AreCut(items)
  {
    hide Tiles;
    forall k | 0 <= k < |items| ensures items[k].end == items[k].start + |items[k].text| {
      var c := items[k];
      TileAt(u, texts[c.versionId], target, splits[c.versionId], c.ordinal);
    }
    forall k | 0 < k < |items| && Follows(items, k) ensures items[k - 1].end <= items[k].start {
      var c := items[k];
      assert c in items && items[k - 1] in items;
      TileAt(u, texts[c.versionId], target, splits[c.versionId], c.ordinal);
    }
  }

  // ------------------------------------------------------------------ neighbours in a context

  /** All the chunks of the context in one stretch of a version. */
  ghost predicate AreNeighbours(chunks: seq<Chunk>, stretch: seq<Chunk>) {
    && |stretch| > 0
    && (forall c :: c in stretch ==> c in chunks && c.versionId == stretch[0].versionId)
    && (forall k :: 0 < k < |stretch| ==> Follows(stretch, k))
    && forall c :: c in chunks && c.versionId == stretch[0].versionId ==>
         c.ordinal + 1 != stretch[0].ordinal && c.ordinal != stretch[|stretch| - 1].ordinal + 1
  }

  lemma NextPlace(items: seq<Chunk>, p: nat, q: nat)
    requires IsAscending(items) && p < |items| && q < |items| && items[q].ordinal == items[p].ordinal + 1
    ensures q == p + 1
  {
    assert p + 1 < |items| ==> items[p].ordinal < items[p + 1].ordinal;
  }

  /** Neighbours stand side by side in the order of the version. */
  lemma {:induction false} PlaceOf(items: seq<Chunk>, stretch: seq<Chunk>) returns (p: nat)
    requires IsAscending(items) && |stretch| > 0 && forall c :: c in stretch ==> c in items
    requires forall k :: 0 < k < |stretch| ==> Follows(stretch, k)
    ensures p + |stretch| <= |items| && items[p..p + |stretch|] == stretch
  {
    hide IsAscending;
    var n := |stretch| - 1;
    assert stretch[n] in stretch;
    var q :| 0 <= q < |items| && items[q] == stretch[n];
    if n == 0 {
      p := q;
    } else {
      assert forall k :: 0 < k < n ==> Follows(stretch[..n], k) == Follows(stretch, k);
      p := PlaceOf(items, stretch[..n]);
      assert items[p + n - 1] == items[p..p + n][n - 1] == stretch[n - 1];
      assert Follows(stretch, n);
      NextPlace(items, p + n - 1, q);
    }
  }

  lemma NeighboursAreMaximal(items: seq<Chunk>, chunks: seq<Chunk>, stretch: seq<Chunk>, p: nat)
    requires AreNeighbours(chunks, stretch) && p + |stretch| <= |items| && items[p..p + |stretch|] == stretch
    requires forall c :: c in items ==> c in chunks && c.versionId == stretch[0].versionId
    ensures IsMaximal(items, p, p + |stretch|)
  {
    var j := p + |stretch|;
    assert forall k :: 0 <= k < |stretch| ==> items[p + k] == items[p..j][k] == stretch[k];
    forall k | p < k < j ensures Follows(items, k) {
      assert Follows(stretch, k - p);
      assert items[k - 1] == stretch[k - p - 1] && items[k] == stretch[k - p];
    }
    if p > 0 { assert items[p - 1] in items; }
    if j < |items| { assert items[j] in items; }
  }

  lemma MaximalAreNeighbours(items: seq<Chunk>, chunks: seq<Chunk>, v: string, i: nat, j: nat)
    requires IsAscending(items) && IsMaximal(items, i, j)
    requires forall c :: c in items <==> c in chunks && c.versionId == v
    ensures AreNeighbours(chunks, items[i..j])
  {
    hide IsAscending;
    var stretch := items[i..j];
    assert forall k :: 0 <= k < |stretch| ==> stretch[k] == items[i + k];
    assert forall c :: c in stretch ==> c in items;
    assert stretch[0] in stretch;
    forall k | 0 < k < |stretch| ensures Follows(stretch, k) {
      assert Follows(items, i + k);
    }
    forall c | c in chunks && c.versionId == v
      ensures c.ordinal + 1 != items[i].ordinal && c.ordinal != items[j - 1].ordinal + 1
    {
      OutsideStretch(items, i, j, c);
    }
  }

  lemma OutsideStretch(items: seq<Chunk>, i: nat, j: nat, c: Chunk)
    requires IsAscending(items) && IsMaximal(items, i, j) && c in items
    ensures c.ordinal + 1 != items[i].ordinal && c.ordinal != items[j - 1].ordinal + 1
  {
    hide IsAscending, IsStretch;
    assert i < j <= |items| by { StretchBounds(items, i, j); }
    var q :| 0 <= q < |items| && items[q] == c;
    if c.ordinal + 1 == items[i].ordinal { NextPlace(items, q, i); }
    if c.ordinal == items[j - 1].ordinal + 1 { NextPlace(items, j - 1, q); }
  }

  lemma StretchBounds(items: seq<Chunk>, i: nat, j: nat)
    requires IsStretch(items, i, j)
    ensures i < j <= |items|
  {}

  lemma RunOfSlice(items: seq<Chunk>, i: nat, j: nat, run: Run)
    requires i < j <= |items|
    ensures IsRunOf(items, i, j, run) <==> IsRunOf(items[i..j], 0, j - i, run)
  {
    hide HoldsChunk, HoldsGap;
    var stretch := items[i..j];
    assert forall k :: 0 <= k < |stretch| ==> stretch[k] == items[i + k];
    assert forall k :: i <= k < j ==> items[k] == stretch[k - i];
  }

  lemma {:induction false} RunsOfAllVersions(chunks: seq<Chunk>, ids: seq<string>)
    ensures forall r :: r in RunsOfVersions(chunks, ids) <==> exists v :: v in ids && r in RunsOfVersion(chunks, v)
  {
    hide RunsOfVersion;
    if |ids| > 0 {
      var front, last := ids[..|ids| - 1], ids[|ids| - 1];
      RunsOfAllVersions(chunks, front);
      assert ids == front + [last];
    }
  }

  /** The stretch has its run among those of the context. */
  lemma NeighboursHaveRun(u: Tables, target: nat, chunks: seq<Chunk>, texts: map<string, string>,
                          splits: map<string, seq<ChunkSpan>>, stretch: seq<Chunk>, run: Run)
    requires IsContext(u, target, chunks, texts, splits) && DistinctPlaces(chunks)
    requires AreNeighbours(chunks, stretch) && IsRunOf(stretch, 0, |stretch|, run)
    ensures run in AllRuns(chunks)
  {
    hide IsContext, DistinctPlaces, IsRunOf, IsAscending, SortByOrdinal, OfVersion, RunsUpTo, AreCut;
    var v := stretch[0].versionId;
    var items := ItemsOf(chunks, v);
    ItemsAscend(chunks, v);
    ItemsAreCut(u, target, chunks, texts, splits, items);
    var p := PlaceOf(items, stretch);
    NeighboursAreMaximal(items, chunks, stretch, p);
    RunOfSlice(items, p, p + |stretch|, run);
    RunsAreStretches(items);
    var r :| 0 <= r < |RunsOfVersion(chunks, v)| && IsRunOf(items, p, p + |stretch|, RunsOfVersion(chunks, v)[r]);
    RunIsDetermined(items, p, p + |stretch|, run, RunsOfVersion(chunks, v)[r]);
    assert run in RunsOfVersion(chunks, v);
    assert stretch[0] in stretch && HasVersion(chunks, v);
    VersionIdsAreThose(chunks);
    RunsOfAllVersions(chunks, VersionIds(chunks));
  }

  /** ... and every run is that of a stretch. */
  lemma RunHasNeighbours(u: Tables, target: nat, chunks: seq<Chunk>, texts: map<string, string>,
                         splits: map<string, seq<ChunkSpan>>, run: Run) returns (stretch: seq<Chunk>)
    requires IsContext(u, target, chunks, texts, splits) && DistinctPlaces(chunks) && run in AllRuns(chunks)
    ensures AreNeighbours(chunks, stretch) && IsRunOf(stretch, 0, |stretch|, run)
  {
    hide IsContext, DistinctPlaces, IsRunOf, IsAscending, SortByOrdinal, OfVersion, RunsUpTo, AreCut;
    RunsOfAllVersions(chunks, VersionIds(chunks));
    var v :| v in VersionIds(chunks) && run in RunsOfVersion(chunks, v);
    var items := ItemsOf(chunks, v);
    ItemsAscend(chunks, v);
    ItemsAreCut(u, target, chunks, texts, splits, items);
    RunsAreStretches(items);
    var i: nat, j: nat :| IsMaximal(items, i, j) && IsRunOf(items, i, j, run);
    stretch := items[i..j];
    MaximalAreNeighbours(items, chunks, v, i, j);
    RunOfSlice(items, i, j, run);
  }

  // ------------------------------------------------------------------ what is resolved

  ghost predicate IsKnown(chunks: seq<Chunk>, key: string) { exists c :: c in chunks && c.key == key }

  /** The quote stands in the text of some neighbours of the context. */
  ghost predicate StandsInNeighbours(u: Tables, chunks: seq<Chunk>, quote: string) {
    exists stretch, run :: AreNeighbours(chunks, stretch) && IsRunOf(stretch, 0, |stretch|, run) && Holds(u, run, quote)
  }

  /** RESOLVED EXACTLY. A citation is resolved if and only if its chunk is in the context and its quote is found in
      the text of neighbouring chunks, read with spaces in their gaps; it may go over any number of them. */
  lemma ResolvedExactly(u: Tables, target: nat, chunks: seq<Chunk>, texts: map<string, string>,
                        splits: map<string, seq<ChunkSpan>>, versions: map<string, Version>, key: string, quote: string)
    requires u.Valid() && IsContext(u, target, chunks, texts, splits)
    requires DistinctKeys(chunks) && DistinctPlaces(chunks) && VersionsKnown(chunks, versions)
    ensures forall k :: 0 <= k < |AllRuns(chunks)| ==> AllRuns(chunks)[k].versionId in versions
    ensures Resolution(u, ByKey(chunks), AllRuns(chunks), versions, key, quote).Some? <==>
              IsKnown(chunks, key) && StandsInNeighbours(u, chunks, quote)
  {
    hide IsContext, DistinctPlaces, IsRunOf, AreNeighbours, AllRuns, ByKey, Resolution, Holds;
    RunVersionsKnown(u, target, chunks, texts, splits, versions);
    DistinctKeysStay(chunks);
    ResolutionIsComplete(u, chunks, AllRuns(chunks), versions, key, quote);
    if StandsInNeighbours(u, chunks, quote) {
      var stretch, run :| AreNeighbours(chunks, stretch) && IsRunOf(stretch, 0, |stretch|, run) && Holds(u, run, quote);
      NeighboursHaveRun(u, target, chunks, texts, splits, stretch, run);
    }
    if exists run :: run in AllRuns(chunks) && Holds(u, run, quote) {
      var run :| run in AllRuns(chunks) && Holds(u, run, quote);
      var stretch := RunHasNeighbours(u, target, chunks, texts, splits, run);
    }
  }
}
