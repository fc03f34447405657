/** PDF pages: how page texts become one text with page offsets, and which page an offset is on. */
module Pages {
  import opened Strings
  import opened Unicode
  import opened Cleaning

  /** A page: 1-based number in the file, printed label if any, extent in the whole text. */
  datatype Page = Page(n: nat, printed: Option<string>, start: nat, end: nat)

  datatype PageRef = PageRef(physical: nat, printed: Option<string>)

  datatype PdfDoc = PdfDoc(text: string, pages: seq<Page>, pagesWithoutText: seq<nat>)

  datatype PdfResult = Extracted(doc: PdfDoc) | TooManyPages | NoTextLayer | EmptyText

  function VisibleCount(u: Tables, s: string): nat {
    if |s| == 0 then 0 else (if s[0] in u.space then 0 else 1) + VisibleCount(u, s[1..])
  }

  /** `has_meaningful_text`. */
  predicate IsMeaningful(u: Tables, s: string, minChars: int) { VisibleCount(u, s) >= minChars }

  // ------------------------------------------------------------------ building the text

  ghost predicate PageOk(text: string, pages: seq<Page>, parts: seq<string>, k: nat)
    requires k < |pages| && |pages| == |parts|
  {
    && pages[k].n == k + 1
    && pages[k].end == pages[k].start + |parts[k]| <= |text|
    && text[pages[k].start..pages[k].end] == parts[k]
    && (if k == 0 then pages[k].start == 0
        else pages[k].start == pages[k - 1].end + 2 && text[pages[k].start - 2..pages[k].start] == "\n\n")
  }

  /** The pages tile the text: one after another, two line breaks between neighbours. */
  ghost predicate PagesTile(text: string, pages: seq<Page>, parts: seq<string>) {
    && |pages| == |parts|
    && (forall k :: 0 <= k < |pages| ==> PageOk(text, pages, parts, k))
    && (if |pages| == 0 then text == "" else pages[|pages| - 1].end == |text|)
  }

  function CleanAll(u: Tables, raws: seq<string>): (parts: seq<string>)
    ensures |parts| == |raws|
  {
    if |raws| == 0 then [] else [CleanText(u, raws[0])] + CleanAll(u, raws[1..])
  }

  lemma {:induction false} CleanAllAt(u: Tables, raws: seq<string>)
    ensures forall k :: 0 <= k < |raws| ==> CleanAll(u, raws)[k] == CleanText(u, raws[k])
  {
    hide CleanText;
    if |raws| > 0 { CleanAllAt(u, raws[1..]); }
  }

  function LabelOf(labels: Option<seq<string>>, k: nat): Option<string> {
    if labels.Some? && k < |labels.value| then Some(labels.value[k]) else None
  }

  /** The numbers of the pages before `k` that hold too little text. */
  function Thin(u: Tables, parts: seq<string>, minChars: int, k: nat): seq<nat>
    requires k <= |parts|
  {
    if k == 0 then []
    else Thin(u, parts, minChars, k - 1) + (if IsMeaningful(u, parts[k - 1], minChars) then [] else [k])
  }

  function Separator(k: nat): string { if k == 0 then "" else "\n\n" }

  /** `"\n\n".join`, page by page. */
  function JoinPages(parts: seq<string>): string {
    if |parts| == 0 then ""
    else JoinPages(parts[..|parts| - 1]) + Separator(|parts| - 1) + parts[|parts| - 1]
  }

  /** `count and textPages / count < minRatio`. */
  predicate BelowRatio(textPages: int, count: nat, minRatio: real) {
    count > 0 && textPages as real / count as real < minRatio
  }

  /** Too few pages carry text. */
  predicate IsScan(u: Tables, parts: seq<string>, minChars: int, minRatio: real) {
    BelowRatio(|parts| - |Thin(u, parts, minChars, |parts|)|, |parts|, minRatio)
  }

  /** An earlier page does not notice the new one. */
  lemma KeepsPage(text: string, tail: string, pages: seq<Page>, page: Page, parts: seq<string>, part: string, k: nat)
    requires |pages| == |parts| && k < |pages| && PageOk(text, pages, parts, k)
    ensures PageOk(text + tail, pages + [page], parts + [part], k)
  {
    SliceOfPrefix(text, tail, pages[k].start, pages[k].end);
    if k > 0 { SliceOfPrefix(text, tail, pages[k].start - 2, pages[k].start); }
  }

  lemma SliceOfPrefix(text: string, tail: string, a: nat, b: nat)
    requires a <= b <= |text|
    ensures (text + tail)[a..b] == text[a..b]
  {}

  lemma SliceOfTail(text: string, middle: string, tail: string)
    ensures (text + middle + tail)[|text|..|text| + |middle|] == middle
    ensures (text + middle + tail)[|text| + |middle|..|text| + |middle| + |tail|] == tail
  {}

  /** One page more. */
  lemma AddPage(text: string, pages: seq<Page>, parts: seq<string>, part: string, printed: Option<string>)
    requires PagesTile(text, pages, parts)
    ensures var start := |text| + |Separator(|parts|)|;
            PagesTile(text + Separator(|parts|) + part,
                      pages + [Page(|pages| + 1, printed, start, start + |part|)], parts + [part])
  {
    hide *;
    var sep := Separator(|parts|);
    var page := Page(|pages| + 1, printed, |text| + |sep|, |text| + |sep| + |part|);
    Unpack(text, pages, parts);
    NewPage(text, pages, parts, part, page);
    var more := text + sep + part;
    AppendTwo(text, sep, part);
    forall k | 0 <= k < |pages| ensures PageOk(more, pages + [page], parts + [part], k) {
      KeepsPage(text, sep + part, pages, page, parts, part, k);
    }
    Pack(more, pages + [page], parts + [part]);
  }

  lemma Unpack(text: string, pages: seq<Page>, parts: seq<string>)
    requires PagesTile(text, pages, parts)
    ensures |pages| == |parts| && forall k :: 0 <= k < |pages| ==> PageOk(text, pages, parts, k)
    ensures if |pages| == 0 then text == "" else pages[|pages| - 1].end == |text|
  {}

  lemma Pack(text: string, pages: seq<Page>, parts: seq<string>)
    requires |pages| == |parts| && forall k :: 0 <= k < |pages| ==> PageOk(text, pages, parts, k)
    requires |pages| > 0 && pages[|pages| - 1].end == |text|
    ensures PagesTile(text, pages, parts)
  {}

  lemma AppendTwo(text: string, x: string, y: string)
    ensures text + x + y == text + (x + y)
  {}

  lemma NewPage(text: string, pages: seq<Page>, parts: seq<string>, part: string, page: Page)
    requires |pages| == |parts|
    requires if |pages| == 0 then text == "" else pages[|pages| - 1].end == |text|
    requires page.n == |pages| + 1 && page.start == |text| + |Separator(|parts|)|
    requires page.end == page.start + |part|
    ensures PageOk(text + Separator(|parts|) + part, pages + [page], parts + [part], |pages|)
  {
    SliceOfTail(text, Separator(|parts|), part);
  }

  /** The page loop: `offset` runs along with the text. */
  method BuildPages(u: Tables, raws: seq<string>, labels: Option<seq<string>>, minChars: int)
    returns (text: string, pages: seq<Page>, withoutText: seq<nat>)
    ensures text == JoinPages(CleanAll(u, raws)) && PagesTile(text, pages, CleanAll(u, raws))
    ensures |pages| == |raws| && forall k :: 0 <= k < |raws| ==> pages[k].printed == LabelOf(labels, k)
    ensures withoutText == Thin(u, CleanAll(u, raws), minChars, |raws|)
  {
    hide CleanText, IsMeaningful, CleanAll, PagesTile, LabelOf, Thin, JoinPages;
    ghost var parts := CleanAll(u, raws);
    CleanAllAt(u, raws);
    BuildStart(u, parts, minChars);
    text, pages, withoutText := "", [], [];
    var offset := 0;
    for i := 0 to |raws|
      invariant |pages| == i && offset == |text|
      invariant text == JoinPages(parts[..i]) && PagesTile(text, pages, parts[..i])
      invariant forall k :: 0 <= k < i ==> pages[k].printed == LabelOf(labels, k)
      invariant withoutText == Thin(u, parts, minChars, i)
    {
      var pageText := CleanText(u, raws[i]);
      BuildStep(u, parts, minChars, i);
      AddPage(text, pages, parts[..i], pageText, LabelOf(labels, i));
      if !IsMeaningful(u, pageText, minChars) {
        withoutText := withoutText + [i + 1];
      }
      if i > 0 {
        text := text + "\n\n";
        offset := offset + 2;
      } else {
        assert text + "" == text;
      }
      var start := offset;
      text := text + pageText;
      offset := offset + |pageText|;
      pages := pages + [Page(i + 1, LabelOf(labels, i), start, offset)];
    }
    assert parts[..|raws|] == parts;
  }

  lemma BuildStart(u: Tables, parts: seq<string>, minChars: int)
    ensures PagesTile("", [], []) && JoinPages(parts[..0]) == "" && parts[..0] == []
    ensures Thin(u, parts, minChars, 0) == []
  {}

  lemma BuildStep(u: Tables, parts: seq<string>, minChars: int, i: nat)
    requires i < |parts|
    ensures parts[..i + 1] == parts[..i] + [parts[i]]
    ensures JoinPages(parts[..i + 1]) == JoinPages(parts[..i]) + Separator(i) + parts[i]
    ensures Thin(u, parts, minChars, i + 1)
         == if IsMeaningful(u, parts[i], minChars) then Thin(u, parts, minChars, i)
            else Thin(u, parts, minChars, i) + [i + 1]
  {
    hide IsMeaningful;
    assert parts[..i + 1][..i] == parts[..i];
  }

  /** `extract_pdf` after the file is open: `raws` are the raw page texts (`""` for a page that
      could not be read). */
  method ExtractPdf(u: Tables, raws: seq<string>, labels: Option<seq<string>>, maxPages: int,
                    minChars: int, minRatio: real) returns (r: PdfResult)
    ensures r.TooManyPages? <==> |raws| > maxPages
    ensures r.NoTextLayer? <==> |raws| <= maxPages && IsScan(u, CleanAll(u, raws), minChars, minRatio)
    ensures r.EmptyText? <==>
      && |raws| <= maxPages && !IsScan(u, CleanAll(u, raws), minChars, minRatio)
      && !IsMeaningful(u, JoinPages(CleanAll(u, raws)), minChars)
    ensures r.Extracted? ==>
      && r.doc.text == JoinPages(CleanAll(u, raws))
      && PagesTile(r.doc.text, r.doc.pages, CleanAll(u, raws))
      && (forall k :: 0 <= k < |raws| ==> r.doc.pages[k].printed == LabelOf(labels, k))
      && r.doc.pagesWithoutText == Thin(u, CleanAll(u, raws), minChars, |raws|)
  {
    hide BelowRatio, IsMeaningful, JoinPages, Thin, CleanAll, PagesTile, LabelOf;
    var count := |raws|;
    if count > maxPages {
      return TooManyPages;
    }
    var text, pages, withoutText := BuildPages(u, raws, labels, minChars);
    if BelowRatio(count - |withoutText|, count, minRatio) {
      return NoTextLayer;
    }
    if !IsMeaningful(u, text, minChars) {
      return EmptyText;
    }
    r := Extracted(PdfDoc(text, pages, withoutText));
  }

  // ------------------------------------------------------------------ looking a page up

  function Starts(pages: seq<Page>): (starts: seq<int>)
    ensures |starts| == |pages|
    ensures forall k :: 0 <= k < |pages| ==> starts[k] == pages[k].start
  {
    if |pages| == 0 then [] else [pages[0].start as int] + Starts(pages[1..])
  }

  /** `bisect.bisect_right`: binary search for the first entry greater than `x`. */
  function BisectRight(a: seq<int>, x: int, lo: nat, hi: nat): (r: nat)
    requires lo <= hi <= |a|
    ensures lo <= r <= hi
    decreases hi - lo
  {
    if lo == hi then lo
    else
      var mid := (lo + hi) / 2;
      if x < a[mid] then BisectRight(a, x, lo, mid) else BisectRight(a, x, mid + 1, hi)
  }

  lemma {:induction false} BisectSplits(a: seq<int>, x: int, lo: nat, hi: nat)
    requires lo <= hi <= |a|
    requires forall j, k :: 0 <= j <= k < |a| ==> a[j] <= a[k]
    requires (forall k :: 0 <= k < lo ==> a[k] <= x) && (forall k :: hi <= k < |a| ==> x < a[k])
    ensures var r := BisectRight(a, x, lo, hi);
            (forall k :: 0 <= k < r ==> a[k] <= x) && (forall k :: r <= k < |a| ==> x < a[k])
    decreases hi - lo
  {
    if lo < hi {
      var mid := (lo + hi) / 2;
      if x < a[mid] { BisectSplits(a, x, lo, mid); } else { BisectSplits(a, x, mid + 1, hi); }
    }
  }

  /** The entry of `page_at` for `offset`. */
  function PageIndex(pages: seq<Page>, offset: int): (i: nat)
    requires |pages| > 0
    ensures i < |pages|
  {
    var i := BisectRight(Starts(pages), offset, 0, |pages|) - 1;
    if i < 0 then 0 else i
  }

  /** `page_at`: no page for sources without pages; an empty label counts as none. */
  function PageAt(pages: Option<seq<Page>>, offset: int): Option<PageRef> {
    if pages.None? || |pages.value| == 0 then None
    else
      var page := pages.value[PageIndex(pages.value, offset)];
      Some(PageRef(page.n, if page.printed.Some? && |page.printed.value| > 0 then page.printed else None))
  }

  lemma {:induction false} PagesAscend(text: string, pages: seq<Page>, parts: seq<string>, j: nat, k: nat)
    requires PagesTile(text, pages, parts) && j < k < |pages|
    ensures pages[j].end + 2 <= pages[k].start
    decreases k
  {
    assert PageOk(text, pages, parts, k);
    if j + 1 < k {
      PagesAscend(text, pages, parts, j, k - 1);
      assert PageOk(text, pages, parts, k - 1);
    }
  }

  /** RIGHT PAGE. Every position of the text that is not one of the two line breaks between pages is
      attributed to the page whose own text holds the character - also when some pages are empty;
      a separator belongs to the page before it. */
  lemma PageHoldsCharacter(text: string, pages: seq<Page>, parts: seq<string>, offset: nat)
    requires PagesTile(text, pages, parts) && offset < |text|
    ensures |pages| > 0
    ensures var i := PageIndex(pages, offset);
            && pages[i].start <= offset
            && (i + 1 < |pages| ==> offset < pages[i + 1].start)
            && (if offset < pages[i].end
                then offset - pages[i].start < |parts[i]| && parts[i][offset - pages[i].start] == text[offset]
                else offset < pages[i].end + 2 && text[offset] == '\n')
  {
    var starts := Starts(pages);
    forall j, k | 0 <= j <= k < |pages| ensures starts[j] <= starts[k] {
      if j < k {
        PagesAscend(text, pages, parts, j, k);
        assert PageOk(text, pages, parts, j);
      }
    }
    BisectSplits(starts, offset, 0, |pages|);
    assert PageOk(text, pages, parts, 0);
    var i := PageIndex(pages, offset);
    assert starts[0] <= offset;
    assert PageOk(text, pages, parts, i);
    if i + 1 < |pages| {
      assert starts[i + 1] > offset;
      assert PageOk(text, pages, parts, i + 1);
    }
    InPage(text, pages, parts, i, offset);
  }

  lemma InPage(text: string, pages: seq<Page>, parts: seq<string>, i: nat, offset: nat)
    requires |pages| == |parts| && i < |pages| && PageOk(text, pages, parts, i)
    requires pages[i].start <= offset < |text|
    requires if i + 1 < |pages| then PageOk(text, pages, parts, i + 1) && offset < pages[i + 1].start
             else pages[i].end == |text|
    ensures if offset < pages[i].end
            then offset - pages[i].start < |parts[i]| && parts[i][offset - pages[i].start] == text[offset]
            else offset < pages[i].end + 2 && text[offset] == '\n'
  {
    if offset < pages[i].end {
      assert text[pages[i].start..pages[i].end][offset - pages[i].start] == text[offset];
    } else if i + 1 < |pages| {
      var start := pages[i + 1].start;
      assert text[start - 2..start][offset - (start - 2)] == text[offset];
    }
  }
}
