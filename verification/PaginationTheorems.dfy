/** What pagination promises: the pages are the one greedy tiling of the document, and
    the compact index rebuilds each of them. */
module PaginationTheorems {
  import opened Options
  import opened PageGeometry
  import opened Navigation
  import opened Layouts
  import opened DisplayLists
  import opened Pagination

  /** No line of the document comes before a cursor. */
  ghost predicate IsFirst(layout: DocumentLayout, cursor: DocumentCursor) {
    forall c | IsLine(layout, c) :: AtOrBefore(cursor, c)
  }

  ghost predicate HasNoLines(layout: DocumentLayout) {
    forall c :: !IsLine(layout, c)
  }

  /** No rule asks for a break at a line after the first of a page. */
  ghost predicate NoBreakIn(
    layout: DocumentLayout, style: ReaderStyle, number: nat, start: DocumentCursor, end: DocumentCursor)
  {
    forall c | IsLine(layout, c) && Before(start, c) && Before(c, end) ::
      !ShouldBreakBefore(layout, style, c, start, PageOrigin(layout, style, number, start))
  }

  /** A page shows its range, which is not empty and holds no break. */
  ghost predicate IsPage(layout: DocumentLayout, style: ReaderStyle, k: nat, page: PageLayout)
    requires WellFormed(layout)
  {
    && IsLine(layout, page.range.start)
    && Before(page.range.start, page.range.end)
    && page == PageOf(layout, style, k + 1, page.range)
    && NoBreakIn(layout, style, k + 1, page.range.start, page.range.end)
  }

  /** A page ends where a rule asks for a break, and the next one starts there. */
  ghost predicate EndsAt(
    layout: DocumentLayout, style: ReaderStyle, k: nat, page: PageLayout, next: DocumentCursor)
  {
    && page.range.end == next
    && IsLine(layout, next)
    && ShouldBreakBefore(layout, style, next, page.range.start,
                         PageOrigin(layout, style, k + 1, page.range.start))
  }

  /** The greedy tiling of a document. */
  ghost predicate IsPagination(layout: DocumentLayout, style: ReaderStyle, pages: seq<PageLayout>)
    requires WellFormed(layout)
  {
    if HasNoLines(layout) then
      pages == [BlankPage(1, layout.viewport, DocumentRange(DocumentEnd(layout), DocumentEnd(layout)))]
    else
      && pages != []
      && IsFirst(layout, pages[0].range.start)
      && pages[|pages| - 1].range.end == DocumentEnd(layout)
      && (forall k | 0 <= k < |pages| :: IsPage(layout, style, k, pages[k]))
      && (forall k | 0 <= k < |pages| - 1 :: EndsAt(layout, style, k, pages[k], pages[k + 1].range.start))
  }

  // ---- lines of a range ----------------------------------------------------------------

  /** Only which lines a range contains matters for what it draws. */
  lemma {:induction false} SameLinesDrawAlike(
    layout: DocumentLayout, style: ReaderStyle, r: DocumentRange, s: DocumentRange,
    originY: i32, b: nat, l: nat)
    requires IsPosition(layout, b, l) && r.start == s.start
    requires forall c | IsLine(layout, c) && Before(c, DocumentCursor(b, l)) :: r.Contains(c) == s.Contains(c)
    ensures BodyDrawing(layout, style, r, originY, b, l) == BodyDrawing(layout, style, s, originY, b, l)
    decreases b, l
  {
    if l > 0 {
      assert IsLine(layout, DocumentCursor(b, l - 1));
      SameLinesDrawAlike(layout, style, r, s, originY, b, l - 1);
    } else if b > 0 {
      SameLinesDrawAlike(layout, style, r, s, originY, b - 1, |layout.blocks[b - 1].lines|);
    }
  }

  /** Past its end a range draws nothing more. */
  lemma {:induction false} DrawingStopsAtEnd(
    layout: DocumentLayout, style: ReaderStyle, r: DocumentRange, originY: i32, b: nat, l: nat)
    requires IsPosition(layout, b, l) && IsPosition(layout, r.end.block, r.end.line)
    requires AtOrBefore(r.end, DocumentCursor(b, l))
    ensures BodyDrawing(layout, style, r, originY, b, l)
         == BodyDrawing(layout, style, r, originY, r.end.block, r.end.line)
    decreases b, l
  {
    if DocumentCursor(b, l) != r.end {
      if l > 0 {
        DrawingStopsAtEnd(layout, style, r, originY, b, l - 1);
      } else {
        DrawingStopsAtEnd(layout, style, r, originY, b - 1, |layout.blocks[b - 1].lines|);
      }
    }
  }

  /** Up to its start a range draws nothing. */
  lemma {:induction false} NothingBeforeStart(
    layout: DocumentLayout, style: ReaderStyle, r: DocumentRange, originY: i32, b: nat, l: nat)
    requires IsPosition(layout, b, l) && AtOrBefore(DocumentCursor(b, l), r.start)
    ensures BodyDrawing(layout, style, r, originY, b, l) == Nothing
    decreases b, l
  {
    if l > 0 {
      NothingBeforeStart(layout, style, r, originY, b, l - 1);
    } else if b > 0 {
      NothingBeforeStart(layout, style, r, originY, b - 1, |layout.blocks[b - 1].lines|);
    }
  }

  // ---- the invariant of the scan -----------------------------------------------------------

  function OpenRange(layout: DocumentLayout, start: DocumentCursor): DocumentRange {
    DocumentRange(start, DocumentEnd(layout))
  }

  /** The drawing of the open page before a position. */
  function OpenDrawing(
    layout: DocumentLayout, style: ReaderStyle, number: nat, start: DocumentCursor, b: nat, l: nat): Drawing
    requires WellFormed(layout) && IsPosition(layout, b, l)
  {
    Join(RowDrawing(layout, style, start.block, PageHeader(layout, number, start)),
         BodyDrawing(layout, style, OpenRange(layout, start),
                     PageOrigin(layout, style, number, start), b, l))
  }

  function FirstStart(s: ScanState): DocumentCursor
    requires s.start.Some?
  {
    if s.pages == [] then s.start.value else s.pages[0].range.start
  }

  function NextStart(pages: seq<PageLayout>, k: nat, open: DocumentCursor): DocumentCursor
    requires k < |pages|
  {
    if k + 1 < |pages| then pages[k + 1].range.start else open
  }

  ghost predicate ClosedPages(
    layout: DocumentLayout, style: ReaderStyle, pages: seq<PageLayout>, open: DocumentCursor)
    requires WellFormed(layout)
  {
    forall k | 0 <= k < |pages| ::
      && IsPage(layout, style, k, pages[k])
      && EndsAt(layout, style, k, pages[k], NextStart(pages, k, open))
  }

  ghost predicate OpenPageIs(
    layout: DocumentLayout, style: ReaderStyle, s: ScanState, b: nat, l: nat)
    requires WellFormed(layout) && IsPosition(layout, b, l) && s.start.Some?
  {
    var number, start := |s.pages| + 1, s.start.value;
    && IsLine(layout, start) && Before(start, DocumentCursor(b, l))
    && s.originY == PageOrigin(layout, style, number, start)
    && s.page == Draw(BlankPage(number, layout.viewport, NO_RANGE), OpenDrawing(layout, style, number, start, b, l))
    && NoBreakIn(layout, style, number, start, DocumentCursor(b, l))
  }

  ghost predicate ScanInv(layout: DocumentLayout, style: ReaderStyle, s: ScanState, b: nat, l: nat)
    requires WellFormed(layout) && IsPosition(layout, b, l)
  {
    if s.start.None? then
      && s == InitialScan(layout)
      && (forall c | IsLine(layout, c) :: !Before(c, DocumentCursor(b, l)))
    else
      && OpenPageIs(layout, style, s, b, l)
      && ClosedPages(layout, style, s.pages, s.start.value)
      && IsFirst(layout, FirstStart(s))
  }

  /** The drawing of a page that has just been opened by a line. */
  lemma OneLineDrawing(
    layout: DocumentLayout, style: ReaderStyle, number: nat, cursor: DocumentCursor, page: PageLayout)
    requires WellFormed(layout) && IsLine(layout, cursor)
    requires page == Draw(BlankPage(number, layout.viewport, NO_RANGE),
                          RowDrawing(layout, style, cursor.block, PageHeader(layout, number, cursor)))
    ensures var originY := PageOrigin(layout, style, number, cursor);
      Draw(page, BodyLine(layout, style, cursor, originY, true))
        == Draw(BlankPage(number, layout.viewport, NO_RANGE),
                OpenDrawing(layout, style, number, cursor, cursor.block, cursor.line + 1))
  {
    var originY := PageOrigin(layout, style, number, cursor);
    var line := BodyLine(layout, style, cursor, originY, true);
    NothingBeforeStart(layout, style, OpenRange(layout, cursor), originY, cursor.block, cursor.line);
    DrawOver(BlankPage(number, layout.viewport, NO_RANGE),
             RowDrawing(layout, style, cursor.block, PageHeader(layout, number, cursor)), Nothing, line);
  }

  lemma FirstLineKeepsInv(layout: DocumentLayout, style: ReaderStyle, s: ScanState, b: nat, l: nat)
    requires WellFormed(layout) && IsLine(layout, DocumentCursor(b, l))
    requires ScanInv(layout, style, s, b, l) && s.start.None?
    ensures ScanInv(layout, style, ScanLine(layout, style, s, DocumentCursor(b, l)), b, l + 1)
  {
    OneLineDrawing(layout, style, 1, DocumentCursor(b, l), s.page);
  }

  /** One more line on a page that is already open. */
  lemma LongerDrawing(
    layout: DocumentLayout, style: ReaderStyle, number: nat, start: DocumentCursor, page: PageLayout, b: nat, l: nat)
    requires WellFormed(layout) && IsLine(layout, DocumentCursor(b, l)) && Before(start, DocumentCursor(b, l))
    requires page == Draw(BlankPage(number, layout.viewport, NO_RANGE),
                          OpenDrawing(layout, style, number, start, b, l))
    ensures var originY := PageOrigin(layout, style, number, start);
      Draw(page, BodyLine(layout, style, DocumentCursor(b, l), originY, false))
        == Draw(BlankPage(number, layout.viewport, NO_RANGE), OpenDrawing(layout, style, number, start, b, l + 1))
  {
    var originY := PageOrigin(layout, style, number, start);
    var header := RowDrawing(layout, style, start.block, PageHeader(layout, number, start));
    var above := BodyDrawing(layout, style, OpenRange(layout, start), originY, b, l);
    var line := BodyLine(layout, style, DocumentCursor(b, l), originY, false);
    DrawOver(BlankPage(number, layout.viewport, NO_RANGE), header, above, line);
  }

  lemma NoBreakExtends(layout: DocumentLayout, style: ReaderStyle, number: nat, start: DocumentCursor, b: nat, l: nat)
    requires NoBreakIn(layout, style, number, start, DocumentCursor(b, l)) && IsLine(layout, DocumentCursor(b, l))
    requires !ShouldBreakBefore(layout, style, DocumentCursor(b, l), start, PageOrigin(layout, style, number, start))
    ensures NoBreakIn(layout, style, number, start, DocumentCursor(b, l + 1))
  {
    forall c | IsLine(layout, c) && Before(start, c) && Before(c, DocumentCursor(b, l + 1))
      ensures !ShouldBreakBefore(layout, style, c, start, PageOrigin(layout, style, number, start))
    {
      assert c == DocumentCursor(b, l) || Before(c, DocumentCursor(b, l));
    }
  }

  lemma NextLineKeepsInv(layout: DocumentLayout, style: ReaderStyle, s: ScanState, b: nat, l: nat)
    requires WellFormed(layout) && IsLine(layout, DocumentCursor(b, l))
    requires s.start.Some? && OpenPageIs(layout, style, s, b, l)
    requires !ShouldBreakBefore(layout, style, DocumentCursor(b, l), s.start.value, s.originY)
    ensures OpenPageIs(layout, style, AddBody(layout, style, s, DocumentCursor(b, l)), b, l + 1)
  {
    LongerDrawing(layout, style, |s.pages| + 1, s.start.value, s.page, b, l);
    NoBreakExtends(layout, style, |s.pages| + 1, s.start.value, b, l);
  }

  /** Closing the open page at a line leaves the page of its range. */
  lemma ClosedPageIs(layout: DocumentLayout, style: ReaderStyle, s: ScanState, b: nat, l: nat)
    requires WellFormed(layout) && IsPosition(layout, b, l)
    requires s.start.Some? && OpenPageIs(layout, style, s, b, l)
    ensures IsPage(layout, style, |s.pages|, s.page.(range := DocumentRange(s.start.value, DocumentCursor(b, l))))
  {
    var number, start := |s.pages| + 1, s.start.value;
    var r := DocumentRange(start, DocumentCursor(b, l));
    DrawingStopsAtEnd(layout, style, r, s.originY, |layout.blocks|, 0);
    SameLinesDrawAlike(layout, style, r, OpenRange(layout, start), s.originY, b, l);
    DrawIgnoresRange(BlankPage(number, layout.viewport, NO_RANGE), OpenDrawing(layout, style, number, start, b, l), r);
  }

  lemma TurnedPageOpens(layout: DocumentLayout, style: ReaderStyle, s: ScanState, b: nat, l: nat)
    requires WellFormed(layout) && IsLine(layout, DocumentCursor(b, l))
    requires s.start.Some?
    ensures var turned := TurnPage(layout, style, s, DocumentCursor(b, l));
      OpenPageIs(layout, style, AddBody(layout, style, turned, DocumentCursor(b, l)), b, l + 1)
  {
    var turned := TurnPage(layout, style, s, DocumentCursor(b, l));
    assert |turned.pages| + 1 > 1;
    OneLineDrawing(layout, style, |turned.pages| + 1, DocumentCursor(b, l), turned.page);
  }

  lemma OneMoreClosed(
    layout: DocumentLayout, style: ReaderStyle, pages: seq<PageLayout>, page: PageLayout, cursor: DocumentCursor)
    requires WellFormed(layout) && ClosedPages(layout, style, pages, page.range.start)
    requires IsPage(layout, style, |pages|, page) && EndsAt(layout, style, |pages|, page, cursor)
    ensures ClosedPages(layout, style, pages + [page], cursor)
  {
    var more := pages + [page];
    forall k | 0 <= k < |more|
      ensures IsPage(layout, style, k, more[k]) && EndsAt(layout, style, k, more[k], NextStart(more, k, cursor))
    {
      if k < |pages| {
        assert more[k] == pages[k] && NextStart(more, k, cursor) == NextStart(pages, k, page.range.start);
      }
    }
  }

  lemma TurnedPageKeepsInv(layout: DocumentLayout, style: ReaderStyle, s: ScanState, b: nat, l: nat)
    requires WellFormed(layout) && IsLine(layout, DocumentCursor(b, l))
    requires s.start.Some? && OpenPageIs(layout, style, s, b, l)
    requires ClosedPages(layout, style, s.pages, s.start.value)
    requires ShouldBreakBefore(layout, style, DocumentCursor(b, l), s.start.value, s.originY)
    ensures var t := ScanLine(layout, style, s, DocumentCursor(b, l));
      OpenPageIs(layout, style, t, b, l + 1) && ClosedPages(layout, style, t.pages, t.start.value)
  {
    var cursor := DocumentCursor(b, l);
    ClosedPageIs(layout, style, s, b, l);
    TurnedPageOpens(layout, style, s, b, l);
    OneMoreClosed(layout, style, s.pages, s.page.(range := DocumentRange(s.start.value, cursor)), cursor);
  }

  /** The end of a block is the start of the next. */
  lemma NextBlockKeepsInv(layout: DocumentLayout, style: ReaderStyle, s: ScanState, b: nat)
    requires WellFormed(layout) && b < |layout.blocks|
    requires ScanInv(layout, style, s, b, |layout.blocks[b].lines|)
    ensures ScanInv(layout, style, s, b + 1, 0)
  {
    if s.start.Some? {
      var number, start, n := |s.pages| + 1, s.start.value, |layout.blocks[b].lines|;
      assert OpenDrawing(layout, style, number, start, b, n) == OpenDrawing(layout, style, number, start, b + 1, 0);
    }
  }

  lemma LineKeepsInv(layout: DocumentLayout, style: ReaderStyle, s: ScanState, b: nat, l: nat)
    requires WellFormed(layout) && IsLine(layout, DocumentCursor(b, l))
    requires ScanInv(layout, style, s, b, l)
    ensures ScanInv(layout, style, ScanLine(layout, style, s, DocumentCursor(b, l)), b, l + 1)
  {
    if s.start.None? {
      FirstLineKeepsInv(layout, style, s, b, l);
    } else if ShouldBreakBefore(layout, style, DocumentCursor(b, l), s.start.value, s.originY) {
      TurnedPageKeepsInv(layout, style, s, b, l);
    } else {
      NextLineKeepsInv(layout, style, s, b, l);
    }
  }

  lemma {:induction false} ScanHasInv(layout: DocumentLayout, style: ReaderStyle, b: nat, l: nat)
    returns (s: ScanState)
    requires WellFormed(layout) && IsPosition(layout, b, l)
    ensures s == Scan(layout, style, b, l) && ScanInv(layout, style, s, b, l)
    decreases b, l
  {
    if l > 0 {
      var before := ScanHasInv(layout, style, b, l - 1);
      LineKeepsInv(layout, style, before, b, l - 1);
      s := ScanLine(layout, style, before, DocumentCursor(b, l - 1));
    } else if b > 0 {
      s := ScanHasInv(layout, style, b - 1, |layout.blocks[b - 1].lines|);
      NextBlockKeepsInv(layout, style, s, b - 1);
    } else {
      s := InitialScan(layout);
    }
  }

  // ---- the greedy tiling ----------------------------------------------------------------------

  /** Closing the last page completes the tiling. */
  lemma LastPageCompletes(
    layout: DocumentLayout, style: ReaderStyle, pages: seq<PageLayout>, last: PageLayout)
    requires WellFormed(layout) && ClosedPages(layout, style, pages, last.range.start)
    requires IsPage(layout, style, |pages|, last) && last.range.end == DocumentEnd(layout)
    requires IsFirst(layout, if pages == [] then last.range.start else pages[0].range.start)
    ensures IsPagination(layout, style, pages + [last])
  {
    var all := pages + [last];
    assert IsLine(layout, last.range.start);
    forall k | 0 <= k < |all|
      ensures IsPage(layout, style, k, all[k])
      ensures k < |all| - 1 ==> EndsAt(layout, style, k, all[k], all[k + 1].range.start)
    {
      if k < |pages| {
        assert all[k] == pages[k] && NextStart(pages, k, last.range.start) == all[k + 1].range.start;
      }
    }
  }

  /** Pagination yields the greedy tiling. */
  lemma PagesTileTheDocument(layout: DocumentLayout, style: ReaderStyle)
    requires WellFormed(layout)
    ensures IsPagination(layout, style, Pages(layout, style))
  {
    var n := |layout.blocks|;
    var s := ScanHasInv(layout, style, n, 0);
    if s.start.None? {
      forall c ensures !IsLine(layout, c) {
        assert Before(c, DocumentCursor(n, 0)) || !IsLine(layout, c);
      }
    } else {
      ClosedPageIs(layout, style, s, n, 0);
      LastPageCompletes(
        layout, style, s.pages, s.page.(range := DocumentRange(s.start.value, DocumentEnd(layout))));
    }
  }

  lemma EndIsLineOrDocumentEnd(layout: DocumentLayout, style: ReaderStyle, pages: seq<PageLayout>, k: nat)
    requires WellFormed(layout) && IsPagination(layout, style, pages) && !HasNoLines(layout) && k < |pages|
    ensures pages[k].range.end == DocumentEnd(layout)
         || (k < |pages| - 1 && EndsAt(layout, style, k, pages[k], pages[k].range.end))
  {
    if k < |pages| - 1 {
      assert EndsAt(layout, style, k, pages[k], pages[k + 1].range.start);
    }
  }

  /** Two greedy tilings agree on a page that they start alike. */
  lemma SameStartSamePage(
    layout: DocumentLayout, style: ReaderStyle, p: seq<PageLayout>, q: seq<PageLayout>, k: nat)
    requires WellFormed(layout) && !HasNoLines(layout)
    requires IsPagination(layout, style, p) && IsPagination(layout, style, q)
    requires k < |p| && k < |q| && p[k].range.start == q[k].range.start
    ensures p[k] == q[k]
  {
    EndIsLineOrDocumentEnd(layout, style, p, k);
    EndIsLineOrDocumentEnd(layout, style, q, k);
    assert IsPage(layout, style, k, p[k]) && IsPage(layout, style, k, q[k]);
  }

  lemma {:induction false} TilingsAgree(
    layout: DocumentLayout, style: ReaderStyle, p: seq<PageLayout>, q: seq<PageLayout>, k: nat)
    requires WellFormed(layout) && !HasNoLines(layout)
    requires IsPagination(layout, style, p) && IsPagination(layout, style, q)
    requires k < |p|
    ensures k < |q| && p[k] == q[k]
  {
    if k > 0 {
      TilingsAgree(layout, style, p, q, k - 1);
      assert EndsAt(layout, style, k - 1, p[k - 1], p[k].range.start);
      assert q[|q| - 1].range.end == DocumentEnd(layout);
      assert EndsAt(layout, style, k - 1, q[k - 1], q[k].range.start);
    }
    SameStartSamePage(layout, style, p, q, k);
  }

  /** The greedy tiling is unique, so `IsPagination` says exactly what the pages are. */
  lemma PaginationIsUnique(layout: DocumentLayout, style: ReaderStyle, pages: seq<PageLayout>)
    requires WellFormed(layout)
    ensures IsPagination(layout, style, pages) <==> pages == Pages(layout, style)
  {
    var q := Pages(layout, style);
    PagesTileTheDocument(layout, style);
    if IsPagination(layout, style, pages) && !HasNoLines(layout) {
      forall k | 0 <= k < |pages| ensures k < |q| && pages[k] == q[k] {
        TilingsAgree(layout, style, pages, q, k);
      }
      TilingsAgree(layout, style, pages, q, |pages| - 1);
      TilingsAgree(layout, style, q, pages, |q| - 1);
    }
  }

  // ---- every line is on one page ------------------------------------------------------------------

  lemma {:induction false} LaterPagesStartLater(
    layout: DocumentLayout, style: ReaderStyle, pages: seq<PageLayout>, i: nat, j: nat)
    requires WellFormed(layout) && IsPagination(layout, style, pages) && i < j < |pages|
    ensures AtOrBefore(pages[i].range.end, pages[j].range.start)
    decreases j
  {
    assert EndsAt(layout, style, j - 1, pages[j - 1], pages[j].range.start);
    if i < j - 1 {
      LaterPagesStartLater(layout, style, pages, i, j - 1);
      assert IsPage(layout, style, j - 1, pages[j - 1]);
    }
  }

  lemma {:induction false} SomePageHolds(
    layout: DocumentLayout, style: ReaderStyle, pages: seq<PageLayout>, cursor: DocumentCursor, k: nat) returns (i: nat)
    requires WellFormed(layout) && IsPagination(layout, style, pages) && IsLine(layout, cursor)
    requires k < |pages| && AtOrBefore(pages[k].range.start, cursor)
    ensures i < |pages| && pages[i].range.Contains(cursor)
    decreases |pages| - k
  {
    if Before(cursor, pages[k].range.end) {
      i := k;
    } else {
      assert EndsAt(layout, style, k, pages[k], pages[k + 1].range.start);
      i := SomePageHolds(layout, style, pages, cursor, k + 1);
    }
  }

  /** Every line belongs to exactly one page. */
  lemma EveryLineIsOnOnePage(layout: DocumentLayout, style: ReaderStyle, cursor: DocumentCursor)
    requires WellFormed(layout) && IsLine(layout, cursor)
    ensures var pages := Pages(layout, style);
      exists k :: 0 <= k < |pages| && pages[k].range.Contains(cursor)
        && forall i | 0 <= i < |pages| && pages[i].range.Contains(cursor) :: i == k
  {
    var pages := Pages(layout, style);
    PagesTileTheDocument(layout, style);
    var k := SomePageHolds(layout, style, pages, cursor, 0);
    forall i | 0 <= i < |pages| && pages[i].range.Contains(cursor) ensures i == k {
      if i < k {
        LaterPagesStartLater(layout, style, pages, i, k);
      } else if k < i {
        LaterPagesStartLater(layout, style, pages, k, i);
      }
    }
  }

  // ---- rebuilding a page ---------------------------------------------------------------------------

  function IndexOf(layout: DocumentLayout, style: ReaderStyle): PaginationIndex
    requires WellFormed(layout)
  {
    PaginationIndex(layout.viewport, Entries(layout, style, Pages(layout, style)))
  }

  /** An entry rebuilds the page it was made from. */
  lemma EntryRebuildsPage(layout: DocumentLayout, style: ReaderStyle, k: nat, page: PageLayout)
    requires WellFormed(layout) && IsPage(layout, style, k, page)
    requires k > 0 || HeaderAbove(layout, page.range.start).None?
    ensures EntryPage(layout, style, layout.viewport, EntryOf(layout, style, page), k + 1) == Some(page)
  {
    var start := page.range.start;
    var header := HeaderAbove(layout, start);
    if header.Some? {
      assert RowsInBounds(layout.blocks[start.block]);
    }
  }

  /** The compact index rebuilds every page that the full scan produced: the same range,
      commands and hit regions in the same order. On the first page this needs that the
      document does not open below a header of its group. */
  lemma IndexRebuildsEveryPage(layout: DocumentLayout, style: ReaderStyle, k: nat)
    requires WellFormed(layout) && k < |Pages(layout, style)|
    requires var start := Pages(layout, style)[0].range.start;
             k > 0 || !IsLine(layout, start) || HeaderAbove(layout, start).None?
    ensures RebuiltPage(layout, style, IndexOf(layout, style), k) == Some(Pages(layout, style)[k])
  {
    var page := Pages(layout, style)[k];
    PagesTileTheDocument(layout, style);
    if HasNoLines(layout) {
      NoLinesDrawNothing(layout, style, page.range, 0, |layout.blocks|, 0);
    } else {
      assert IsPage(layout, style, k, page);
      EntryRebuildsPage(layout, style, k, page);
    }
  }

  /** In every table, the header rows of a group lie above its data rows. */
  ghost predicate HeadersComeFirst(layout: DocumentLayout) {
    forall b | 0 <= b < |layout.blocks| && layout.blocks[b].table.Some? ::
      var rows := layout.blocks[b].table.value.rows;
      forall h, r | h in rows && r in rows && h.group == r.group && h.header && !r.header :: h.end <= r.first
  }

  /** So the compact index is exact for every layout whose headers come first. */
  lemma IndexIsExact(layout: DocumentLayout, style: ReaderStyle, k: nat)
    requires WellFormed(layout) && HeadersComeFirst(layout)
    ensures RebuiltPage(layout, style, IndexOf(layout, style), k)
         == if k < |Pages(layout, style)| then Some(Pages(layout, style)[k]) else None
  {
    var pages := Pages(layout, style);
    var start := pages[0].range.start;
    PagesTileTheDocument(layout, style);
    if k < |pages| {
      if IsLine(layout, start) {
        assert start.line == 0 by {
          assert IsLine(layout, DocumentCursor(start.block, 0));
        }
        NoHeaderAboveTop(layout, start);
      }
      IndexRebuildsEveryPage(layout, style, k);
    }
  }

  lemma NoHeaderAboveTop(layout: DocumentLayout, cursor: DocumentCursor)
    requires WellFormed(layout) && HeadersComeFirst(layout) && IsLine(layout, cursor) && cursor.line == 0
    ensures HeaderAbove(layout, cursor).None?
  {
    var header := HeaderAbove(layout, cursor);
    if header.Some? {
      var row := TableRowAt(layout.blocks[cursor.block].table.value, 0);
      assert RowsInBounds(layout.blocks[cursor.block]);
    }
  }

  lemma {:induction false} NoLinesDrawNothing(
    layout: DocumentLayout, style: ReaderStyle, r: DocumentRange, originY: i32, b: nat, l: nat)
    requires IsPosition(layout, b, l) && HasNoLines(layout)
    ensures BodyDrawing(layout, style, r, originY, b, l) == Nothing
    decreases b, l
  {
    assert l > 0 ==> IsLine(layout, DocumentCursor(b, l - 1));
    if b > 0 {
      NoLinesDrawNothing(layout, style, r, originY, b - 1, |layout.blocks[b - 1].lines|);
    }
  }

  /** The index finds the first page whose range holds a position, and nothing when no page
      holds it; for a line it finds the one page of that line. */
  lemma IndexFindsThePage(layout: DocumentLayout, style: ReaderStyle, cursor: DocumentCursor)
    requires WellFormed(layout)
    ensures var pages, found := Pages(layout, style), PageIndexForCursor(IndexOf(layout, style).pages, cursor);
      && (found.None? <==> forall k | 0 <= k < |pages| :: !pages[k].range.Contains(cursor))
      && (found.Some? ==> found.value < |pages| && pages[found.value].range.Contains(cursor))
      && (IsLine(layout, cursor) ==>
            found.Some? && forall k | 0 <= k < |pages| :: pages[k].range.Contains(cursor) <==> k == found.value)
  {
    var pages, entries := Pages(layout, style), IndexOf(layout, style).pages;
    var found := PageIndexForCursor(entries, cursor);
    forall k | 0 <= k < |pages| ensures entries[k].range == pages[k].range && entries[k] in entries {
      assert entries[k] == EntryOf(layout, style, pages[k]);
    }
    if IsLine(layout, cursor) {
      EveryLineIsOnOnePage(layout, style, cursor);
    }
  }
}
