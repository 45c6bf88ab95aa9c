/** Where lines, headers, table rows and paragraphs land on the pages. */
module PageBreaks {
  import opened Options
  import opened PageGeometry
  import opened Navigation
  import opened Layouts
  import opened DisplayLists
  import opened Pagination
  import opened PaginationTheorems

  const MODERATE := 0x1000_0000

  /** Coordinates so small that no 32-bit operation of the paginator saturates. */
  ghost predicate IsModerate(layout: DocumentLayout, style: ReaderStyle) {
    && layout.viewport.height <= MODERATE
    && style.pagePadding.top <= MODERATE
    && style.pagePadding.bottom <= MODERATE
    && forall c | IsLine(layout, c) ::
         0 <= LineAt(layout, c).bounds.y && LineAt(layout, c).bounds.y + LineAt(layout, c).bounds.height <= MODERATE
  }

  /** Tops and bottoms of lines never go up in document order. */
  ghost predicate IsOrdered(layout: DocumentLayout) {
    forall c, d | IsLine(layout, c) && IsLine(layout, d) && Before(c, d) ::
      var upper, lower := LineAt(layout, c).bounds, LineAt(layout, d).bounds;
      upper.y <= lower.y && LineBottom(upper) <= LineBottom(lower)
  }

  /** Rows are in display order and share no line. */
  ghost predicate RowsAreDisjoint(block: LayoutBlock) {
    block.table.Some? ==>
      var rows := block.table.value.rows;
      forall i, j | 0 <= i < j < |rows| :: rows[i].end <= rows[j].first
  }

  function OriginOfPage(layout: DocumentLayout, style: ReaderStyle, k: nat): i32
    requires WellFormed(layout) && k < |Pages(layout, style)|
  {
    PageOrigin(layout, style, k + 1, Pages(layout, style)[k].range.start)
  }

  /** Where page `k` shows a line of its range. */
  function PlacedBody(layout: DocumentLayout, style: ReaderStyle, k: nat, cursor: DocumentCursor): Rect
    requires WellFormed(layout) && k < |Pages(layout, style)| && IsLine(layout, cursor)
  {
    Translate(LineAt(layout, cursor).bounds, Point(0, SatNeg(OriginOfPage(layout, style, k))))
  }

  /** Where a page shows a line of the header row it repeats. */
  function PlacedHeader(layout: DocumentLayout, style: ReaderStyle, b: nat, header: TableRow, line: nat): Rect
    requires b < |layout.blocks| && header.first <= line < |layout.blocks[b].lines|
  {
    var block := layout.blocks[b];
    Translate(block.lines[line].bounds, HeaderOffset(block, style, header.first))
  }

  // ---- facts about one page -------------------------------------------------------------

  lemma PageFacts(layout: DocumentLayout, style: ReaderStyle, k: nat, cursor: DocumentCursor)
    requires WellFormed(layout) && k < |Pages(layout, style)| && IsLine(layout, cursor)
    ensures var range := Pages(layout, style)[k].range;
      && IsLine(layout, range.start)
      && Before(range.start, range.end)
      && (Before(range.start, cursor) && Before(cursor, range.end) ==>
            !ShouldBreakBefore(layout, style, cursor, range.start, OriginOfPage(layout, style, k)))
  {
    PagesTileTheDocument(layout, style);
    assert IsPage(layout, style, k, Pages(layout, style)[k]);
  }

  /** A page that is not the last ends at a line that asks for a break. */
  lemma PageEnd(layout: DocumentLayout, style: ReaderStyle, k: nat)
    requires WellFormed(layout) && k + 1 < |Pages(layout, style)|
    ensures var range, next := Pages(layout, style)[k].range, Pages(layout, style)[k + 1].range.start;
      && range.end == next && IsLine(layout, next)
      && ShouldBreakBefore(layout, style, next, range.start, OriginOfPage(layout, style, k))
  {
    PagesTileTheDocument(layout, style);
    assert EndsAt(layout, style, k, Pages(layout, style)[k], Pages(layout, style)[k + 1].range.start);
  }

  lemma PageHolding(layout: DocumentLayout, style: ReaderStyle, cursor: DocumentCursor) returns (k: nat)
    requires WellFormed(layout) && IsLine(layout, cursor)
    ensures k < |Pages(layout, style)| && Pages(layout, style)[k].range.Contains(cursor)
  {
    PagesTileTheDocument(layout, style);
    k := SomePageHolds(layout, style, Pages(layout, style), cursor, 0);
  }

  lemma ModerateHeight(layout: DocumentLayout, style: ReaderStyle, block: LayoutBlock, row: TableRow)
    requires IsModerate(layout, style) && block in layout.blocks
    ensures -MODERATE <= TableRowHeight(block, row) <= MODERATE
    ensures row.first < row.end <= |block.lines| ==>
      TableRowHeight(block, row)
        == LineBottom(block.lines[row.end - 1].bounds) - block.lines[row.first].bounds.y
  {
    var b :| 0 <= b < |layout.blocks| && layout.blocks[b] == block;
    if row.first < |block.lines| {
      assert IsLine(layout, DocumentCursor(b, row.first));
      var end := if row.end == 0 then 0 else row.end - 1;
      if end < |block.lines| {
        assert IsLine(layout, DocumentCursor(b, end));
      }
    }
  }

  lemma ModerateOrigin(layout: DocumentLayout, style: ReaderStyle, cursor: DocumentCursor)
    requires IsModerate(layout, style) && IsLine(layout, cursor)
    ensures Origin(layout, style, cursor)
         == LineAt(layout, cursor).bounds.y - style.pagePadding.top
            - (match HeaderAbove(layout, cursor)
               case None => 0
               case Some(header) => TableRowHeight(layout.blocks[cursor.block], header))
    ensures -2 * MODERATE <= Origin(layout, style, cursor) <= 2 * MODERATE
  {
    var header := HeaderAbove(layout, cursor);
    if header.Some? {
      ModerateHeight(layout, style, layout.blocks[cursor.block], header.value);
    }
  }

  // ---- lines stay above the bottom padding -------------------------------------------------

  /** Every line that is not the first of its page ends at or above the bottom padding,
      except the later lines of an image whose first line opened the page. */
  lemma LinesEndAboveBottomPadding(layout: DocumentLayout, style: ReaderStyle, k: nat, cursor: DocumentCursor)
    requires WellFormed(layout) && IsModerate(layout, style) && k < |Pages(layout, style)|
    requires IsLine(layout, cursor)
    requires Pages(layout, style)[k].range.Contains(cursor) && cursor != Pages(layout, style)[k].range.start
    ensures var placed, start := PlacedBody(layout, style, k, cursor), Pages(layout, style)[k].range.start;
      || placed.y + placed.height <= PageHeight(layout) - style.pagePadding.bottom
      || (layout.blocks[cursor.block].kind.Image? && cursor.line > 0 && start == DocumentCursor(cursor.block, 0))
  {
    PageFacts(layout, style, k, cursor);
    var start := Pages(layout, style)[k].range.start;
    if k > 0 {
      ModerateOrigin(layout, style, start);
    }
    FittingLineIsAbovePadding(layout, style, cursor, OriginOfPage(layout, style, k));
  }

  lemma FittingLineIsAbovePadding(layout: DocumentLayout, style: ReaderStyle, cursor: DocumentCursor, originY: i32)
    requires IsModerate(layout, style) && IsLine(layout, cursor)
    requires -2 * MODERATE <= originY <= 2 * MODERATE
    ensures var placed := Translate(LineAt(layout, cursor).bounds, Point(0, SatNeg(originY)));
      (LineBottom(LineAt(layout, cursor).bounds) <= PageLimit(layout, style, originY))
      <==> (placed.y + placed.height <= PageHeight(layout) - style.pagePadding.bottom)
  {
    var bounds := LineAt(layout, cursor).bounds;
    assert LineBottom(bounds) == bounds.y + bounds.height;
  }

  // ---- repeated headers ----------------------------------------------------------------------

  /** A page after the first shows its first line right below what it repeats: at the top
      padding when it repeats nothing, else where the repeated header ends; and the
      header starts at the top padding. */
  lemma HeaderFillsTheTop(layout: DocumentLayout, style: ReaderStyle, k: nat)
    requires WellFormed(layout) && IsModerate(layout, style) && 0 < k < |Pages(layout, style)|
    ensures IsLine(layout, Pages(layout, style)[k].range.start)
    ensures TopIsFilled(layout, style, Pages(layout, style)[k].range.start, OriginOfPage(layout, style, k))
  {
    PageEnd(layout, style, k - 1);
    OriginLeavesRoomForHeader(layout, style, Pages(layout, style)[k].range.start);
  }

  ghost predicate TopIsFilled(layout: DocumentLayout, style: ReaderStyle, start: DocumentCursor, originY: i32)
    requires IsLine(layout, start)
  {
    var body := Translate(LineAt(layout, start).bounds, Point(0, SatNeg(originY)));
    match HeaderAbove(layout, start)
    case None => body.y == style.pagePadding.top
    case Some(header) =>
      && header.first < header.end <= |layout.blocks[start.block].lines|
      && PlacedHeader(layout, style, start.block, header, header.first).y == style.pagePadding.top
      && LineBottom(PlacedHeader(layout, style, start.block, header, header.end - 1)) == body.y
  }

  /** Moderate coordinates are moved without saturation. */
  lemma PlacedExactly(r: Rect, y: i32)
    requires 0 <= r.y && r.y + r.height <= MODERATE && -2 * MODERATE <= y <= 2 * MODERATE
    ensures var placed := Translate(r, Point(0, y));
      placed.y == r.y + y && LineBottom(placed) == LineBottom(r) + y && LineBottom(r) == r.y + r.height
  {
  }

  lemma HeaderPlacedExactly(layout: DocumentLayout, style: ReaderStyle, b: nat, header: TableRow, line: nat)
    requires IsModerate(layout, style) && b < |layout.blocks| && header.first <= line < |layout.blocks[b].lines|
    ensures var lines := layout.blocks[b].lines;
      var placed := PlacedHeader(layout, style, b, header, line);
      && placed.y == lines[line].bounds.y - lines[header.first].bounds.y + style.pagePadding.top
      && LineBottom(placed)
         == LineBottom(lines[line].bounds) - lines[header.first].bounds.y + style.pagePadding.top
  {
    var block := layout.blocks[b];
    assert LineAt(layout, DocumentCursor(b, header.first)) == block.lines[header.first];
    assert LineAt(layout, DocumentCursor(b, line)) == block.lines[line];
    PlacedExactly(block.lines[line].bounds, HeaderOffset(block, style, header.first).y);
  }

  lemma OriginLeavesRoomForHeader(layout: DocumentLayout, style: ReaderStyle, start: DocumentCursor)
    requires WellFormed(layout) && IsModerate(layout, style) && IsLine(layout, start)
    ensures TopIsFilled(layout, style, start, Origin(layout, style, start))
  {
    ModerateOrigin(layout, style, start);
    PlacedExactly(LineAt(layout, start).bounds, SatNeg(Origin(layout, style, start)));
    var header := HeaderAbove(layout, start);
    if header.Some? {
      assert RowsInBounds(layout.blocks[start.block]);
      ModerateHeight(layout, style, layout.blocks[start.block], header.value);
      HeaderPlacedExactly(layout, style, start.block, header.value, header.value.first);
      HeaderPlacedExactly(layout, style, start.block, header.value, header.value.end - 1);
    }
  }

  /** In a layout whose lines follow each other, no header line reaches below the first
      body line, and no body line starts above it: nothing overlaps. */
  lemma HeaderAndBodyDoNotOverlap(
    layout: DocumentLayout, style: ReaderStyle, k: nat, line: nat, cursor: DocumentCursor)
    requires WellFormed(layout) && IsModerate(layout, style) && IsOrdered(layout)
    requires 0 < k < |Pages(layout, style)|
    requires IsLine(layout, cursor) && Pages(layout, style)[k].range.Contains(cursor)
    requires var start := Pages(layout, style)[k].range.start;
      && IsLine(layout, start)
      && var header := HeaderAbove(layout, start);
         header.Some? && header.value.first <= line < header.value.end
    ensures var start := Pages(layout, style)[k].range.start;
      var header := HeaderAbove(layout, start).value;
      && line < |layout.blocks[start.block].lines|
      && var placed := PlacedHeader(layout, style, start.block, header, line);
         && style.pagePadding.top <= placed.y
         && LineBottom(placed) <= PlacedBody(layout, style, k, cursor).y
  {
    var start := Pages(layout, style)[k].range.start;
    HeaderFillsTheTop(layout, style, k);
    HeaderLinesStayAbove(layout, style, start.block, HeaderAbove(layout, start).value, line);
    BodyLinesStayBelow(layout, style, k, cursor);
  }

  lemma HeaderLinesStayAbove(layout: DocumentLayout, style: ReaderStyle, b: nat, header: TableRow, line: nat)
    requires IsModerate(layout, style) && IsOrdered(layout)
    requires b < |layout.blocks| && header.first <= line < header.end <= |layout.blocks[b].lines|
    ensures style.pagePadding.top <= PlacedHeader(layout, style, b, header, line).y
    ensures LineBottom(PlacedHeader(layout, style, b, header, line))
         <= LineBottom(PlacedHeader(layout, style, b, header, header.end - 1))
  {
    HeaderPlacedExactly(layout, style, b, header, line);
    HeaderPlacedExactly(layout, style, b, header, header.end - 1);
    OrderedBounds(layout, DocumentCursor(b, header.first), DocumentCursor(b, line));
    OrderedBounds(layout, DocumentCursor(b, line), DocumentCursor(b, header.end - 1));
  }

  lemma BodyLinesStayBelow(layout: DocumentLayout, style: ReaderStyle, k: nat, cursor: DocumentCursor)
    requires WellFormed(layout) && IsModerate(layout, style) && IsOrdered(layout)
    requires 0 < k < |Pages(layout, style)| && IsLine(layout, Pages(layout, style)[k].range.start)
    requires IsLine(layout, cursor) && Pages(layout, style)[k].range.Contains(cursor)
    ensures PlacedBody(layout, style, k, Pages(layout, style)[k].range.start).y
         <= PlacedBody(layout, style, k, cursor).y
  {
    var start := Pages(layout, style)[k].range.start;
    var y := SatNeg(OriginOfPage(layout, style, k));
    ModerateOrigin(layout, style, start);
    PlacedExactly(LineAt(layout, start).bounds, y);
    PlacedExactly(LineAt(layout, cursor).bounds, y);
    OrderedBounds(layout, start, cursor);
  }

  lemma OrderedBounds(layout: DocumentLayout, c: DocumentCursor, d: DocumentCursor)
    requires IsOrdered(layout) && IsLine(layout, c) && IsLine(layout, d) && AtOrBefore(c, d)
    ensures LineAt(layout, c).bounds.y <= LineAt(layout, d).bounds.y
    ensures LineBottom(LineAt(layout, c).bounds) <= LineBottom(LineAt(layout, d).bounds)
  {
    if c != d {
      assert Before(c, d);
    }
  }

  // ---- table rows -----------------------------------------------------------------------------

  lemma RowAt(block: LayoutBlock, row: TableRow, line: nat)
    requires block.table.Some? && RowsAreDisjoint(block) && RowsInBounds(block)
    requires row in block.table.value.rows && row.first <= line < row.end
    ensures TableRowAt(block.table.value, line) == Some(row)
  {
    var found := TableRowAt(block.table.value, line);
    var rows := block.table.value.rows;
    assert found.Some? by {
      var holds := (r: TableRow) => r.first <= line < r.end;
      assert holds(row);
    }
    var i :| 0 <= i < |rows| && rows[i] == row;
    var j :| 0 <= j < |rows| && rows[j] == found.value;
  }

  /** A row whose last line is above the limit is not split by a later line. */
  lemma NoBreakInsideFittingRow(
    layout: DocumentLayout, style: ReaderStyle, b: nat, row: TableRow, line: nat, start: DocumentCursor, originY: i32)
    requires WellFormed(layout) && IsOrdered(layout) && b < |layout.blocks|
    requires layout.blocks[b].kind.Table? && layout.blocks[b].table.Some? && RowsAreDisjoint(layout.blocks[b])
    requires row in layout.blocks[b].table.value.rows && row.first < line < row.end
    requires LineBottom(layout.blocks[b].lines[row.end - 1].bounds) <= PageLimit(layout, style, originY)
    ensures IsLine(layout, DocumentCursor(b, line))
    ensures !ShouldBreakBefore(layout, style, DocumentCursor(b, line), start, originY)
  {
    assert RowsInBounds(layout.blocks[b]);
    RowAt(layout.blocks[b], row, line);
    OrderedBounds(layout, DocumentCursor(b, line), DocumentCursor(b, row.end - 1));
  }

  /** A row whose first line does not open its page ends above the limit. */
  lemma UnopenedRowFits(layout: DocumentLayout, style: ReaderStyle, b: nat, row: TableRow, j: nat)
    requires WellFormed(layout) && b < |layout.blocks| && j < |Pages(layout, style)|
    requires layout.blocks[b].kind.Table? && layout.blocks[b].table.Some? && RowsAreDisjoint(layout.blocks[b])
    requires row in layout.blocks[b].table.value.rows
    requires Pages(layout, style)[j].range.Contains(DocumentCursor(b, row.first))
    requires Pages(layout, style)[j].range.start != DocumentCursor(b, row.first)
    ensures row.first < row.end <= |layout.blocks[b].lines|
    ensures LineBottom(layout.blocks[b].lines[row.end - 1].bounds)
         <= PageLimit(layout, style, OriginOfPage(layout, style, j))
  {
    assert RowsInBounds(layout.blocks[b]);
    RowAt(layout.blocks[b], row, row.first);
    PageFacts(layout, style, j, DocumentCursor(b, row.first));
  }

  /** A table row is split only when it opened its page: if a page starts inside a row,
      the page that holds the first line of the row starts with it. */
  lemma SplitRowOpenedItsPage(
    layout: DocumentLayout, style: ReaderStyle, k: nat, row: TableRow) returns (j: nat)
    requires WellFormed(layout) && IsOrdered(layout) && k < |Pages(layout, style)|
    requires var start := Pages(layout, style)[k].range.start;
      && IsLine(layout, start)
      && layout.blocks[start.block].kind.Table? && layout.blocks[start.block].table.Some?
      && RowsAreDisjoint(layout.blocks[start.block])
      && row in layout.blocks[start.block].table.value.rows
      && row.first < start.line < row.end
    ensures j < k && Pages(layout, style)[j].range.start == DocumentCursor(Pages(layout, style)[k].range.start.block, row.first)
  {
    var pages := Pages(layout, style);
    var start := pages[k].range.start;
    var block, first := layout.blocks[start.block], DocumentCursor(start.block, row.first);
    assert RowsInBounds(block);
    j := PageHolding(layout, style, first);
    PagesInOrder(layout, style, j, k, first);
    PageEnd(layout, style, j);
    if pages[j].range.start != first {
      UnopenedRowFits(layout, style, start.block, row, j);
      NoBreakInsideFittingRow(layout, style, start.block, row, pages[j].range.end.line,
                              pages[j].range.start, OriginOfPage(layout, style, j));
    }
  }

  /** A page that starts after a line lies after the page that holds it, which ends no
      later than the other starts. */
  lemma PagesInOrder(layout: DocumentLayout, style: ReaderStyle, j: nat, k: nat, cursor: DocumentCursor)
    requires WellFormed(layout) && IsLine(layout, cursor)
    requires j < |Pages(layout, style)| && k < |Pages(layout, style)|
    requires Pages(layout, style)[j].range.Contains(cursor) && Before(cursor, Pages(layout, style)[k].range.start)
    ensures j < k && AtOrBefore(Pages(layout, style)[j].range.end, Pages(layout, style)[k].range.start)
  {
    PagesTileTheDocument(layout, style);
    if k < j {
      LaterPagesStartLater(layout, style, Pages(layout, style), k, j);
      PageFacts(layout, style, k, cursor);
    } else if j < k {
      LaterPagesStartLater(layout, style, Pages(layout, style), j, k);
    }
  }

  // ---- paragraphs ---------------------------------------------------------------------------------

  /** A paragraph is split: a page starts at a later line of it. */
  ghost predicate IsSplit(layout: DocumentLayout, style: ReaderStyle, b: nat)
    requires WellFormed(layout)
  {
    exists k :: 0 <= k < |Pages(layout, style)|
      && Pages(layout, style)[k].range.start.block == b
      && Pages(layout, style)[k].range.start.line > 0
      && IsLine(layout, Pages(layout, style)[k].range.start)
  }

  /** A paragraph that ends above the limit is not broken at a later line. */
  lemma NoBreakInsideFittingParagraph(
    layout: DocumentLayout, style: ReaderStyle, cursor: DocumentCursor, start: DocumentCursor, originY: i32)
    requires IsOrdered(layout) && IsLine(layout, cursor) && cursor.line > 0
    requires layout.blocks[cursor.block].kind.Paragraph?
    requires BlockBottom(layout.blocks[cursor.block]) <= PageLimit(layout, style, originY)
    ensures !ShouldBreakBefore(layout, style, cursor, start, originY)
  {
    var lines := layout.blocks[cursor.block].lines;
    OrderedBounds(layout, cursor, DocumentCursor(cursor.block, |lines| - 1));
  }

  /** Where a paragraph that fits a fresh page starts after the first page, it ends above
      the limit. */
  lemma FreshParagraphFits(layout: DocumentLayout, style: ReaderStyle, b: nat)
    requires IsModerate(layout, style) && b < |layout.blocks| && layout.blocks[b].lines != []
    requires layout.blocks[b].kind.Paragraph? && BlockFitsFreshPage(layout, style, layout.blocks[b])
    requires PageHeight(layout) > style.pagePadding.top + style.pagePadding.bottom
    ensures BlockBottom(layout.blocks[b]) <= PageLimit(layout, style, Origin(layout, style, DocumentCursor(b, 0)))
  {
    var lines := layout.blocks[b].lines;
    assert IsLine(layout, DocumentCursor(b, 0)) && IsLine(layout, DocumentCursor(b, |lines| - 1));
    ModerateOrigin(layout, style, DocumentCursor(b, 0));
  }

  /** The page that holds the first line of a paragraph shows all of it, unless the
      paragraph opens the document and ends below the first page. */
  lemma ParagraphEndsOnItsPage(layout: DocumentLayout, style: ReaderStyle, b: nat, j: nat)
    requires WellFormed(layout) && IsModerate(layout, style) && j < |Pages(layout, style)|
    requires b < |layout.blocks| && layout.blocks[b].lines != []
    requires layout.blocks[b].kind.Paragraph? && BlockFitsFreshPage(layout, style, layout.blocks[b])
    requires PageHeight(layout) > style.pagePadding.top + style.pagePadding.bottom
    requires Pages(layout, style)[j].range.Contains(DocumentCursor(b, 0))
    ensures BlockBottom(layout.blocks[b]) <= PageLimit(layout, style, OriginOfPage(layout, style, j))
         || (j == 0 && Pages(layout, style)[0].range.start == DocumentCursor(b, 0))
  {
    var first := DocumentCursor(b, 0);
    PageFacts(layout, style, j, first);
    if Pages(layout, style)[j].range.start == first {
      FreshParagraphFits(layout, style, b);
    }
  }

  /** A paragraph no taller than a fresh page is split exactly when it opens the document,
      has more than one line and ends below the first page. */
  lemma ParagraphIsSplitIff(layout: DocumentLayout, style: ReaderStyle, b: nat)
    requires WellFormed(layout) && IsModerate(layout, style) && IsOrdered(layout)
    requires b < |layout.blocks| && layout.blocks[b].lines != []
    requires layout.blocks[b].kind.Paragraph? && BlockFitsFreshPage(layout, style, layout.blocks[b])
    requires PageHeight(layout) > style.pagePadding.top + style.pagePadding.bottom
    ensures IsSplit(layout, style, b) <==>
      && IsFirst(layout, DocumentCursor(b, 0))
      && |layout.blocks[b].lines| > 1
      && BlockBottom(layout.blocks[b]) > PageLimit(layout, style, 0)
  {
    var pages, lines := Pages(layout, style), layout.blocks[b].lines;
    var first, last := DocumentCursor(b, 0), DocumentCursor(b, |lines| - 1);
    PagesTileTheDocument(layout, style);
    assert IsLine(layout, first) && IsLine(layout, last);
    FirstPageStartsFirst(layout, style, first);
    if IsSplit(layout, style, b) {
      var k :| 0 <= k < |pages| && pages[k].range.start.block == b && pages[k].range.start.line > 0
               && IsLine(layout, pages[k].range.start);
      SplitParagraphOpensDocument(layout, style, b, k);
    }
    if pages[0].range.start == first && |lines| > 1 && BlockBottom(layout.blocks[b]) > PageLimit(layout, style, 0) {
      OpeningParagraphSplits(layout, style, b);
    }
  }

  /** No paragraph that fits a fresh page is split when a paragraph that opens the document
      starts no lower than the top padding, which is where layout starts one. */
  lemma FittingParagraphIsKept(layout: DocumentLayout, style: ReaderStyle, b: nat)
    requires WellFormed(layout) && IsModerate(layout, style) && IsOrdered(layout)
    requires b < |layout.blocks| && layout.blocks[b].lines != []
    requires layout.blocks[b].kind.Paragraph? && BlockFitsFreshPage(layout, style, layout.blocks[b])
    requires PageHeight(layout) > style.pagePadding.top + style.pagePadding.bottom
    requires IsFirst(layout, DocumentCursor(b, 0)) ==> layout.blocks[b].lines[0].bounds.y <= style.pagePadding.top
    ensures !IsSplit(layout, style, b)
  {
    ParagraphIsSplitIff(layout, style, b);
    assert IsLine(layout, DocumentCursor(b, 0)) && LineAt(layout, DocumentCursor(b, 0)) == layout.blocks[b].lines[0];
  }

  lemma FirstPageStartsFirst(layout: DocumentLayout, style: ReaderStyle, cursor: DocumentCursor)
    requires WellFormed(layout) && IsLine(layout, cursor)
    ensures |Pages(layout, style)| > 0
    ensures IsFirst(layout, cursor) <==> Pages(layout, style)[0].range.start == cursor
  {
    PagesTileTheDocument(layout, style);
    assert IsPage(layout, style, 0, Pages(layout, style)[0]);
  }

  lemma SplitParagraphOpensDocument(layout: DocumentLayout, style: ReaderStyle, b: nat, k: nat)
    requires WellFormed(layout) && IsModerate(layout, style) && IsOrdered(layout)
    requires b < |layout.blocks| && layout.blocks[b].lines != []
    requires layout.blocks[b].kind.Paragraph? && BlockFitsFreshPage(layout, style, layout.blocks[b])
    requires PageHeight(layout) > style.pagePadding.top + style.pagePadding.bottom
    requires k < |Pages(layout, style)| && IsLine(layout, Pages(layout, style)[k].range.start)
    requires Pages(layout, style)[k].range.start.block == b && Pages(layout, style)[k].range.start.line > 0
    ensures Pages(layout, style)[0].range.start == DocumentCursor(b, 0)
    ensures |layout.blocks[b].lines| > 1 && BlockBottom(layout.blocks[b]) > PageLimit(layout, style, 0)
  {
    var pages, first := Pages(layout, style), DocumentCursor(b, 0);
    var j := PageHolding(layout, style, first);
    PagesInOrder(layout, style, j, k, first);
    PageEnd(layout, style, j);
    ParagraphEndsOnItsPage(layout, style, b, j);
    if BlockBottom(layout.blocks[b]) <= PageLimit(layout, style, OriginOfPage(layout, style, j)) {
      NoBreakInsideFittingParagraph(
        layout, style, pages[j].range.end, pages[j].range.start, OriginOfPage(layout, style, j));
    }
  }

  lemma OpeningParagraphSplits(layout: DocumentLayout, style: ReaderStyle, b: nat)
    requires WellFormed(layout) && b < |layout.blocks| && |layout.blocks[b].lines| > 1
    requires layout.blocks[b].kind.Paragraph? && |Pages(layout, style)| > 0
    requires Pages(layout, style)[0].range.start == DocumentCursor(b, 0)
    requires BlockBottom(layout.blocks[b]) > PageLimit(layout, style, 0)
    ensures IsSplit(layout, style, b)
  {
    var pages := Pages(layout, style);
    var last := DocumentCursor(b, |layout.blocks[b].lines| - 1);
    var j := PageHolding(layout, style, last);
    PageFacts(layout, style, j, last);
    PageFacts(layout, style, 0, last);
    assert LineAt(layout, last) == layout.blocks[b].lines[last.line];
    PagesTileTheDocument(layout, style);
    if j > 0 {
      LaterPagesStartLater(layout, style, pages, 0, j);
      assert pages[j].range.start.line > 0 && pages[j].range.start.block == b;
    }
  }

  /** A heading that does not open its page has room for the line after it, when the
      heading fits a fresh page. */
  lemma HeadingHasRoomForTheNextLine(layout: DocumentLayout, style: ReaderStyle, k: nat, b: nat)
    requires WellFormed(layout) && k < |Pages(layout, style)|
    requires IsLine(layout, DocumentCursor(b, 0)) && layout.blocks[b].kind.Heading?
    requires BlockFitsFreshPage(layout, style, layout.blocks[b])
    requires Pages(layout, style)[k].range.Contains(DocumentCursor(b, 0))
    requires Pages(layout, style)[k].range.start != DocumentCursor(b, 0)
    ensures var next := NextLine(layout, DocumentCursor(b, 0));
      next.Some? ==> LineBottom(next.value.bounds) <= PageLimit(layout, style, OriginOfPage(layout, style, k))
  {
    PageFacts(layout, style, k, DocumentCursor(b, 0));
  }

  // ---- what follows a heading ------------------------------------------------------------------

  /** The next line of the document, whatever empty blocks lie between. */
  ghost predicate IsNextLine(layout: DocumentLayout, cursor: DocumentCursor, next: DocumentCursor) {
    && IsLine(layout, next) && Before(cursor, next)
    && forall c | IsLine(layout, c) && Before(cursor, c) :: AtOrBefore(next, c)
  }

  /** A page goes on with the next line, or the next page starts with it: as the rules say. */
  lemma NextLineTurnsThePage(
    layout: DocumentLayout, style: ReaderStyle, k: nat, cursor: DocumentCursor, next: DocumentCursor)
    requires WellFormed(layout) && k < |Pages(layout, style)| && IsLine(layout, cursor)
    requires Pages(layout, style)[k].range.Contains(cursor) && IsNextLine(layout, cursor, next)
    ensures var pages := Pages(layout, style);
      if ShouldBreakBefore(layout, style, next, pages[k].range.start, OriginOfPage(layout, style, k))
      then k + 1 < |pages| && pages[k + 1].range.start == next
      else pages[k].range.Contains(next) && !(k + 1 < |pages| && pages[k + 1].range.start == next)
  {
    var pages := Pages(layout, style);
    PagesTileTheDocument(layout, style);
    PageFacts(layout, style, k, next);
    if k + 1 < |pages| {
      PageEnd(layout, style, k);
    }
  }

  /** The line asks for a break although it ends above the limit: a table row, a rule, an
      image or a paragraph that does not fit, a heading whose own next line does not, or a
      line that may not leave the last line of its paragraph alone. */
  predicate OwnRuleFires(layout: DocumentLayout, style: ReaderStyle, cursor: DocumentCursor, limit: i32)
    requires IsLine(layout, cursor)
  {
    var block := layout.blocks[cursor.block];
    || RowOverflows(block, cursor.line, limit)
    || ((block.kind.Rule? || block.kind.Image?) && cursor.line == 0 && BlockBottom(block) > limit)
    || (&& block.kind.Heading? && cursor.line == 0 && BlockFitsFreshPage(layout, style, block)
        && NextLine(layout, cursor).Some? && LineBottom(NextLine(layout, cursor).value.bounds) > limit)
    || (block.kind.Paragraph? && cursor.line == 0 && BlockFitsFreshPage(layout, style, block) && BlockBottom(block) > limit)
    || (&& block.kind.Paragraph? && cursor.line + 2 == |block.lines|
        && LineBottom(block.lines[cursor.line + 1].bounds) > limit)
  }

  /** Exactly when the line after the first line of a heading starts a new page: it ends
      below the limit, or its own rule fires. The first cannot happen to the line that the
      heading looks at, when the heading fits a fresh page and does not open its page; the
      second can. */
  lemma NextLineLeavesHeadingIff(
    layout: DocumentLayout, style: ReaderStyle, k: nat, b: nat, next: DocumentCursor)
    requires WellFormed(layout) && k < |Pages(layout, style)|
    requires IsLine(layout, DocumentCursor(b, 0)) && layout.blocks[b].kind.Heading?
    requires Pages(layout, style)[k].range.Contains(DocumentCursor(b, 0))
    requires IsNextLine(layout, DocumentCursor(b, 0), next)
    ensures var pages, limit := Pages(layout, style), PageLimit(layout, style, OriginOfPage(layout, style, k));
      && (k + 1 < |pages| && pages[k + 1].range.start == next
          <==> LineBottom(LineAt(layout, next).bounds) > limit || OwnRuleFires(layout, style, next, limit))
      && (BlockFitsFreshPage(layout, style, layout.blocks[b]) && pages[k].range.start != DocumentCursor(b, 0)
          && NextLine(layout, DocumentCursor(b, 0)).Some?
          ==> LineBottom(LineAt(layout, next).bounds) <= limit)
  {
    var cursor := DocumentCursor(b, 0);
    NextLineTurnsThePage(layout, style, k, cursor, next);
    if NextLine(layout, cursor).Some? {
      NextLineIs(layout, cursor, next);
      if BlockFitsFreshPage(layout, style, layout.blocks[b]) && Pages(layout, style)[k].range.start != cursor {
        HeadingHasRoomForTheNextLine(layout, style, k, b);
      }
    }
  }

  lemma NextLineIs(layout: DocumentLayout, cursor: DocumentCursor, next: DocumentCursor)
    requires IsLine(layout, cursor) && IsNextLine(layout, cursor, next) && NextLine(layout, cursor).Some?
    ensures NextLine(layout, cursor) == Some(LineAt(layout, next))
  {
    var lines := layout.blocks[cursor.block].lines;
    var c := if cursor.line + 1 < |lines| then DocumentCursor(cursor.block, cursor.line + 1)
             else DocumentCursor(cursor.block + 1, 0);
    assert IsLine(layout, c) && Before(cursor, c);
    assert AtOrBefore(next, c);
  }

  // ---- a heading that is left behind ------------------------------------------------------------

  function PlainLine(y: i32): LayoutLine {
    LayoutLine(Rect(0, y, 100, 20), [], None, None, false)
  }

  function PlainBlock(kind: LayoutBlockKind, lines: seq<LayoutLine>): LayoutBlock {
    LayoutBlock(kind, Rect(0, 0, 100, 20), lines, None, None)
  }

  /** On a page of five lines: a line, a heading, and a paragraph of four lines. */
  function HeadingLayout(): DocumentLayout {
    DocumentLayout(
      Viewport(100, 100),
      [ PlainBlock(Paragraph, [PlainLine(0)]),
        PlainBlock(Heading, [PlainLine(20)]),
        PlainBlock(Paragraph, [PlainLine(40), PlainLine(60), PlainLine(80), PlainLine(100)])])
  }

  lemma HeadingLayoutLines()
    ensures WellFormed(HeadingLayout())
    ensures IsNextLine(HeadingLayout(), DocumentCursor(0, 0), DocumentCursor(1, 0))
    ensures IsNextLine(HeadingLayout(), DocumentCursor(1, 0), DocumentCursor(2, 0))
    ensures IsLine(HeadingLayout(), DocumentCursor(0, 0)) && IsFirst(HeadingLayout(), DocumentCursor(0, 0))
  {
    var layout := HeadingLayout();
    forall c | IsLine(layout, c)
      ensures c == DocumentCursor(0, 0) || c == DocumentCursor(1, 0) || (c.block == 2 && c.line < 4)
    {
      assert c.block < 3;
    }
  }

  lemma HeadingLayoutRules(style: ReaderStyle)
    requires style.pagePadding == Insets(0, 0, 0, 0)
    ensures var layout, start := HeadingLayout(), DocumentCursor(0, 0);
      && PageLimit(layout, style, 0) == 100
      && BlockFitsFreshPage(layout, style, layout.blocks[1])
      && BlockFitsFreshPage(layout, style, layout.blocks[2]) && BlockBottom(layout.blocks[2]) == 120
      && !ShouldBreakBefore(layout, style, DocumentCursor(1, 0), start, 0)
      && ShouldBreakBefore(layout, style, DocumentCursor(2, 0), start, 0)
  {
    var layout := HeadingLayout();
    assert layout.blocks[1].kind.Heading? && layout.blocks[2].kind.Paragraph?;
    assert NextLine(layout, DocumentCursor(1, 0)) == Some(PlainLine(40));
  }

  /** The paragraph fits a fresh page, so it moves as a whole although there is room for its
      first three lines; the heading stays behind, the last thing on its page. */
  lemma HeadingLosesItsNextLine(style: ReaderStyle)
    requires style.pagePadding == Insets(0, 0, 0, 0)
    ensures var layout, pages := HeadingLayout(), Pages(HeadingLayout(), style);
      && |pages| > 1
      && pages[0].range == DocumentRange(DocumentCursor(0, 0), DocumentCursor(2, 0))
      && pages[0].range.Contains(DocumentCursor(1, 0)) && layout.blocks[1].kind.Heading?
      && pages[1].range.start == DocumentCursor(2, 0)
      && LineBottom(LineAt(layout, DocumentCursor(2, 0)).bounds) <= PageLimit(layout, style, 0)
  {
    var layout := HeadingLayout();
    var first, heading, next := DocumentCursor(0, 0), DocumentCursor(1, 0), DocumentCursor(2, 0);
    HeadingLayoutLines();
    HeadingLayoutRules(style);
    FirstPageStartsFirst(layout, style, first);
    PageFacts(layout, style, 0, first);
    NextLineTurnsThePage(layout, style, 0, first, heading);
    NextLineTurnsThePage(layout, style, 0, heading, next);
    PageEnd(layout, style, 0);
  }

  // ---- a paragraph that is split -----------------------------------------------------------------

  /** A paragraph of four lines that begins below the top of a page of five. */
  function ParagraphLayout(): DocumentLayout {
    DocumentLayout(
      Viewport(100, 100),
      [PlainBlock(Paragraph, [PlainLine(40), PlainLine(60), PlainLine(80), PlainLine(100)])])
  }

  /** It would fit a fresh page, but it has no page before it to be moved from. */
  lemma OpeningParagraphIsSplit(style: ReaderStyle)
    requires style.pagePadding == Insets(0, 0, 0, 0)
    ensures var layout := ParagraphLayout();
      && WellFormed(layout) && layout.blocks[0].kind.Paragraph?
      && BlockFitsFreshPage(layout, style, layout.blocks[0])
      && IsSplit(layout, style, 0)
  {
    var layout := ParagraphLayout();
    forall c | IsLine(layout, c) ensures c.block == 0 && c.line < 4 {}
    forall c, d | IsLine(layout, c) && IsLine(layout, d) && Before(c, d) ensures c.line < d.line {}
    assert IsOrdered(layout) && IsModerate(layout, style);
    assert IsFirst(layout, DocumentCursor(0, 0));
    ParagraphIsSplitIff(layout, style, 0);
  }
}
