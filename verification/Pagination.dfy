/** Splitting a layout into pages, and rebuilding one page from the compact index.

    `Scan` is the state of the greedy scan before a position, and `PageOf` is what a
    page is meant to show, given only its number and its range. `Paginate` computes the
    first, `PageFromIndex` the second. */
module Pagination {
  import opened Options
  import opened PageGeometry
  import opened Navigation
  import opened Layouts
  import opened DisplayLists

  function DocumentEnd(layout: DocumentLayout): DocumentCursor {
    DocumentCursor(|layout.blocks|, 0)
  }

  function PageHeight(layout: DocumentLayout): i32 {
    AsI32(MaxU(layout.viewport.height, 1))
  }

  function TopPadding(style: ReaderStyle): i32 {
    AsI32(style.pagePadding.top)
  }

  function BlankPage(number: nat, viewport: Viewport, range: DocumentRange): PageLayout {
    PageLayout(number, viewport, range, [], [])
  }

  const NO_RANGE := DocumentRange(DocumentCursor(0, 0), DocumentCursor(0, 0))

  // ---- break rules -------------------------------------------------------------------

  function PageLimit(layout: DocumentLayout, style: ReaderStyle, originY: i32): i32 {
    SatSub(SatAdd(originY, PageHeight(layout)), AsI32(style.pagePadding.bottom))
  }

  function BlockBottom(block: LayoutBlock): i32 {
    if block.lines == [] then block.bounds.y else LineBottom(block.lines[|block.lines| - 1].bounds)
  }

  predicate BlockFitsFreshPage(layout: DocumentLayout, style: ReaderStyle, block: LayoutBlock) {
    block.lines == [] ||
    (var available :=
       SatSub(SatSub(PageHeight(layout), TopPadding(style)), AsI32(style.pagePadding.bottom));
     SatSub(BlockBottom(block), block.lines[0].bounds.y) <= (if available < 1 then 1 else available))
  }

  function NextLine(layout: DocumentLayout, cursor: DocumentCursor): Option<LayoutLine>
    requires IsLine(layout, cursor)
  {
    var lines := layout.blocks[cursor.block].lines;
    if cursor.line + 1 < |lines| then Some(lines[cursor.line + 1])
    else if cursor.block + 1 < |layout.blocks| && layout.blocks[cursor.block + 1].lines != []
    then Some(layout.blocks[cursor.block + 1].lines[0])
    else None
  }

  function RowBottom(block: LayoutBlock, row: TableRow, line: nat): i32
    requires line < |block.lines| && 0 < row.end
  {
    LineBottom(block.lines[if row.end - 1 < |block.lines| then row.end - 1 else line].bounds)
  }

  /** The line opens a table row that ends below the limit. */
  predicate RowOverflows(block: LayoutBlock, line: nat, limit: i32)
    requires line < |block.lines|
  {
    && block.kind.Table? && block.table.Some?
    && var row := TableRowAt(block.table.value, line);
       row.Some? && row.value.first == line && RowBottom(block, row.value, line) > limit
  }

  predicate IsStartedImage(block: LayoutBlock, cursor: DocumentCursor, start: DocumentCursor) {
    block.kind.Image? && cursor.line > 0 && start == DocumentCursor(cursor.block, 0)
  }

  predicate HeadingMoves(layout: DocumentLayout, style: ReaderStyle, cursor: DocumentCursor, limit: i32)
    requires IsLine(layout, cursor)
  {
    var block := layout.blocks[cursor.block];
    && block.kind.Heading? && cursor.line == 0
    && NextLine(layout, cursor).Some?
    && LineBottom(NextLine(layout, cursor).value.bounds) > limit
    && BlockFitsFreshPage(layout, style, block)
  }

  predicate ParagraphMoves(
    layout: DocumentLayout, style: ReaderStyle, cursor: DocumentCursor, start: DocumentCursor, limit: i32)
    requires IsLine(layout, cursor)
  {
    var block := layout.blocks[cursor.block];
    && block.kind.Paragraph?
    && (start.block < cursor.block || (start.block == cursor.block && start.line == 0))
    && (|| (cursor.line == 0 && BlockFitsFreshPage(layout, style, block) && BlockBottom(block) > limit)
        || (cursor.line + 2 == |block.lines| && LineBottom(block.lines[cursor.line + 1].bounds) > limit))
  }

  predicate ShouldBreakBefore(
    layout: DocumentLayout, style: ReaderStyle, cursor: DocumentCursor,
    start: DocumentCursor, originY: i32)
    requires IsLine(layout, cursor)
  {
    var limit := PageLimit(layout, style, originY);
    var block := layout.blocks[cursor.block];
    if RowOverflows(block, cursor.line, limit) && start != cursor then true
    else if LineBottom(LineAt(layout, cursor).bounds) > limit then !IsStartedImage(block, cursor, start)
    else
      || ((block.kind.Rule? || block.kind.Image?) && cursor.line == 0 && BlockBottom(block) > limit)
      || HeadingMoves(layout, style, cursor, limit)
      || ParagraphMoves(layout, style, cursor, start, limit)
  }

  // ---- origins and repeated headers ---------------------------------------------------

  function TableRowHeight(block: LayoutBlock, row: TableRow): i32 {
    if row.first >= |block.lines| then 0
    else
      var end := if row.end == 0 then 0 else row.end - 1;
      var last := if end < |block.lines| then end else row.first;
      SatSub(LineBottom(block.lines[last].bounds), block.lines[row.first].bounds.y)
  }

  /** The header row to repeat above a page that starts at a line: the header of its
      group, when the line is in a data row. */
  function HeaderAbove(layout: DocumentLayout, cursor: DocumentCursor): (header: Option<TableRow>)
    requires IsLine(layout, cursor)
    ensures header.Some? ==>
      && layout.blocks[cursor.block].table.Some?
      && header.value in layout.blocks[cursor.block].table.value.rows
  {
    var block := layout.blocks[cursor.block];
    if !block.kind.Table? || block.table.None? then None
    else
      match TableRowAt(block.table.value, cursor.line)
      case None => None
      case Some(row) => if row.header then None else TableHeaderForLine(block.table.value, cursor.line)
  }

  function OriginBelow(layout: DocumentLayout, style: ReaderStyle, cursor: DocumentCursor, y: i32): i32
    requires IsLine(layout, cursor)
  {
    match HeaderAbove(layout, cursor)
    case None => y
    case Some(header) => SatSub(y, TableRowHeight(layout.blocks[cursor.block], header))
  }

  /** The origin of a page after the first that starts at a line. */
  function Origin(layout: DocumentLayout, style: ReaderStyle, cursor: DocumentCursor): i32
    requires IsLine(layout, cursor)
  {
    OriginBelow(layout, style, cursor, SatSub(LineAt(layout, cursor).bounds.y, TopPadding(style)))
  }

  function PageOrigin(layout: DocumentLayout, style: ReaderStyle, number: nat, start: DocumentCursor): i32 {
    if number == 1 || !IsLine(layout, start) then 0 else Origin(layout, style, start)
  }

  function PageHeader(layout: DocumentLayout, number: nat, start: DocumentCursor): (header: Option<TableRow>)
    ensures header.Some? ==>
      && IsLine(layout, start) && layout.blocks[start.block].table.Some?
      && header.value in layout.blocks[start.block].table.value.rows
  {
    if number == 1 || !IsLine(layout, start) then None else HeaderAbove(layout, start)
  }

  // ---- what a page shows --------------------------------------------------------------

  function HeaderOffset(block: LayoutBlock, style: ReaderStyle, first: nat): Point
    requires first < |block.lines|
  {
    Point(0, WrapSub(TopPadding(style), block.lines[first].bounds.y))
  }

  function HeaderLine(block: LayoutBlock, style: ReaderStyle, first: nat, line: nat): Drawing
    requires first <= line < |block.lines|
  {
    LineDrawing(block.lines[line], HeaderOffset(block, style, first), block.kind, style, block.table,
                line, true, false)
  }

  /** Lines [first, end) of a block, drawn as a repeated header. */
  function HeaderDrawing(block: LayoutBlock, style: ReaderStyle, first: nat, end: nat): Drawing
    requires first < |block.lines| && end <= |block.lines|
    decreases end
  {
    if end <= first then Nothing
    else Join(HeaderDrawing(block, style, first, end - 1), HeaderLine(block, style, first, end - 1))
  }

  function RowDrawing(layout: DocumentLayout, style: ReaderStyle, block: nat, row: Option<TableRow>): Drawing
    requires WellFormed(layout)
    requires row.Some? ==>
      && block < |layout.blocks| && layout.blocks[block].table.Some?
      && row.value in layout.blocks[block].table.value.rows
  {
    match row
    case None => Nothing
    case Some(header) => HeaderDrawing(layout.blocks[block], style, header.first, header.end)
  }

  function BodyLine(
    layout: DocumentLayout, style: ReaderStyle, cursor: DocumentCursor, originY: i32, startsPage: bool): Drawing
    requires IsLine(layout, cursor)
  {
    var block := layout.blocks[cursor.block];
    LineDrawing(block.lines[cursor.line], Point(0, SatNeg(originY)), block.kind, style, block.table,
                cursor.line, false, startsPage)
  }

  /** A place that the nested loops over blocks and lines reach. */
  predicate IsPosition(layout: DocumentLayout, b: nat, l: nat) {
    if b < |layout.blocks| then l <= |layout.blocks[b].lines| else b == |layout.blocks| && l == 0
  }

  /** The lines of a range that come before a position. */
  function BodyDrawing(
    layout: DocumentLayout, style: ReaderStyle, range: DocumentRange, originY: i32, b: nat, l: nat)
    : Drawing
    requires IsPosition(layout, b, l)
    decreases b, l
  {
    if l > 0 then
      var cursor := DocumentCursor(b, l - 1);
      var above := BodyDrawing(layout, style, range, originY, b, l - 1);
      if range.Contains(cursor)
      then Join(above, BodyLine(layout, style, cursor, originY, cursor == range.start)) else above
    else if b > 0 then
      BodyDrawing(layout, style, range, originY, b - 1, |layout.blocks[b - 1].lines|)
    else Nothing
  }

  /** The page that shows a range: its repeated header and its lines. */
  function PageOf(layout: DocumentLayout, style: ReaderStyle, number: nat, range: DocumentRange): PageLayout
    requires WellFormed(layout)
  {
    var header := PageHeader(layout, number, range.start);
    var originY := PageOrigin(layout, style, number, range.start);
    Draw(BlankPage(number, layout.viewport, range),
         Join(RowDrawing(layout, style, range.start.block, header),
              BodyDrawing(layout, style, range, originY, |layout.blocks|, 0)))
  }

  // ---- the scan -----------------------------------------------------------------------

  datatype ScanState = ScanState(
    pages: seq<PageLayout>, page: PageLayout, originY: i32, start: Option<DocumentCursor>)

  function InitialScan(layout: DocumentLayout): ScanState {
    ScanState([], BlankPage(1, layout.viewport, NO_RANGE), 0, None)
  }

  /** Close the open page before a line and open the next one. */
  function TurnPage(layout: DocumentLayout, style: ReaderStyle, s: ScanState, cursor: DocumentCursor): ScanState
    requires WellFormed(layout) && IsLine(layout, cursor) && s.start.Some?
  {
    var pages := s.pages + [s.page.(range := DocumentRange(s.start.value, cursor))];
    var blank := BlankPage(|pages| + 1, layout.viewport, NO_RANGE);
    ScanState(
      pages,
      Draw(blank, RowDrawing(layout, style, cursor.block, HeaderAbove(layout, cursor))),
      Origin(layout, style, cursor),
      None)
  }

  function AddBody(layout: DocumentLayout, style: ReaderStyle, s: ScanState, cursor: DocumentCursor): ScanState
    requires IsLine(layout, cursor)
  {
    s.(page := Draw(s.page, BodyLine(layout, style, cursor, s.originY, s.start.None?)),
       start := if s.start.None? then Some(cursor) else s.start)
  }

  function ScanLine(layout: DocumentLayout, style: ReaderStyle, s: ScanState, cursor: DocumentCursor): ScanState
    requires WellFormed(layout) && IsLine(layout, cursor)
  {
    if s.start.Some? && ShouldBreakBefore(layout, style, cursor, s.start.value, s.originY)
    then AddBody(layout, style, TurnPage(layout, style, s, cursor), cursor)
    else AddBody(layout, style, s, cursor)
  }

  function Scan(layout: DocumentLayout, style: ReaderStyle, b: nat, l: nat): ScanState
    requires WellFormed(layout) && IsPosition(layout, b, l)
    decreases b, l
  {
    if l > 0 then ScanLine(layout, style, Scan(layout, style, b, l - 1), DocumentCursor(b, l - 1))
    else if b > 0 then Scan(layout, style, b - 1, |layout.blocks[b - 1].lines|)
    else InitialScan(layout)
  }

  function Finish(layout: DocumentLayout, s: ScanState): seq<PageLayout> {
    if s.start.Some? then s.pages + [s.page.(range := DocumentRange(s.start.value, DocumentEnd(layout)))]
    else if s.pages == [] then
      [BlankPage(1, layout.viewport, DocumentRange(DocumentEnd(layout), DocumentEnd(layout)))]
    else s.pages
  }

  function Pages(layout: DocumentLayout, style: ReaderStyle): seq<PageLayout>
    requires WellFormed(layout)
  {
    Finish(layout, Scan(layout, style, |layout.blocks|, 0))
  }

  method AddHeader(before: PageLayout, block: LayoutBlock, style: ReaderStyle, first: nat, end: nat)
    returns (page: PageLayout)
    requires first < |block.lines| && end <= |block.lines|
    ensures page == Draw(before, HeaderDrawing(block, style, first, end))
  {
    page := before;
    if end <= first { return; }
    ghost var drawn := Nothing;
    for i := first to end
      invariant drawn == HeaderDrawing(block, style, first, i)
      invariant page == Draw(before, drawn)
    {
      ghost var added := HeaderLine(block, style, first, i);
      page := AddHeaderLine(page, block, style, first, i);
      drawn := Join(drawn, added);
    }
  }

  method AddHeaderLine(before: PageLayout, block: LayoutBlock, style: ReaderStyle, first: nat, line: nat)
    returns (page: PageLayout)
    requires first <= line < |block.lines|
    ensures page == Draw(before, HeaderLine(block, style, first, line))
  {
    page := AddLine(before, block.lines[line], HeaderOffset(block, style, first), block.kind, style,
                    block.table, line, true, false);
  }

  /** The origin and the repeated header of a page that a break opens. */
  method OpenPage(layout: DocumentLayout, style: ReaderStyle, number: nat, cursor: DocumentCursor)
    returns (page: PageLayout, originY: i32)
    requires WellFormed(layout) && IsLine(layout, cursor)
    ensures originY == Origin(layout, style, cursor)
    ensures page == Draw(BlankPage(number, layout.viewport, NO_RANGE),
                         RowDrawing(layout, style, cursor.block, HeaderAbove(layout, cursor)))
  {
    var block := layout.blocks[cursor.block];
    page := BlankPage(number, layout.viewport, NO_RANGE);
    originY := SatSub(block.lines[cursor.line].bounds.y, TopPadding(style));
    if block.kind.Table? && block.table.Some? {
      var row := TableRowAt(block.table.value, cursor.line);
      if row.Some? && !row.value.header {
        var header := TableHeaderForLine(block.table.value, cursor.line);
        if header.Some? {
          originY := SatSub(originY, TableRowHeight(block, header.value));
          page := AddHeader(page, block, style, header.value.first, header.value.end);
        }
      }
    }
  }

  /** One line of the scan: turn the page if a rule says so, then draw the line. */
  method PlaceLine(
    layout: DocumentLayout, style: ReaderStyle, cursor: DocumentCursor,
    pages: seq<PageLayout>, page: PageLayout, originY: i32, start: Option<DocumentCursor>)
    returns (pages': seq<PageLayout>, page': PageLayout, originY': i32, start': Option<DocumentCursor>)
    requires WellFormed(layout) && IsLine(layout, cursor)
    ensures ScanState(pages', page', originY', start')
         == ScanLine(layout, style, ScanState(pages, page, originY, start), cursor)
  {
    pages', page', originY', start' := pages, page, originY, start;
    if start.Some? && ShouldBreakBefore(layout, style, cursor, start.value, originY) {
      pages' := pages + [page.(range := DocumentRange(start.value, cursor))];
      page', originY' := OpenPage(layout, style, |pages'| + 1, cursor);
      start' := None;
    }
    var startsPage := start'.None?;
    if startsPage {
      start' := Some(cursor);
    }
    page' := AddBodyLine(page', layout, style, cursor, originY', startsPage);
  }

  method AddBodyLine(
    before: PageLayout, layout: DocumentLayout, style: ReaderStyle, cursor: DocumentCursor, originY: i32,
    startsPage: bool) returns (page: PageLayout)
    requires IsLine(layout, cursor)
    ensures page == Draw(before, BodyLine(layout, style, cursor, originY, startsPage))
  {
    var block := layout.blocks[cursor.block];
    page := AddLine(before, block.lines[cursor.line], Point(0, SatNeg(originY)), block.kind, style, block.table,
                    cursor.line, false, startsPage);
  }

  /** The greedy scan over blocks and lines. */
  method Paginate(layout: DocumentLayout, style: ReaderStyle) returns (pages: seq<PageLayout>)
    requires WellFormed(layout)
    ensures pages == Pages(layout, style)
  {
    pages := [];
    var originY: i32 := 0;
    var page := BlankPage(1, layout.viewport, NO_RANGE);
    var start: Option<DocumentCursor> := None;
    for b := 0 to |layout.blocks|
      invariant ScanState(pages, page, originY, start) == Scan(layout, style, b, 0)
    {
      for l := 0 to |layout.blocks[b].lines|
        invariant ScanState(pages, page, originY, start) == Scan(layout, style, b, l)
      {
        pages, page, originY, start :=
          PlaceLine(layout, style, DocumentCursor(b, l), pages, page, originY, start);
      }
    }
    if start.Some? {
      pages := pages + [page.(range := DocumentRange(start.value, DocumentEnd(layout)))];
    } else if pages == [] {
      pages := [BlankPage(1, layout.viewport, DocumentRange(DocumentEnd(layout), DocumentEnd(layout)))];
    }
  }

  // ---- the compact index ---------------------------------------------------------------

  datatype RepeatedHeader = RepeatedHeader(block: nat, first: nat, end: nat)

  datatype PageIndexEntry = PageIndexEntry(
    range: DocumentRange, originY: i32, repeatedHeader: Option<RepeatedHeader>)

  datatype PaginationIndex = PaginationIndex(viewport: Viewport, pages: seq<PageIndexEntry>)

  /** The entry kept for a page: where it starts in the document, and which header it
      repeats. */
  function EntryOf(layout: DocumentLayout, style: ReaderStyle, page: PageLayout): PageIndexEntry {
    var start := page.range.start;
    if !IsLine(layout, start) then PageIndexEntry(page.range, 0, None)
    else
      var y := if page.number == 1 then 0 else SatSub(LineAt(layout, start).bounds.y, TopPadding(style));
      match HeaderAbove(layout, start)
      case None => PageIndexEntry(page.range, y, None)
      case Some(header) =>
        PageIndexEntry(
          page.range, SatSub(y, TableRowHeight(layout.blocks[start.block], header)),
          Some(RepeatedHeader(start.block, header.first, header.end)))
  }

  function Entries(layout: DocumentLayout, style: ReaderStyle, pages: seq<PageLayout>): (entries: seq<PageIndexEntry>)
    ensures |entries| == |pages|
    ensures forall i | 0 <= i < |pages| :: entries[i] == EntryOf(layout, style, pages[i])
  {
    if pages == [] then [] else [EntryOf(layout, style, pages[0])] + Entries(layout, style, pages[1..])
  }

  method Index(layout: DocumentLayout, style: ReaderStyle) returns (index: PaginationIndex)
    requires WellFormed(layout)
    ensures index == PaginationIndex(layout.viewport, Entries(layout, style, Pages(layout, style)))
  {
    var pages := Paginate(layout, style);
    index := PaginationIndex(layout.viewport, Entries(layout, style, pages));
  }

  /** The first page whose range contains a cursor. */
  function PageIndexForCursor(entries: seq<PageIndexEntry>, cursor: DocumentCursor): (found: Option<nat>)
    ensures found.None? ==> forall e | e in entries :: !e.range.Contains(cursor)
    ensures found.Some? ==> found.value < |entries| && entries[found.value].range.Contains(cursor)
    ensures found.Some? ==> forall i | 0 <= i < found.value :: !entries[i].range.Contains(cursor)
  {
    if entries == [] then None
    else if entries[0].range.Contains(cursor) then Some(0)
    else
      match PageIndexForCursor(entries[1..], cursor)
      case None => None
      case Some(i) => Some(i + 1)
  }

  /** The layout still has the lines of a repeated header. */
  predicate HeaderIsPresent(layout: DocumentLayout, header: RepeatedHeader) {
    && header.block < |layout.blocks|
    && header.first < |layout.blocks[header.block].lines|
    && header.end <= |layout.blocks[header.block].lines|
  }

  /** The page an entry describes, or nothing when the layout lacks its header. */
  function EntryPage(layout: DocumentLayout, style: ReaderStyle, viewport: Viewport, entry: PageIndexEntry, number: nat)
    : Option<PageLayout>
  {
    if entry.repeatedHeader.Some? && !HeaderIsPresent(layout, entry.repeatedHeader.value) then None
    else
      var header :=
        match entry.repeatedHeader
        case None => Nothing
        case Some(h) => HeaderDrawing(layout.blocks[h.block], style, h.first, h.end);
      Some(Draw(BlankPage(number, viewport, entry.range),
                Join(header, BodyDrawing(layout, style, entry.range, entry.originY, |layout.blocks|, 0))))
  }

  function RebuiltPage(layout: DocumentLayout, style: ReaderStyle, index: PaginationIndex, k: nat)
    : Option<PageLayout>
  {
    if k < |index.pages| then EntryPage(layout, style, index.viewport, index.pages[k], k + 1) else None
  }

  /** Rebuild one page: draw its header, then every line of the document that its range
      contains. */
  method PageFromIndex(layout: DocumentLayout, style: ReaderStyle, index: PaginationIndex, k: nat)
    returns (rebuilt: Option<PageLayout>)
    ensures rebuilt == RebuiltPage(layout, style, index, k)
  {
    if k >= |index.pages| { return None; }
    var entry := index.pages[k];
    var page := BlankPage(k + 1, index.viewport, entry.range);
    ghost var blank, header := page, Nothing;
    if entry.repeatedHeader.Some? {
      var repeated := entry.repeatedHeader.value;
      if !HeaderIsPresent(layout, repeated) { return None; }
      var block := layout.blocks[repeated.block];
      page := AddHeader(page, block, style, repeated.first, repeated.end);
      header := HeaderDrawing(block, style, repeated.first, repeated.end);
    }
    assert page == Draw(blank, header);
    page := AddRange(page, layout, style, entry.range, entry.originY);
    rebuilt := Some(page);
  }

  method AddRange(
    before: PageLayout, layout: DocumentLayout, style: ReaderStyle, range: DocumentRange, originY: i32)
    returns (page: PageLayout)
    ensures page == Draw(before, BodyDrawing(layout, style, range, originY, |layout.blocks|, 0))
  {
    page := before;
    for b := 0 to |layout.blocks|
      invariant page == Draw(before, BodyDrawing(layout, style, range, originY, b, 0))
    {
      for l := 0 to |layout.blocks[b].lines|
        invariant page == Draw(before, BodyDrawing(layout, style, range, originY, b, l))
      {
        var cursor := DocumentCursor(b, l);
        if range.Contains(cursor) {
          page := AddBodyLine(page, layout, style, cursor, originY, cursor == range.start);
        }
      }
    }
  }
}
