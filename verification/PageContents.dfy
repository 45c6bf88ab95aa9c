/** What the pages say: their commands and hit regions stay inside the viewport, and
    together they show what is visible of the document, once and in order. */
module PageContents {
  import opened Options
  import opened PageGeometry
  import opened Navigation
  import opened Layouts
  import opened DisplayLists
  import opened Pagination
  import opened PaginationTheorems
  import opened PageBreaks

  ghost predicate StaysInside(page: PageLayout) {
    && (forall c | c in page.commands :: InViewport(page.viewport, c.bounds))
    && (forall h | h in page.hitRegions :: InViewport(page.viewport, h.bounds))
  }

  lemma {:induction false} DrawStaysInside(page: PageLayout, d: Drawing)
    requires StaysInside(page)
    ensures StaysInside(Draw(page, d))
    decreases d
  {
    match d
    case Join(below, above) =>
      DrawStaysInside(page, below);
      DrawStaysInside(Draw(page, below), above);
    case _ =>
  }

  /** Every command and hit region of every page lies in the viewport, and pages are
      numbered from one. */
  lemma PagesStayInside(layout: DocumentLayout, style: ReaderStyle, k: nat)
    requires WellFormed(layout) && k < |Pages(layout, style)|
    ensures var page := Pages(layout, style)[k];
      StaysInside(page) && page.number == k + 1 && page.viewport == layout.viewport
  {
    PagesTileTheDocument(layout, style);
    var page := Pages(layout, style)[k];
    if !HasNoLines(layout) {
      assert IsPage(layout, style, k, page);
      ShownStaysInside(layout, style, k + 1, page.range);
    }
  }

  lemma ShownStaysInside(layout: DocumentLayout, style: ReaderStyle, number: nat, range: DocumentRange)
    requires WellFormed(layout)
    ensures StaysInside(PageOf(layout, style, number, range))
  {
    DrawStaysInside(
      BlankPage(number, layout.viewport, range),
      Join(RowDrawing(layout, style, range.start.block, PageHeader(layout, number, range.start)),
           BodyDrawing(layout, style, range, PageOrigin(layout, style, number, range.start), |layout.blocks|, 0)));
  }

  // ---- content ---------------------------------------------------------------------------

  /** What a reader sees or follows. */
  datatype Item = Words(text: string, style: TextStyle) | Picture(image: LayoutImage) | LinkTo(target: NavigationTarget)

  /** An item and where it is. */
  datatype Placed = Placed(item: Item, bounds: Rect)

  function CommandContent(c: DisplayCommand): seq<Placed> {
    match c
    case TextRun(bounds, text, style, _) => [Placed(Words(text, style), bounds)]
    case ImageShown(bounds, image, source, alt) => [Placed(Picture(LayoutImage(image, source, alt)), bounds)]
    case _ => []
  }

  function CommandsContent(commands: seq<DisplayCommand>): seq<Placed> {
    if commands == [] then []
    else CommandsContent(commands[..|commands| - 1]) + CommandContent(commands[|commands| - 1])
  }

  function RegionsContent(regions: seq<HitRegion>): seq<Placed> {
    if regions == [] then []
    else
      var last := regions[|regions| - 1];
      RegionsContent(regions[..|regions| - 1]) + [Placed(LinkTo(last.target), last.bounds)]
  }

  /** What a page holds: the words and pictures of its commands, or the links of its hit
      regions, in order. */
  function Content(page: PageLayout, links: bool): seq<Placed> {
    if links then RegionsContent(page.hitRegions) else CommandsContent(page.commands)
  }

  /** What a drawing places, before anything is cut off. */
  function Drawn(d: Drawing, links: bool): seq<Placed> {
    match d
    case Nothing => []
    case Pushed(command) => if links then [] else CommandContent(command)
    case Linked(region) => if links then [Placed(LinkTo(region.target), region.bounds)] else []
    case Join(below, above) => Drawn(below, links) + Drawn(above, links)
  }

  /** The part of an item that a viewport shows, if it shows any. */
  function VisiblePart(viewport: Viewport, p: Placed): seq<Placed> {
    match Clip(viewport, p.bounds)
    case None => []
    case Some(bounds) => [p.(bounds := bounds)]
  }

  function Visible(viewport: Viewport, placed: seq<Placed>): seq<Placed> {
    if placed == [] then []
    else
      Visible(viewport, placed[..|placed| - 1]) + VisiblePart(viewport, placed[|placed| - 1])
  }

  lemma {:induction false} VisibleJoins(viewport: Viewport, a: seq<Placed>, b: seq<Placed>)
    ensures Visible(viewport, a + b) == Visible(viewport, a) + Visible(viewport, b)
  {
    if b == [] {
      assert a + b == a;
    } else {
      var n := |b| - 1;
      VisibleJoins(viewport, a, b[..n]);
      assert (a + b)[..|a + b| - 1] == a + b[..n];
      Append(Visible(viewport, a), Visible(viewport, b[..n]), VisiblePart(viewport, b[n]));
    }
  }

  lemma VisibleOne(viewport: Viewport, p: Placed)
    ensures Visible(viewport, [p]) == VisiblePart(viewport, p)
  {
    assert [p][..0] == [];
  }

  lemma Append<T>(a: seq<T>, b: seq<T>, c: seq<T>)
    ensures a + (b + c) == a + b + c
  {
  }

  lemma NothingAppended<T>(s: seq<T>)
    ensures s + [] == s && [] + s == s
  {
  }

  lemma CommandShows(page: PageLayout, command: DisplayCommand)
    ensures CommandsContent(PushCommand(page, command).commands)
         == CommandsContent(page.commands) + Visible(page.viewport, CommandContent(command))
    ensures PushCommand(page, command).hitRegions == page.hitRegions
  {
    if CommandContent(command) != [] {
      VisibleOne(page.viewport, CommandContent(command)[0]);
    }
    var pushed := PushCommand(page, command).commands;
    if pushed != page.commands {
      assert pushed[..|pushed| - 1] == page.commands;
    }
    NothingAppended(CommandsContent(page.commands));
  }

  lemma RegionShows(page: PageLayout, region: HitRegion)
    ensures RegionsContent(AddHitRegion(page, region).hitRegions)
         == RegionsContent(page.hitRegions) + Visible(page.viewport, [Placed(LinkTo(region.target), region.bounds)])
    ensures AddHitRegion(page, region).commands == page.commands
  {
    VisibleOne(page.viewport, Placed(LinkTo(region.target), region.bounds));
    var added := AddHitRegion(page, region).hitRegions;
    if added != page.hitRegions {
      assert added[..|added| - 1] == page.hitRegions;
    }
    NothingAppended(RegionsContent(page.hitRegions));
  }

  /** Drawing adds to a page exactly what is visible of the drawing. */
  lemma {:induction false} DrawingShows(page: PageLayout, d: Drawing, links: bool)
    ensures Content(Draw(page, d), links) == Content(page, links) + Visible(page.viewport, Drawn(d, links))
    decreases d
  {
    match d
    case Nothing => NothingAppended(Content(page, links));
    case Pushed(command) =>
      CommandShows(page, command);
      NothingAppended(Content(page, links));
    case Linked(region) =>
      RegionShows(page, region);
      NothingAppended(Content(page, links));
    case Join(below, above) =>
      DrawingShows(page, below, links);
      DrawingShows(Draw(page, below), above, links);
      VisibleJoins(page.viewport, Drawn(below, links), Drawn(above, links));
      Append(Content(page, links), Visible(page.viewport, Drawn(below, links)),
             Visible(page.viewport, Drawn(above, links)));
  }

  // ---- lines -----------------------------------------------------------------------------

  /** The words or the picture of a fragment, or its link, where an offset puts it. */
  function PlacedFragment(fragment: LayoutFragment, offset: Point, links: bool): seq<Placed> {
    var bounds := Translate(fragment.bounds, offset);
    if links then (if fragment.link.Some? then [Placed(LinkTo(fragment.link.value), bounds)] else [])
    else [Placed(if fragment.image.Some? then Picture(fragment.image.value) else Words(fragment.text, fragment.style),
                 bounds)]
  }

  function PlacedFragments(fragments: seq<LayoutFragment>, offset: Point, links: bool): seq<Placed> {
    if fragments == [] then []
    else
      PlacedFragments(fragments[..|fragments| - 1], offset, links)
      + PlacedFragment(fragments[|fragments| - 1], offset, links)
  }

  lemma TextIsDrawn(
    fragment: LayoutFragment, style: ReaderStyle, surface: bool, background: Color, bounds: Rect, links: bool)
    ensures Drawn(TextDrawing(fragment, style, surface, background, bounds), links)
         == if links then []
            else [Placed(if fragment.image.Some? then Picture(fragment.image.value)
                         else Words(fragment.text, fragment.style), bounds)]
  {
    if fragment.image.None? {
      var inlineCode := fragment.style.code && !surface;
      var fill := if inlineCode then Pushed(Filled(bounds, style.inlineCodeBackground)) else Nothing;
      var words :=
        Pushed(TextRun(bounds, fragment.text, fragment.style,
                       if inlineCode then style.inlineCodeBackground.color else background));
      assert Drawn(fill, links) == [];
      assert Drawn(Join(fill, words), links) == Drawn(words, links);
    }
  }

  lemma FragmentIsDrawn(
    fragment: LayoutFragment, style: ReaderStyle, surface: bool, background: Color, offset: Point, links: bool)
    ensures Drawn(FragmentDrawing(fragment, style, surface, background, offset), links)
         == PlacedFragment(fragment, offset, links)
  {
    TextIsDrawn(fragment, style, surface, background, Translate(fragment.bounds, offset), links);
  }

  lemma {:induction false} FragmentsAreDrawn(
    fragments: seq<LayoutFragment>, style: ReaderStyle, surface: bool, background: Color, offset: Point, links: bool)
    ensures Drawn(FragmentsDrawing(fragments, style, surface, background, offset), links)
         == PlacedFragments(fragments, offset, links)
  {
    if fragments != [] {
      var n := |fragments| - 1;
      FragmentsAreDrawn(fragments[..n], style, surface, background, offset, links);
      FragmentIsDrawn(fragments[n], style, surface, background, offset, links);
    }
  }

  lemma {:induction false} HeaderFillsSayNothing(
    group: TableColumnGroup, columns: nat, line: LayoutLine, style: ReaderStyle, offset: Point, links: bool)
    requires columns <= |group.widths|
    ensures Drawn(HeaderFills(group, columns, line, style, offset), links) == []
  {
    if columns > 0 {
      HeaderFillsSayNothing(group, columns - 1, line, style, offset, links);
    }
  }

  lemma {:induction false} BoundaryRulesSayNothing(
    group: TableColumnGroup, columns: nat, line: LayoutLine, style: ReaderStyle, offset: Point, links: bool)
    requires columns <= |group.widths|
    ensures Drawn(BoundaryRules(group, columns, line, style, offset), links) == []
  {
    if columns > 0 {
      BoundaryRulesSayNothing(group, columns - 1, line, style, offset, links);
    }
  }

  lemma TableSaysNothing(
    line: LayoutLine, offset: Point, style: ReaderStyle, table: TableLayout, index: nat,
    repeated: bool, startsPage: bool, links: bool)
    ensures Drawn(TableDrawing(line, offset, style, table, index, repeated, startsPage), links) == []
  {
    var found := TableRowAt(table, index);
    if found.Some? && found.value.group < |table.groups| {
      var row, group := found.value, table.groups[found.value.group];
      HeaderFillsSayNothing(group, |group.widths|, line, style, offset, links);
      BoundaryRulesSayNothing(group, |group.widths|, line, style, offset, links);
      var cells := if row.header then HeaderFills(group, |group.widths|, line, style, offset) else Nothing;
      assert Drawn(ColumnRules(group, line, style, offset), links) == [];
      var grid := Join(cells, ColumnRules(group, line, style, offset));
      assert Drawn(grid, links) == [];
      var topped :=
        if HasTopRule(row, RowIndexOf(table, row), index, repeated, startsPage)
        then Join(grid, Pushed(TopRule(group, line, style, offset))) else grid;
      assert Drawn(topped, links) == [];
    }
  }

  lemma FrameSaysNothing(
    line: LayoutLine, offset: Point, kind: LayoutBlockKind, style: ReaderStyle,
    table: Option<TableLayout>, index: nat, repeated: bool, startsPage: bool, links: bool)
    ensures Drawn(FrameDrawing(line, offset, kind, style, table, index, repeated, startsPage), links) == []
  {
    var surface := SurfaceDrawing(line, offset, kind, style);
    assert Drawn(surface, links) == [];
    if kind.Table? && table.Some? {
      TableSaysNothing(line, offset, style, table.value, index, repeated, startsPage, links);
      assert Drawn(Join(surface, TableDrawing(line, offset, style, table.value, index, repeated, startsPage)), links) == [];
    }
  }

  /** A line draws its fragments and their links, in order, and no other content. */
  lemma LineIsDrawn(
    line: LayoutLine, offset: Point, kind: LayoutBlockKind, style: ReaderStyle,
    table: Option<TableLayout>, index: nat, repeated: bool, startsPage: bool, links: bool)
    ensures Drawn(LineDrawing(line, offset, kind, style, table, index, repeated, startsPage), links)
         == PlacedFragments(line.fragments, offset, links)
  {
    var surface := IsCodeSurface(kind, line);
    var background := LineBackground(kind, line, style, table, index);
    var frame := FrameDrawing(line, offset, kind, style, table, index, repeated, startsPage);
    var body := FragmentsDrawing(line.fragments, style, surface, background, offset);
    FrameSaysNothing(line, offset, kind, style, table, index, repeated, startsPage, links);
    FragmentsAreDrawn(line.fragments, style, surface, background, offset, links);
    assert Drawn(Join(frame, body), links) == PlacedFragments(line.fragments, offset, links);
  }

  /** A line adds to a page exactly what the viewport shows of its fragments and links. */
  lemma LineShowsItsFragments(
    page: PageLayout, line: LayoutLine, offset: Point, kind: LayoutBlockKind, style: ReaderStyle,
    table: Option<TableLayout>, index: nat, repeated: bool, startsPage: bool, links: bool)
    ensures Content(Draw(page, LineDrawing(line, offset, kind, style, table, index, repeated, startsPage)), links)
         == Content(page, links) + Visible(page.viewport, PlacedFragments(line.fragments, offset, links))
  {
    LineIsDrawn(line, offset, kind, style, table, index, repeated, startsPage, links);
    DrawingShows(page, LineDrawing(line, offset, kind, style, table, index, repeated, startsPage), links);
  }

  // ---- pages -----------------------------------------------------------------------------

  /** The content of lines [first, end) of a block as a repeated header places it. */
  function PlacedHeaderLines(block: LayoutBlock, style: ReaderStyle, first: nat, end: nat, links: bool): seq<Placed>
    requires first < |block.lines| && end <= |block.lines|
    decreases end
  {
    if end <= first then []
    else
      PlacedHeaderLines(block, style, first, end - 1, links)
      + PlacedFragments(block.lines[end - 1].fragments, HeaderOffset(block, style, first), links)
  }

  /** The content of the repeated header of a page. */
  function PlacedRow(layout: DocumentLayout, style: ReaderStyle, number: nat, start: DocumentCursor, links: bool)
    : seq<Placed>
    requires WellFormed(layout)
  {
    match PageHeader(layout, number, start)
    case None => []
    case Some(header) =>
      PlacedHeaderLines(layout.blocks[start.block], style, header.first, header.end, links)
  }

  /** The content of the lines of a range that come before a position. */
  function PlacedBodyLines(
    layout: DocumentLayout, range: DocumentRange, originY: i32, b: nat, l: nat, links: bool): seq<Placed>
    requires IsPosition(layout, b, l)
    decreases b, l
  {
    if l > 0 then
      var above := PlacedBodyLines(layout, range, originY, b, l - 1, links);
      if range.Contains(DocumentCursor(b, l - 1))
      then above + PlacedFragments(layout.blocks[b].lines[l - 1].fragments, Point(0, SatNeg(originY)), links)
      else above
    else if b > 0 then PlacedBodyLines(layout, range, originY, b - 1, |layout.blocks[b - 1].lines|, links)
    else []
  }

  lemma HeaderLineIsDrawn(block: LayoutBlock, style: ReaderStyle, first: nat, line: nat, links: bool)
    requires first <= line < |block.lines|
    ensures Drawn(HeaderLine(block, style, first, line), links)
         == PlacedFragments(block.lines[line].fragments, HeaderOffset(block, style, first), links)
  {
    LineIsDrawn(block.lines[line], HeaderOffset(block, style, first), block.kind, style, block.table,
                line, true, false, links);
  }

  lemma {:induction false} HeaderIsDrawn(block: LayoutBlock, style: ReaderStyle, first: nat, end: nat, links: bool)
    requires first < |block.lines| && end <= |block.lines|
    ensures Drawn(HeaderDrawing(block, style, first, end), links)
         == PlacedHeaderLines(block, style, first, end, links)
    decreases end
  {
    if first < end {
      HeaderIsDrawn(block, style, first, end - 1, links);
      HeaderLineIsDrawn(block, style, first, end - 1, links);
    }
  }

  lemma {:induction false} BodyIsDrawn(
    layout: DocumentLayout, style: ReaderStyle, range: DocumentRange, originY: i32, b: nat, l: nat, links: bool)
    requires IsPosition(layout, b, l)
    ensures Drawn(BodyDrawing(layout, style, range, originY, b, l), links)
         == PlacedBodyLines(layout, range, originY, b, l, links)
    decreases b, l
  {
    if l > 0 {
      var block, cursor := layout.blocks[b], DocumentCursor(b, l - 1);
      BodyIsDrawn(layout, style, range, originY, b, l - 1, links);
      LineIsDrawn(block.lines[l - 1], Point(0, SatNeg(originY)), block.kind, style, block.table,
                  l - 1, false, cursor == range.start, links);
    } else if b > 0 {
      BodyIsDrawn(layout, style, range, originY, b - 1, |layout.blocks[b - 1].lines|, links);
    }
  }

  function PlacedBodyOf(layout: DocumentLayout, style: ReaderStyle, number: nat, range: DocumentRange, links: bool)
    : seq<Placed>
  {
    PlacedBodyLines(layout, range, PageOrigin(layout, style, number, range.start), |layout.blocks|, 0, links)
  }

  lemma PageOfShows(layout: DocumentLayout, style: ReaderStyle, number: nat, range: DocumentRange, links: bool)
    requires WellFormed(layout)
    ensures Content(PageOf(layout, style, number, range), links)
         == Visible(layout.viewport, PlacedRow(layout, style, number, range.start, links))
            + Visible(layout.viewport, PlacedBodyOf(layout, style, number, range, links))
  {
    var header := PageHeader(layout, number, range.start);
    var row := RowDrawing(layout, style, range.start.block, header);
    var originY := PageOrigin(layout, style, number, range.start);
    var body := BodyDrawing(layout, style, range, originY, |layout.blocks|, 0);
    var blank := BlankPage(number, layout.viewport, range);
    if header.Some? {
      assert RowsInBounds(layout.blocks[range.start.block]);
      HeaderIsDrawn(layout.blocks[range.start.block], style, header.value.first, header.value.end, links);
    }
    BodyIsDrawn(layout, style, range, originY, |layout.blocks|, 0, links);
    DrawingShows(blank, row, links);
    DrawingShows(Draw(blank, row), body, links);
    NothingAppended(Visible(layout.viewport, Drawn(row, links)));
  }

  /** A page holds exactly what is visible of its repeated header, and then exactly what is
      visible of the lines of its range: of each fragment and link the part inside the
      viewport, and nothing of one that has no such part. */
  lemma PageShowsWhatIsVisible(layout: DocumentLayout, style: ReaderStyle, k: nat, links: bool)
    requires WellFormed(layout) && k < |Pages(layout, style)|
    ensures var page := Pages(layout, style)[k];
      Content(page, links)
        == Visible(layout.viewport, PlacedRow(layout, style, k + 1, page.range.start, links))
           + Visible(layout.viewport, PlacedBodyOf(layout, style, k + 1, page.range, links))
  {
    PagesTileTheDocument(layout, style);
    var page := Pages(layout, style)[k];
    if HasNoLines(layout) {
      NoLinesPlaceNothing(layout, page.range, 0, |layout.blocks|, 0, links);
    } else {
      assert IsPage(layout, style, k, page);
      PageOfShows(layout, style, k + 1, page.range, links);
    }
  }

  lemma {:induction false} NoLinesPlaceNothing(
    layout: DocumentLayout, range: DocumentRange, originY: i32, b: nat, l: nat, links: bool)
    requires IsPosition(layout, b, l) && HasNoLines(layout)
    ensures PlacedBodyLines(layout, range, originY, b, l, links) == []
    decreases b, l
  {
    assert l > 0 ==> IsLine(layout, DocumentCursor(b, l - 1));
    if b > 0 {
      NoLinesPlaceNothing(layout, range, originY, b - 1, |layout.blocks[b - 1].lines|, links);
    }
  }

  // ---- the document ----------------------------------------------------------------------

  function ItemsOf(placed: seq<Placed>): seq<Item> {
    if placed == [] then [] else ItemsOf(placed[..|placed| - 1]) + [placed[|placed| - 1].item]
  }

  lemma {:induction false} ItemsJoin(a: seq<Placed>, b: seq<Placed>)
    ensures ItemsOf(a + b) == ItemsOf(a) + ItemsOf(b)
  {
    if b == [] {
      assert a + b == a;
    } else {
      ItemsJoin(a, b[..|b| - 1]);
      assert (a + b)[..|a + b| - 1] == a + b[..|b| - 1];
    }
  }

  /** The words and pictures, or the links, of the lines before a position, in order. */
  function ItemsBefore(layout: DocumentLayout, b: nat, l: nat, links: bool): seq<Item>
    requires IsPosition(layout, b, l)
    decreases b, l
  {
    if l > 0 then
      ItemsBefore(layout, b, l - 1, links)
      + ItemsOf(PlacedFragments(layout.blocks[b].lines[l - 1].fragments, Point(0, 0), links))
    else if b > 0 then ItemsBefore(layout, b - 1, |layout.blocks[b - 1].lines|, links)
    else []
  }

  lemma {:induction false} OffsetDoesNotMatter(fragments: seq<LayoutFragment>, a: Point, b: Point, links: bool)
    ensures ItemsOf(PlacedFragments(fragments, a, links)) == ItemsOf(PlacedFragments(fragments, b, links))
  {
    if fragments != [] {
      var n := |fragments| - 1;
      OffsetDoesNotMatter(fragments[..n], a, b, links);
      ItemsJoin(PlacedFragments(fragments[..n], a, links), PlacedFragment(fragments[n], a, links));
      ItemsJoin(PlacedFragments(fragments[..n], b, links), PlacedFragment(fragments[n], b, links));
      SameItems(fragments[n], a, b, links);
    }
  }

  lemma SameItems(fragment: LayoutFragment, a: Point, b: Point, links: bool)
    ensures ItemsOf(PlacedFragment(fragment, a, links)) == ItemsOf(PlacedFragment(fragment, b, links))
  {
    var p, q := PlacedFragment(fragment, a, links), PlacedFragment(fragment, b, links);
    if p != [] {
      assert p[..0] == [] && q[..0] == [];
    }
  }

  /** Between its start and its end, a range places the items of the document. */
  lemma {:induction false} RangePlacesItsLines(
    layout: DocumentLayout, range: DocumentRange, originY: i32, b: nat, l: nat, links: bool)
    requires IsPosition(layout, b, l)
    requires IsPosition(layout, range.start.block, range.start.line)
    requires AtOrBefore(range.start, DocumentCursor(b, l)) && AtOrBefore(DocumentCursor(b, l), range.end)
    ensures ItemsBefore(layout, range.start.block, range.start.line, links)
              + ItemsOf(PlacedBodyLines(layout, range, originY, b, l, links))
         == ItemsBefore(layout, b, l, links)
    decreases b, l
  {
    if DocumentCursor(b, l) == range.start {
      NothingPlacedBefore(layout, range, originY, b, l, links);
      NothingAppended(ItemsBefore(layout, b, l, links));
    } else if l > 0 {
      RangePlacesItsLines(layout, range, originY, b, l - 1, links);
      RangePlacesOneMore(layout, range, originY, DocumentCursor(b, l - 1), links);
    } else {
      RangePlacesItsLines(layout, range, originY, b - 1, |layout.blocks[b - 1].lines|, links);
    }
  }

  lemma RangePlacesOneMore(
    layout: DocumentLayout, range: DocumentRange, originY: i32, cursor: DocumentCursor, links: bool)
    requires IsLine(layout, cursor) && range.Contains(cursor)
    requires IsPosition(layout, range.start.block, range.start.line)
    requires ItemsBefore(layout, range.start.block, range.start.line, links)
               + ItemsOf(PlacedBodyLines(layout, range, originY, cursor.block, cursor.line, links))
          == ItemsBefore(layout, cursor.block, cursor.line, links)
    ensures ItemsBefore(layout, range.start.block, range.start.line, links)
              + ItemsOf(PlacedBodyLines(layout, range, originY, cursor.block, cursor.line + 1, links))
         == ItemsBefore(layout, cursor.block, cursor.line + 1, links)
  {
    var fragments := LineAt(layout, cursor).fragments;
    var above := PlacedBodyLines(layout, range, originY, cursor.block, cursor.line, links);
    var line := PlacedFragments(fragments, Point(0, SatNeg(originY)), links);
    ItemsJoin(above, line);
    OffsetDoesNotMatter(fragments, Point(0, SatNeg(originY)), Point(0, 0), links);
    Append(ItemsBefore(layout, range.start.block, range.start.line, links), ItemsOf(above), ItemsOf(line));
  }

  lemma {:induction false} NothingPlacedBefore(
    layout: DocumentLayout, range: DocumentRange, originY: i32, b: nat, l: nat, links: bool)
    requires IsPosition(layout, b, l) && AtOrBefore(DocumentCursor(b, l), range.start)
    ensures PlacedBodyLines(layout, range, originY, b, l, links) == []
    decreases b, l
  {
    if l > 0 {
      NothingPlacedBefore(layout, range, originY, b, l - 1, links);
    } else if b > 0 {
      NothingPlacedBefore(layout, range, originY, b - 1, |layout.blocks[b - 1].lines|, links);
    }
  }

  lemma {:induction false} PlacingStopsAtEnd(
    layout: DocumentLayout, range: DocumentRange, originY: i32, b: nat, l: nat, links: bool)
    requires IsPosition(layout, b, l) && IsPosition(layout, range.end.block, range.end.line)
    requires AtOrBefore(range.end, DocumentCursor(b, l))
    ensures PlacedBodyLines(layout, range, originY, b, l, links)
         == PlacedBodyLines(layout, range, originY, range.end.block, range.end.line, links)
    decreases b, l
  {
    if DocumentCursor(b, l) != range.end {
      if l > 0 {
        PlacingStopsAtEnd(layout, range, originY, b, l - 1, links);
      } else if b > 0 {
        PlacingStopsAtEnd(layout, range, originY, b - 1, |layout.blocks[b - 1].lines|, links);
      }
    }
  }

  /** What the bodies of the first pages place, page after page. */
  function PlacedByPages(layout: DocumentLayout, style: ReaderStyle, pages: seq<PageLayout>, links: bool): seq<Placed> {
    if pages == [] then []
    else
      var n := |pages| - 1;
      PlacedByPages(layout, style, pages[..n], links) + PlacedBodyOf(layout, style, n + 1, pages[n].range, links)
  }

  /** What the first pages hold after their repeated headers, page after page. */
  function ShownByPages(layout: DocumentLayout, style: ReaderStyle, pages: seq<PageLayout>, links: bool): seq<Placed>
    requires WellFormed(layout)
  {
    if pages == [] then []
    else
      var n := |pages| - 1;
      ShownByPages(layout, style, pages[..n], links) + BodyContent(layout, style, n, pages[n], links)
  }

  function BodyContent(layout: DocumentLayout, style: ReaderStyle, k: nat, page: PageLayout, links: bool): seq<Placed>
    requires WellFormed(layout)
  {
    var header := |Visible(layout.viewport, PlacedRow(layout, style, k + 1, page.range.start, links))|;
    var content := Content(page, links);
    if header <= |content| then content[header..] else []
  }

  lemma AfterPrefix<T>(a: seq<T>, b: seq<T>)
    ensures (a + b)[|a|..] == b
  {
  }

  lemma BodyContentIsVisible(layout: DocumentLayout, style: ReaderStyle, k: nat, links: bool)
    requires WellFormed(layout) && k < |Pages(layout, style)|
    ensures var page := Pages(layout, style)[k];
      BodyContent(layout, style, k, page, links)
        == Visible(layout.viewport, PlacedBodyOf(layout, style, k + 1, page.range, links))
  {
    PageShowsWhatIsVisible(layout, style, k, links);
    var page := Pages(layout, style)[k];
    AfterPrefix(Visible(layout.viewport, PlacedRow(layout, style, k + 1, page.range.start, links)),
                Visible(layout.viewport, PlacedBodyOf(layout, style, k + 1, page.range, links)));
  }

  lemma PrefixOf<T>(s: seq<T>, n: nat)
    requires 0 < n <= |s|
    ensures |s[..n]| == n && s[..n][..n - 1] == s[..n - 1] && s[..n][n - 1] == s[n - 1]
  {
  }

  ghost predicate ShowVisibleBodies(layout: DocumentLayout, style: ReaderStyle, pages: seq<PageLayout>, links: bool)
    requires WellFormed(layout)
  {
    forall k | 0 <= k < |pages| ::
      BodyContent(layout, style, k, pages[k], links)
        == Visible(layout.viewport, PlacedBodyOf(layout, style, k + 1, pages[k].range, links))
  }

  lemma {:induction false} BodiesAddUp(
    layout: DocumentLayout, style: ReaderStyle, pages: seq<PageLayout>, links: bool)
    requires WellFormed(layout) && ShowVisibleBodies(layout, style, pages, links)
    ensures ShownByPages(layout, style, pages, links) == Visible(layout.viewport, PlacedByPages(layout, style, pages, links))
  {
    if pages != [] {
      var n := |pages| - 1;
      BodiesAddUp(layout, style, pages[..n], links);
      VisibleJoins(layout.viewport, PlacedByPages(layout, style, pages[..n], links),
                   PlacedBodyOf(layout, style, n + 1, pages[n].range, links));
    }
  }

  lemma PagesShowWhatIsVisible(layout: DocumentLayout, style: ReaderStyle, links: bool)
    requires WellFormed(layout)
    ensures var pages := Pages(layout, style);
      ShownByPages(layout, style, pages, links) == Visible(layout.viewport, PlacedByPages(layout, style, pages, links))
  {
    var pages := Pages(layout, style);
    forall k | 0 <= k < |pages|
      ensures BodyContent(layout, style, k, pages[k], links)
           == Visible(layout.viewport, PlacedBodyOf(layout, style, k + 1, pages[k].range, links))
    {
      BodyContentIsVisible(layout, style, k, links);
    }
    BodiesAddUp(layout, style, pages, links);
  }

  lemma PageContinuesDocument(layout: DocumentLayout, style: ReaderStyle, number: nat, range: DocumentRange, links: bool)
    requires IsLine(layout, range.start) && IsPosition(layout, range.end.block, range.end.line)
    requires Before(range.start, range.end)
    ensures ItemsBefore(layout, range.start.block, range.start.line, links)
              + ItemsOf(PlacedBodyOf(layout, style, number, range, links))
         == ItemsBefore(layout, range.end.block, range.end.line, links)
  {
    var originY := PageOrigin(layout, style, number, range.start);
    PlacingStopsAtEnd(layout, range, originY, |layout.blocks|, 0, links);
    RangePlacesItsLines(layout, range, originY, range.end.block, range.end.line, links);
  }

  /** Where the page before ends, or where the document begins. */
  lemma OnePageMore(
    layout: DocumentLayout, style: ReaderStyle, pages: seq<PageLayout>, n: nat, links: bool)
    requires WellFormed(layout) && IsPagination(layout, style, pages) && !HasNoLines(layout)
    requires 0 < n <= |pages|
    ensures var start, end := pages[n - 1].range.start, pages[n - 1].range.end;
      && IsLine(layout, start) && IsPosition(layout, end.block, end.line)
      && ItemsBefore(layout, start.block, start.line, links)
           + ItemsOf(PlacedBodyOf(layout, style, n, pages[n - 1].range, links))
         == ItemsBefore(layout, end.block, end.line, links)
      && (n == 1 ==> ItemsBefore(layout, start.block, start.line, links) == [])
      && (n > 1 ==> pages[n - 2].range.end == start)
  {
    var page := pages[n - 1];
    assert IsPage(layout, style, n - 1, page);
    EndIsLineOrDocumentEnd(layout, style, pages, n - 1);
    PageContinuesDocument(layout, style, n, page.range, links);
    if n == 1 {
      NothingBeforeFirst(layout, page.range.start, page.range.start.block, page.range.start.line, links);
    } else {
      assert EndsAt(layout, style, n - 2, pages[n - 2], page.range.start);
    }
  }

  lemma {:induction false} FirstPagesPlace(
    layout: DocumentLayout, style: ReaderStyle, pages: seq<PageLayout>, n: nat, links: bool)
    requires WellFormed(layout) && IsPagination(layout, style, pages) && !HasNoLines(layout)
    requires 0 < n <= |pages|
    ensures var end := pages[n - 1].range.end;
      IsPosition(layout, end.block, end.line)
      && ItemsOf(PlacedByPages(layout, style, pages[..n], links)) == ItemsBefore(layout, end.block, end.line, links)
  {
    OnePageMore(layout, style, pages, n, links);
    PrefixOf(pages, n);
    ItemsJoin(PlacedByPages(layout, style, pages[..n - 1], links),
              PlacedBodyOf(layout, style, n, pages[n - 1].range, links));
    if n > 1 {
      FirstPagesPlace(layout, style, pages, n - 1, links);
    }
  }

  lemma {:induction false} NothingBeforeFirst(
    layout: DocumentLayout, first: DocumentCursor, b: nat, l: nat, links: bool)
    requires IsFirst(layout, first) && IsPosition(layout, b, l) && AtOrBefore(DocumentCursor(b, l), first)
    ensures ItemsBefore(layout, b, l, links) == []
    decreases b, l
  {
    assert l > 0 ==> IsLine(layout, DocumentCursor(b, l - 1));
    if b > 0 {
      NothingBeforeFirst(layout, first, b - 1, |layout.blocks[b - 1].lines|, links);
    }
  }

  /** What the pages place is the document: every item exactly once and in order. What their
      commands and hit regions hold, after the repeated headers, is exactly the part of it
      that the viewport shows. So an item is on its page if and only if the bounds at
      which it is placed reach into the viewport. */
  lemma PagesReadAsTheDocument(layout: DocumentLayout, style: ReaderStyle, links: bool)
    requires WellFormed(layout)
    ensures var pages := Pages(layout, style);
      var placed := PlacedByPages(layout, style, pages, links);
      && ItemsOf(placed) == ItemsBefore(layout, |layout.blocks|, 0, links)
      && ShownByPages(layout, style, pages, links) == Visible(layout.viewport, placed)
  {
    var pages := Pages(layout, style);
    PagesTileTheDocument(layout, style);
    PagesShowWhatIsVisible(layout, style, links);
    assert pages[..|pages|] == pages;
    if HasNoLines(layout) {
      NoLinesPlaceNothing(layout, pages[0].range, PageOrigin(layout, style, 1, pages[0].range.start),
                          |layout.blocks|, 0, links);
      assert pages[..0] == [] && PlacedByPages(layout, style, pages, links) == [];
      NoItems(layout, |layout.blocks|, 0, links);
    } else {
      FirstPagesPlace(layout, style, pages, |pages|, links);
    }
  }

  lemma {:induction false} NoItems(layout: DocumentLayout, b: nat, l: nat, links: bool)
    requires HasNoLines(layout) && IsPosition(layout, b, l)
    ensures ItemsBefore(layout, b, l, links) == []
    decreases b, l
  {
    assert l > 0 ==> IsLine(layout, DocumentCursor(b, l - 1));
    if b > 0 {
      NoItems(layout, b - 1, |layout.blocks[b - 1].lines|, links);
    }
  }

  // ---- nothing lost ------------------------------------------------------------------------

  ghost predicate AllVisible(viewport: Viewport, placed: seq<Placed>) {
    forall p | p in placed :: Clip(viewport, p.bounds).Some?
  }

  lemma AllVisibleSplits(viewport: Viewport, placed: seq<Placed>, last: Placed)
    ensures AllVisible(viewport, placed + [last]) <==>
      AllVisible(viewport, placed) && Clip(viewport, last.bounds).Some?
  {
    var all := placed + [last];
    assert last in all;
    assert forall p :: p in all <==> p in placed || p == last;
  }

  lemma {:induction false} VisibleKeepsAllIff(viewport: Viewport, placed: seq<Placed>)
    ensures |Visible(viewport, placed)| <= |placed|
    ensures |Visible(viewport, placed)| == |placed| <==> AllVisible(viewport, placed)
  {
    if placed != [] {
      var n := |placed| - 1;
      assert placed == placed[..n] + [placed[n]];
      VisibleKeepsAllIff(viewport, placed[..n]);
      AllVisibleSplits(viewport, placed[..n], placed[n]);
    }
  }

  lemma {:induction false} VisibleKeepsItems(viewport: Viewport, placed: seq<Placed>)
    requires AllVisible(viewport, placed)
    ensures ItemsOf(Visible(viewport, placed)) == ItemsOf(placed)
  {
    if placed != [] {
      var n := |placed| - 1;
      assert placed == placed[..n] + [placed[n]];
      AllVisibleSplits(viewport, placed[..n], placed[n]);
      VisibleKeepsItems(viewport, placed[..n]);
      var part := VisiblePart(viewport, placed[n]);
      ItemsJoin(Visible(viewport, placed[..n]), part);
      OneItem(part[0]);
    }
  }

  lemma {:induction false} ItemsCount(placed: seq<Placed>)
    ensures |ItemsOf(placed)| == |placed|
  {
    if placed != [] {
      ItemsCount(placed[..|placed| - 1]);
    }
  }

  /** The pages show the whole document, every item once and in order, if and only if every
      item is placed where the viewport shows some of it. */
  lemma NothingIsLostIff(layout: DocumentLayout, style: ReaderStyle, links: bool)
    requires WellFormed(layout)
    ensures var pages := Pages(layout, style);
      ItemsOf(ShownByPages(layout, style, pages, links)) == ItemsBefore(layout, |layout.blocks|, 0, links)
      <==> AllVisible(layout.viewport, PlacedByPages(layout, style, pages, links))
  {
    var pages := Pages(layout, style);
    var placed, shown := PlacedByPages(layout, style, pages, links), ShownByPages(layout, style, pages, links);
    PagesReadAsTheDocument(layout, style, links);
    VisibleKeepsAllIff(layout.viewport, placed);
    if AllVisible(layout.viewport, placed) {
      VisibleKeepsItems(layout.viewport, placed);
    }
    ItemsCount(placed);
    ItemsCount(shown);
  }

  // ---- layouts whose fragments fit -----------------------------------------------------------

  /** A fragment with an area, inside its line and the width of the page. */
  predicate FragmentFits(viewport: Viewport, line: LayoutLine, fragment: LayoutFragment) {
    var f := fragment.bounds;
    && 0 < f.width && 0 < f.height && 0 <= f.x && f.x + f.width <= viewport.width
    && line.bounds.y <= f.y && f.y + f.height <= line.bounds.y + line.bounds.height
  }

  ghost predicate FragmentsFit(layout: DocumentLayout) {
    forall c, f | IsLine(layout, c) && f in LineAt(layout, c).fragments ::
      FragmentFits(layout.viewport, LineAt(layout, c), f)
  }

  /** What a filled top says of the first line below it. */
  lemma FirstLineIsBelowTheTop(layout: DocumentLayout, style: ReaderStyle, start: DocumentCursor, originY: i32)
    requires IsModerate(layout, style) && IsOrdered(layout) && IsLine(layout, start)
    requires TopIsFilled(layout, style, start, originY)
    ensures 0 <= Translate(LineAt(layout, start).bounds, Point(0, SatNeg(originY))).y
  {
    var header := HeaderAbove(layout, start);
    if header.Some? {
      HeaderLinesStayAbove(layout, style, start.block, header.value, header.value.end - 1);
    }
  }

  lemma BodyStartsBelowTheTop(layout: DocumentLayout, style: ReaderStyle, k: nat, cursor: DocumentCursor)
    requires WellFormed(layout) && IsModerate(layout, style) && IsOrdered(layout)
    requires k < |Pages(layout, style)| && IsLine(layout, cursor) && Pages(layout, style)[k].range.Contains(cursor)
    ensures 0 <= PlacedBody(layout, style, k, cursor).y
    ensures -2 * MODERATE <= OriginOfPage(layout, style, k) <= 2 * MODERATE
  {
    if k > 0 {
      var start := Pages(layout, style)[k].range.start;
      HeaderFillsTheTop(layout, style, k);
      FirstLineIsBelowTheTop(layout, style, start, OriginOfPage(layout, style, k));
      ModerateOrigin(layout, style, start);
      BodyLinesStayBelow(layout, style, k, cursor);
    } else {
      PlacedExactly(LineAt(layout, cursor).bounds, 0);
    }
  }

  /** Of a line that ends on the page, the whole of every fitting fragment is shown. */
  lemma FittingFragmentIsShown(
    layout: DocumentLayout, style: ReaderStyle, k: nat, cursor: DocumentCursor, fragment: LayoutFragment)
    requires WellFormed(layout) && IsModerate(layout, style) && IsOrdered(layout)
    requires 0 < layout.viewport.height && layout.viewport.width <= MODERATE
    requires k < |Pages(layout, style)| && IsLine(layout, cursor) && Pages(layout, style)[k].range.Contains(cursor)
    requires FragmentFits(layout.viewport, LineAt(layout, cursor), fragment)
    requires LineBottom(PlacedBody(layout, style, k, cursor)) <= PageHeight(layout)
    ensures var placed := Translate(fragment.bounds, Point(0, SatNeg(OriginOfPage(layout, style, k))));
      Clip(layout.viewport, placed) == Some(placed)
  {
    BodyStartsBelowTheTop(layout, style, k, cursor);
    var y := SatNeg(OriginOfPage(layout, style, k));
    PlacedExactly(LineAt(layout, cursor).bounds, y);
    PlacedExactly(fragment.bounds, y);
  }

  /** The lines that may end below their page are the first line of a page and the later
      lines of an image. When those end on the page too, every line does. */
  lemma LinesEndOnThePage(layout: DocumentLayout, style: ReaderStyle, k: nat, cursor: DocumentCursor)
    requires WellFormed(layout) && IsModerate(layout, style) && IsOrdered(layout)
    requires k < |Pages(layout, style)| && IsLine(layout, cursor) && Pages(layout, style)[k].range.Contains(cursor)
    requires cursor == Pages(layout, style)[k].range.start || layout.blocks[cursor.block].kind.Image? ==>
      LineBottom(PlacedBody(layout, style, k, cursor)) <= PageHeight(layout)
    ensures LineBottom(PlacedBody(layout, style, k, cursor)) <= PageHeight(layout)
  {
    if cursor != Pages(layout, style)[k].range.start && !layout.blocks[cursor.block].kind.Image? {
      LinesEndAboveBottomPadding(layout, style, k, cursor);
      BodyStartsBelowTheTop(layout, style, k, cursor);
      PlacedExactly(LineAt(layout, cursor).bounds, SatNeg(OriginOfPage(layout, style, k)));
    }
  }

  /** The first line of every page, and every line of an image, ends on its page. */
  ghost predicate OpeningsAndImagesFit(layout: DocumentLayout, style: ReaderStyle)
    requires WellFormed(layout)
  {
    forall k, c | 0 <= k < |Pages(layout, style)| && IsLine(layout, c) && Pages(layout, style)[k].range.Contains(c) ::
      c == Pages(layout, style)[k].range.start || layout.blocks[c.block].kind.Image? ==>
        LineBottom(PlacedBody(layout, style, k, c)) <= PageHeight(layout)
  }

  /** All that is asked of a layout for its pages to show it whole. */
  ghost predicate IsFitting(layout: DocumentLayout, style: ReaderStyle) {
    && WellFormed(layout) && IsModerate(layout, style) && IsOrdered(layout) && FragmentsFit(layout)
    && 0 < layout.viewport.height && layout.viewport.width <= MODERATE
    && OpeningsAndImagesFit(layout, style)
  }

  ghost predicate LinesAreVisible(layout: DocumentLayout, range: DocumentRange, originY: i32, links: bool) {
    forall c | IsLine(layout, c) && range.Contains(c) ::
      AllVisible(layout.viewport, PlacedFragments(LineAt(layout, c).fragments, Point(0, SatNeg(originY)), links))
  }

  lemma {:induction false} VisibleLinesMakeVisibleBody(
    layout: DocumentLayout, range: DocumentRange, originY: i32, b: nat, l: nat, links: bool)
    requires LinesAreVisible(layout, range, originY, links) && IsPosition(layout, b, l)
    ensures AllVisible(layout.viewport, PlacedBodyLines(layout, range, originY, b, l, links))
    decreases b, l
  {
    if l > 0 {
      var cursor := DocumentCursor(b, l - 1);
      VisibleLinesMakeVisibleBody(layout, range, originY, b, l - 1, links);
      if range.Contains(cursor) {
        BothVisible(layout.viewport, PlacedBodyLines(layout, range, originY, b, l - 1, links),
                    PlacedFragments(LineAt(layout, cursor).fragments, Point(0, SatNeg(originY)), links));
      }
    } else if b > 0 {
      VisibleLinesMakeVisibleBody(layout, range, originY, b - 1, |layout.blocks[b - 1].lines|, links);
    }
  }

  lemma FittingBodyIsVisible(layout: DocumentLayout, style: ReaderStyle, k: nat, links: bool)
    requires IsFitting(layout, style)
    requires k < |Pages(layout, style)|
    ensures AllVisible(layout.viewport, PlacedBodyOf(layout, style, k + 1, Pages(layout, style)[k].range, links))
  {
    var range, originY := Pages(layout, style)[k].range, OriginOfPage(layout, style, k);
    forall c | IsLine(layout, c) && range.Contains(c)
      ensures AllVisible(layout.viewport, PlacedFragments(LineAt(layout, c).fragments, Point(0, SatNeg(originY)), links))
    {
      FittingLineIsVisible(layout, style, k, c, LineAt(layout, c).fragments, links);
    }
    VisibleLinesMakeVisibleBody(layout, range, originY, |layout.blocks|, 0, links);
  }

  lemma BothVisible(viewport: Viewport, a: seq<Placed>, b: seq<Placed>)
    requires AllVisible(viewport, a) && AllVisible(viewport, b)
    ensures AllVisible(viewport, a + b)
  {
  }

  lemma {:induction false} FittingLineIsVisible(
    layout: DocumentLayout, style: ReaderStyle, k: nat, cursor: DocumentCursor, fragments: seq<LayoutFragment>,
    links: bool)
    requires IsFitting(layout, style)
    requires k < |Pages(layout, style)| && IsLine(layout, cursor) && Pages(layout, style)[k].range.Contains(cursor)
    requires forall f | f in fragments :: f in LineAt(layout, cursor).fragments
    ensures AllVisible(layout.viewport,
      PlacedFragments(fragments, Point(0, SatNeg(OriginOfPage(layout, style, k))), links))
  {
    if fragments != [] {
      var n, offset := |fragments| - 1, Point(0, SatNeg(OriginOfPage(layout, style, k)));
      FittingLineIsVisible(layout, style, k, cursor, fragments[..n], links);
      LinesEndOnThePage(layout, style, k, cursor);
      assert fragments[n] in fragments;
      FittingFragmentIsShown(layout, style, k, cursor, fragments[n]);
      BothVisible(layout.viewport, PlacedFragments(fragments[..n], offset, links),
                  PlacedFragment(fragments[n], offset, links));
    }
  }

  lemma {:induction false} FittingPagesAreVisible(layout: DocumentLayout, style: ReaderStyle, n: nat, links: bool)
    requires IsFitting(layout, style)
    requires n <= |Pages(layout, style)|
    ensures AllVisible(layout.viewport, PlacedByPages(layout, style, Pages(layout, style)[..n], links))
  {
    if n > 0 {
      var pages := Pages(layout, style);
      PrefixOf(pages, n);
      FittingPagesAreVisible(layout, style, n - 1, links);
      FittingBodyIsVisible(layout, style, n - 1, links);
      BothVisible(layout.viewport, PlacedByPages(layout, style, pages[..n - 1], links),
                  PlacedBodyOf(layout, style, n, pages[n - 1].range, links));
    }
  }

  /** So a layout whose fragments fit their lines is shown whole, every word, picture and link
      once and in order, when the first line of every page and the lines of its images end
      on the page: the break rules take care of all other lines. */
  lemma FittingDocumentIsShown(layout: DocumentLayout, style: ReaderStyle, links: bool)
    requires IsFitting(layout, style)
    ensures ItemsOf(ShownByPages(layout, style, Pages(layout, style), links))
         == ItemsBefore(layout, |layout.blocks|, 0, links)
  {
    var pages := Pages(layout, style);
    FittingPagesAreVisible(layout, style, |pages|, links);
    assert pages[..|pages|] == pages;
    NothingIsLostIff(layout, style, links);
  }

  // ---- lost text -------------------------------------------------------------------------------

  function WordLine(y: i32, text: string, style: TextStyle): LayoutLine {
    LayoutLine(Rect(0, y, 50, 20), [LayoutFragment(text, Rect(0, y, 10, 20), style, None, None)], None, None, false)
  }

  /** The fallback text of an image that could not be loaded, taller than the page. */
  function FallbackLayout(style: TextStyle): DocumentLayout {
    DocumentLayout(
      Viewport(50, 50),
      [LayoutBlock(Image, Rect(0, 0, 50, 80), [WordLine(0, "a", style), WordLine(60, "b", style)], None, None)])
  }

  lemma FallbackLayoutHasOnePage(style: ReaderStyle, text: TextStyle)
    requires style.pagePadding == Insets(0, 0, 0, 0)
    ensures var layout, pages := FallbackLayout(text), Pages(FallbackLayout(text), style);
      && WellFormed(layout) && |pages| == 1
      && pages[0].range == DocumentRange(DocumentCursor(0, 0), DocumentCursor(1, 0))
  {
    var layout := FallbackLayout(text);
    var first, second := DocumentCursor(0, 0), DocumentCursor(0, 1);
    forall c ensures IsLine(layout, c) <==> c == first || c == second {}
    FirstPageStartsFirst(layout, style, first);
    PageFacts(layout, style, 0, first);
    NextLineTurnsThePage(layout, style, 0, first, second);
    PagesTileTheDocument(layout, style);
    EndIsLineOrDocumentEnd(layout, style, Pages(layout, style), 0);
    if |Pages(layout, style)| > 1 {
      PageEnd(layout, style, 0);
    }
  }

  /** An image that opened its page keeps all its lines there, and those below the viewport
      are dropped: the second line of this text is on no page. */
  lemma FallbackTextIsLost(style: ReaderStyle, text: TextStyle)
    requires style.pagePadding == Insets(0, 0, 0, 0)
    ensures var layout, pages := FallbackLayout(text), Pages(FallbackLayout(text), style);
      && WellFormed(layout) && |pages| == 1
      && Content(pages[0], false) == [Placed(Words("a", text), Rect(0, 0, 10, 20))]
      && ItemsBefore(layout, 1, 0, false) == [Words("a", text), Words("b", text)]
  {
    var layout := FallbackLayout(text);
    FallbackLayoutHasOnePage(style, text);
    PageShowsWhatIsVisible(layout, style, 0, false);
    FallbackIsPlaced(text, DocumentRange(DocumentCursor(0, 0), DocumentCursor(1, 0)));
    FallbackIsVisible(text);
    FallbackItems(text);
    NothingAppended([Placed(Words("a", text), Rect(0, 0, 10, 20))]);
  }

  lemma OneFragment(line: LayoutLine, offset: Point)
    requires |line.fragments| == 1
    ensures PlacedFragments(line.fragments, offset, false) == PlacedFragment(line.fragments[0], offset, false)
  {
    assert line.fragments[..0] == [];
  }

  lemma FallbackIsPlaced(text: TextStyle, range: DocumentRange)
    requires range == DocumentRange(DocumentCursor(0, 0), DocumentCursor(1, 0))
    ensures PlacedBodyLines(FallbackLayout(text), range, 0, 1, 0, false)
         == [Placed(Words("a", text), Rect(0, 0, 10, 20))] + [Placed(Words("b", text), Rect(0, 60, 10, 20))]
  {
    var layout := FallbackLayout(text);
    OneFragment(WordLine(0, "a", text), Point(0, 0));
    OneFragment(WordLine(60, "b", text), Point(0, 0));
    assert PlacedBodyLines(layout, range, 0, 0, 1, false) == [Placed(Words("a", text), Rect(0, 0, 10, 20))];
  }

  lemma FallbackIsVisible(text: TextStyle)
    ensures Visible(Viewport(50, 50), [Placed(Words("a", text), Rect(0, 0, 10, 20))]
                                      + [Placed(Words("b", text), Rect(0, 60, 10, 20))])
         == [Placed(Words("a", text), Rect(0, 0, 10, 20))]
  {
    var a, b := Placed(Words("a", text), Rect(0, 0, 10, 20)), Placed(Words("b", text), Rect(0, 60, 10, 20));
    VisibleOne(Viewport(50, 50), a);
    VisibleOne(Viewport(50, 50), b);
    VisibleJoins(Viewport(50, 50), [a], [b]);
  }

  lemma FallbackItems(text: TextStyle)
    ensures ItemsBefore(FallbackLayout(text), 1, 0, false) == [Words("a", text), Words("b", text)]
  {
    var layout := FallbackLayout(text);
    OneFragment(WordLine(0, "a", text), Point(0, 0));
    OneFragment(WordLine(60, "b", text), Point(0, 0));
    OneItem(Placed(Words("a", text), Rect(0, 0, 10, 20)));
    OneItem(Placed(Words("b", text), Rect(0, 60, 10, 20)));
    assert ItemsBefore(layout, 0, 1, false) == [Words("a", text)];
    assert ItemsBefore(layout, 0, 2, false) == [Words("a", text), Words("b", text)];
  }

  lemma OneItem(p: Placed)
    ensures ItemsOf([p]) == [p.item]
  {
    assert [p][..0] == [];
  }
}
