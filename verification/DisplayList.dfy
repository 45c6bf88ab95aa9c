/** Display lists: what one laid-out line draws on a page.

    `LineDrawing` says which commands and hit regions a line contributes; the methods
    push them one by one, clipped to the page, as the renderer's list is built. */
module DisplayLists {
  import opened Options
  import opened PageGeometry
  import opened Navigation
  import opened Layouts

  datatype DisplayCommand =
    | TextRun(bounds: Rect, text: string, textStyle: TextStyle, background: Color)
    | Filled(bounds: Rect, fill: FillStyle)
    | TaskCheckbox(bounds: Rect, checked: bool)
    | Ruled(bounds: Rect, stroke: BorderStyle)
    | ImagePlaceholder(bounds: Rect, origin: Option<string>, alt: string)
    | ImageShown(bounds: Rect, image: RasterImage, source: string, alt: string)

  datatype HitRegion = HitRegion(bounds: Rect, target: NavigationTarget)

  datatype PageLayout = PageLayout(
    number: nat, viewport: Viewport, range: DocumentRange,
    commands: seq<DisplayCommand>, hitRegions: seq<HitRegion>)

  /** A command, if the page shows any of it, cut to the part that it shows. */
  function PushCommand(page: PageLayout, command: DisplayCommand): PageLayout {
    match Clip(page.viewport, command.bounds)
    case None => page
    case Some(bounds) => page.(commands := page.commands + [command.(bounds := bounds)])
  }

  function AddHitRegion(page: PageLayout, region: HitRegion): PageLayout {
    match Clip(page.viewport, region.bounds)
    case None => page
    case Some(bounds) => page.(hitRegions := page.hitRegions + [region.(bounds := bounds)])
  }

  // ---- what a line draws -----------------------------------------------------------

  /** What to put on a page, back to front. */
  datatype Drawing =
    | Nothing
    | Pushed(command: DisplayCommand)
    | Linked(region: HitRegion)
    | Join(below: Drawing, above: Drawing)

  /** The page with a drawing on top. */
  function Draw(page: PageLayout, d: Drawing): (drawn: PageLayout)
    ensures drawn.number == page.number && drawn.viewport == page.viewport && drawn.range == page.range
    decreases d
  {
    match d
    case Nothing => page
    case Pushed(command) => PushCommand(page, command)
    case Linked(region) => AddHitRegion(page, region)
    case Join(below, above) => Draw(Draw(page, below), above)
  }

  lemma DrawOver(page: PageLayout, a: Drawing, b: Drawing, c: Drawing)
    ensures Draw(Draw(page, Join(a, b)), c) == Draw(page, Join(a, Join(b, c)))
    ensures Draw(Draw(page, a), c) == Draw(page, Join(a, Join(Nothing, c)))
  {
    var below := Draw(page, a);
    assert Draw(below, Join(b, c)) == Draw(Draw(below, b), c);
    assert Draw(below, Join(Nothing, c)) == Draw(below, c);
  }

  /** Drawing does not look at the range of a page. */
  lemma {:induction false} DrawIgnoresRange(page: PageLayout, d: Drawing, range: DocumentRange)
    ensures Draw(page.(range := range), d) == Draw(page, d).(range := range)
    decreases d
  {
    match d
    case Join(below, above) =>
      DrawIgnoresRange(page, below, range);
      DrawIgnoresRange(Draw(page, below), above, range);
    case _ =>
  }

  predicate IsCodeSurface(kind: LayoutBlockKind, line: LayoutLine) {
    kind.Code? || line.code
  }

  function LineBackground(
    kind: LayoutBlockKind, line: LayoutLine, style: ReaderStyle, table: Option<TableLayout>, index: nat): Color
  {
    if IsCodeSurface(kind, line) then style.codeBackground.color
    else if kind.Table? && table.Some? && TableRowAt(table.value, index).Some?
            && TableRowAt(table.value, index).value.header then style.tableHeaderFill.color
    else WHITE
  }

  /** The rule at the left of a quoted line. */
  function QuoteRule(line: LayoutLine, style: ReaderStyle, offset: Point): DisplayCommand {
    var x := SatSub(line.bounds.x, AsI32(SatAddU(style.blockQuoteIndent, style.blockQuotePadding)));
    Ruled(
      Translate(Rect(x, line.bounds.y, MaxU(style.blockQuoteBorder.width, 1), line.bounds.height), offset),
      style.blockQuoteBorder)
  }

  function Checkbox(line: LayoutLine, task: TaskState, x: i32, offset: Point): DisplayCommand {
    var y := SatAdd(line.bounds.y, Half(AsI32(SatSubU(line.bounds.height, TASK_CHECKBOX_SIZE))));
    TaskCheckbox(Translate(Rect(x, y, TASK_CHECKBOX_SIZE, TASK_CHECKBOX_SIZE), offset), task.Checked?)
  }

  function Strikethrough(bounds: Rect): DisplayCommand {
    Ruled(
      bounds.(y := SatAdd(bounds.y, AsI32(bounds.height / 2)), height := 1),
      BorderStyle(BLACK, 1))
  }

  function TextDrawing(
    fragment: LayoutFragment, style: ReaderStyle, surface: bool, background: Color, bounds: Rect)
    : Drawing
  {
    match fragment.image
    case Some(image) => Pushed(ImageShown(bounds, image.image, image.source, image.alt))
    case None =>
      var inlineCode := fragment.style.code && !surface;
      var fill := if inlineCode then Pushed(Filled(bounds, style.inlineCodeBackground)) else Nothing;
      var text :=
        Join(fill, Pushed(TextRun(bounds, fragment.text, fragment.style,
                                  if inlineCode then style.inlineCodeBackground.color else background)));
      if fragment.style.strikethrough && bounds.width > 0
      then Join(text, Pushed(Strikethrough(bounds))) else text
  }

  function FragmentDrawing(
    fragment: LayoutFragment, style: ReaderStyle, surface: bool, background: Color, offset: Point)
    : Drawing
  {
    var bounds := Translate(fragment.bounds, offset);
    var text := TextDrawing(fragment, style, surface, background, bounds);
    if fragment.link.Some? then Join(text, Linked(HitRegion(bounds, fragment.link.value))) else text
  }

  function FragmentsDrawing(
    fragments: seq<LayoutFragment>, style: ReaderStyle, surface: bool, background: Color,
    offset: Point): Drawing
  {
    if fragments == [] then Nothing
    else
      var n := |fragments| - 1;
      Join(FragmentsDrawing(fragments[..n], style, surface, background, offset),
           FragmentDrawing(fragments[n], style, surface, background, offset))
  }

  /** What a line without fragments shows. */
  function FallbackCommand(kind: LayoutBlockKind, line: LayoutLine, style: ReaderStyle, offset: Point): DisplayCommand {
    var bounds := Translate(line.bounds, offset);
    if kind.Rule? then Ruled(bounds, style.thematicBreak)
    else if kind.Image? then ImagePlaceholder(bounds, None, "")
    else Ruled(bounds, BorderStyle(BLACK, 1))
  }

  // ---- table decoration ----------------------------------------------------------------

  function BorderWidth(style: ReaderStyle): u32 {
    MaxU(style.tableBorder.width, 1)
  }

  function ColumnAdvance(width: u32, style: ReaderStyle): u32 {
    SatAddU(SatAddU(width, SatMulU(style.tableCellPadding, 2)), BorderWidth(style))
  }

  function CellWidth(group: TableColumnGroup, column: nat, x: i32, style: ReaderStyle): u32
    requires column < |group.widths|
  {
    if column + 1 == |group.widths| then SatSubU(group.width, AsU32(SatSub(x, group.x)))
    else ColumnAdvance(group.widths[column], style)
  }

  /** The x coordinate of a cell: what the cells before it leave. */
  function CellX(group: TableColumnGroup, column: nat, style: ReaderStyle): i32
    requires column <= |group.widths|
  {
    if column == 0 then group.x
    else
      var x := CellX(group, column - 1, style);
      SatAdd(x, AsI32(CellWidth(group, column - 1, x, style)))
  }

  function HeaderCell(
    group: TableColumnGroup, column: nat, x: i32, line: LayoutLine, style: ReaderStyle, offset: Point): DisplayCommand
    requires column < |group.widths|
  {
    Filled(
      Translate(Rect(x, line.bounds.y, CellWidth(group, column, x, style), line.bounds.height), offset),
      style.tableHeaderFill)
  }

  function HeaderFills(
    group: TableColumnGroup, columns: nat, line: LayoutLine, style: ReaderStyle, offset: Point)
    : Drawing
    requires columns <= |group.widths|
  {
    if columns == 0 then Nothing
    else
      Join(HeaderFills(group, columns - 1, line, style, offset),
           Pushed(HeaderCell(group, columns - 1, CellX(group, columns - 1, style), line, style, offset)))
  }

  function BoundaryX(group: TableColumnGroup, column: nat, style: ReaderStyle): i32
    requires column <= |group.widths|
  {
    if column == 0 then group.x
    else SatAdd(BoundaryX(group, column - 1, style), AsI32(ColumnAdvance(group.widths[column - 1], style)))
  }

  function BoundaryRule(group: TableColumnGroup, x: i32, line: LayoutLine, style: ReaderStyle, offset: Point)
    : DisplayCommand
  {
    Ruled(
      Translate(Rect(x, line.bounds.y, MinU(BorderWidth(style), group.width), line.bounds.height), offset),
      style.tableBorder)
  }

  /** The vertical rules left of the first `columns` columns. */
  function BoundaryRules(
    group: TableColumnGroup, columns: nat, line: LayoutLine, style: ReaderStyle, offset: Point)
    : Drawing
    requires columns <= |group.widths|
  {
    if columns == 0 then Nothing
    else
      Join(BoundaryRules(group, columns - 1, line, style, offset),
           Pushed(BoundaryRule(group, BoundaryX(group, columns - 1, style), line, style, offset)))
  }

  /** The vertical rules left of every column and the one at the end. */
  function ColumnRules(
    group: TableColumnGroup, line: LayoutLine, style: ReaderStyle, offset: Point): Drawing
  {
    Join(BoundaryRules(group, |group.widths|, line, style, offset),
         Pushed(BoundaryRule(group, BoundaryX(group, |group.widths|, style), line, style, offset)))
  }

  /** The rule above a row: over the table, over a repeated header, and over a later
      group's header that starts a page. */
  predicate HasTopRule(row: TableRow, rowIndex: nat, line: nat, repeated: bool, startsPage: bool) {
    && line == row.first
    && (rowIndex == 0 || repeated || (startsPage && row.header && row.group > 0))
  }

  function TopRule(group: TableColumnGroup, line: LayoutLine, style: ReaderStyle, offset: Point): DisplayCommand {
    Ruled(
      Translate(Rect(group.x, line.bounds.y, group.width, MinU(BorderWidth(style), line.bounds.height)), offset),
      style.tableBorder)
  }

  function SeparatorStyle(table: TableLayout, row: TableRow, rowIndex: nat, style: ReaderStyle): BorderStyle {
    if && rowIndex + 1 < |table.rows|
       && table.rows[rowIndex + 1].group == row.group
       && !table.rows[rowIndex + 1].header
       && row.header
    then style.tableHeaderBorder
    else style.tableBorder
  }

  function BottomRule(group: TableColumnGroup, line: LayoutLine, stroke: BorderStyle, offset: Point): DisplayCommand {
    var height := MinU(MaxU(stroke.width, 1), line.bounds.height);
    Ruled(
      Translate(Rect(group.x, SatSub(LineBottom(line.bounds), AsI32(height)), group.width, height), offset),
      stroke)
  }

  function RowIndexOf(table: TableLayout, row: TableRow): nat {
    FirstRow(table.rows, (r: TableRow) => r == row)
  }

  function TableDrawing(
    line: LayoutLine, offset: Point, style: ReaderStyle, table: TableLayout, index: nat,
    repeated: bool, startsPage: bool): Drawing
  {
    match TableRowAt(table, index)
    case None => Nothing
    case Some(row) =>
      if row.group >= |table.groups| then Nothing
      else
        var group, rowIndex := table.groups[row.group], RowIndexOf(table, row);
        var cells := if row.header then HeaderFills(group, |group.widths|, line, style, offset) else Nothing;
        var grid := Join(cells, ColumnRules(group, line, style, offset));
        var topped :=
          if HasTopRule(row, rowIndex, index, repeated, startsPage)
          then Join(grid, Pushed(TopRule(group, line, style, offset))) else grid;
        if index + 1 == row.end
        then Join(topped, Pushed(BottomRule(group, line, SeparatorStyle(table, row, rowIndex, style), offset)))
        else topped
  }

  function SurfaceDrawing(
    line: LayoutLine, offset: Point, kind: LayoutBlockKind, style: ReaderStyle): Drawing
  {
    var rule := if kind.Quote? || kind.Alert? then Pushed(QuoteRule(line, style, offset)) else Nothing;
    if IsCodeSurface(kind, line)
    then Join(rule, Pushed(Filled(Translate(line.bounds, offset), style.codeBackground))) else rule
  }

  /** What is drawn around the fragments of a line. */
  function FrameDrawing(
    line: LayoutLine, offset: Point, kind: LayoutBlockKind, style: ReaderStyle,
    table: Option<TableLayout>, index: nat, repeated: bool, startsPage: bool): Drawing
  {
    var surface := SurfaceDrawing(line, offset, kind, style);
    var decorated :=
      if kind.Table? && table.Some?
      then Join(surface, TableDrawing(line, offset, style, table.value, index, repeated, startsPage))
      else surface;
    if line.task.Some? && line.taskCheckboxX.Some?
    then Join(decorated, Pushed(Checkbox(line, line.task.value, line.taskCheckboxX.value, offset)))
    else decorated
  }

  /** Everything one line draws, in order. */
  function LineDrawing(
    line: LayoutLine, offset: Point, kind: LayoutBlockKind, style: ReaderStyle,
    table: Option<TableLayout>, index: nat, repeated: bool, startsPage: bool): Drawing
  {
    var surface := IsCodeSurface(kind, line);
    var background := LineBackground(kind, line, style, table, index);
    var content :=
      Join(FrameDrawing(line, offset, kind, style, table, index, repeated, startsPage),
           FragmentsDrawing(line.fragments, style, surface, background, offset));
    if line.fragments == [] && !surface
    then Join(content, Pushed(FallbackCommand(kind, line, style, offset))) else content
  }

  // ---- the loops that push it --------------------------------------------------------

  method FillHeader(
    before: PageLayout, row: TableRow, group: TableColumnGroup, line: LayoutLine, offset: Point, style: ReaderStyle)
    returns (page: PageLayout)
    ensures page
         == Draw(before, if row.header
                         then HeaderFills(group, |group.widths|, line, style, offset) else Nothing)
  {
    page := before;
    ghost var drawn := Nothing;
    var x := group.x;
    for column := 0 to |group.widths|
      invariant x == CellX(group, column, style)
      invariant drawn == if row.header then HeaderFills(group, column, line, style, offset) else Nothing
      invariant page == Draw(before, drawn)
    {
      if row.header {
        var cell := HeaderCell(group, column, x, line, style, offset);
        page, drawn := PushCommand(page, cell), Join(drawn, Pushed(cell));
      }
      x := SatAdd(x, AsI32(CellWidth(group, column, x, style)));
    }
  }

  method RuleColumns(
    before: PageLayout, group: TableColumnGroup, line: LayoutLine, offset: Point, style: ReaderStyle)
    returns (page: PageLayout)
    ensures page == Draw(before, ColumnRules(group, line, style, offset))
  {
    page := before;
    var x := group.x;
    for column := 0 to |group.widths|
      invariant x == BoundaryX(group, column, style)
      invariant page == Draw(before, BoundaryRules(group, column, line, style, offset))
    {
      var rule := BoundaryRule(group, x, line, style, offset);
      page := PushCommand(page, rule);
      x := SatAdd(x, AsI32(ColumnAdvance(group.widths[column], style)));
    }
    var last := BoundaryRule(group, x, line, style, offset);
    page := PushCommand(page, last);
  }

  method AddTableDecoration(
    before: PageLayout, line: LayoutLine, offset: Point, style: ReaderStyle, table: TableLayout,
    index: nat, repeated: bool, startsPage: bool) returns (page: PageLayout)
    ensures page
         == Draw(before, TableDrawing(line, offset, style, table, index, repeated, startsPage))
  {
    page := before;
    var found := TableRowAt(table, index);
    if found.None? || found.value.group >= |table.groups| { return; }
    var row := found.value;
    var group := table.groups[row.group];
    var rowIndex := RowIndexOf(table, row);
    ghost var cells := if row.header then HeaderFills(group, |group.widths|, line, style, offset) else Nothing;
    ghost var rules := ColumnRules(group, line, style, offset);
    page := FillHeader(page, row, group, line, offset, style);
    page := RuleColumns(page, group, line, offset, style);
    ghost var drawn := Join(cells, rules);
    assert page == Draw(before, drawn);
    if HasTopRule(row, rowIndex, index, repeated, startsPage) {
      var top := TopRule(group, line, style, offset);
      page, drawn := PushCommand(page, top), Join(drawn, Pushed(top));
    }
    assert page == Draw(before, drawn);
    if index + 1 == row.end {
      var bottom := BottomRule(group, line, SeparatorStyle(table, row, rowIndex, style), offset);
      page, drawn := PushCommand(page, bottom), Join(drawn, Pushed(bottom));
    }
  }

  method AddText(
    before: PageLayout, fragment: LayoutFragment, style: ReaderStyle, surface: bool, background: Color,
    bounds: Rect) returns (page: PageLayout)
    ensures page == Draw(before, TextDrawing(fragment, style, surface, background, bounds))
  {
    if fragment.image.Some? {
      var image := fragment.image.value;
      var shown := ImageShown(bounds, image.image, image.source, image.alt);
      page := PushCommand(before, shown);
      return;
    }
    page := before;
    ghost var drawn := Nothing;
    var inlineCode := fragment.style.code && !surface;
    if inlineCode {
      var fill := Filled(bounds, style.inlineCodeBackground);
      page, drawn := PushCommand(page, fill), Pushed(fill);
    }
    var text := TextRun(bounds, fragment.text, fragment.style,
                        if inlineCode then style.inlineCodeBackground.color else background);
    page, drawn := PushCommand(page, text), Join(drawn, Pushed(text));
    assert page == Draw(before, drawn);
    if fragment.style.strikethrough && bounds.width > 0 {
      page := PushCommand(page, Strikethrough(bounds));
    }
  }

  method AddFragment(
    before: PageLayout, fragment: LayoutFragment, style: ReaderStyle, surface: bool, background: Color,
    offset: Point) returns (page: PageLayout)
    ensures page == Draw(before, FragmentDrawing(fragment, style, surface, background, offset))
  {
    var bounds := Translate(fragment.bounds, offset);
    page := AddText(before, fragment, style, surface, background, bounds);
    if fragment.link.Some? {
      var hit := HitRegion(bounds, fragment.link.value);
      page := AddHitRegion(page, hit);
    }
  }

  method AddFragments(
    before: PageLayout, fragments: seq<LayoutFragment>, style: ReaderStyle, surface: bool, background: Color,
    offset: Point) returns (page: PageLayout)
    ensures page == Draw(before, FragmentsDrawing(fragments, style, surface, background, offset))
  {
    page := before;
    for i := 0 to |fragments|
      invariant page == Draw(before, FragmentsDrawing(fragments[..i], style, surface, background, offset))
    {
      page := AddFragment(page, fragments[i], style, surface, background, offset);
      assert fragments[..i + 1][..i] == fragments[..i];
    }
    assert fragments[..|fragments|] == fragments;
  }

  method AddSurface(
    before: PageLayout, line: LayoutLine, offset: Point, kind: LayoutBlockKind, style: ReaderStyle)
    returns (page: PageLayout)
    ensures page == Draw(before, SurfaceDrawing(line, offset, kind, style))
  {
    page := before;
    ghost var drawn := Nothing;
    if kind.Quote? || kind.Alert? {
      var rule := QuoteRule(line, style, offset);
      page, drawn := PushCommand(page, rule), Pushed(rule);
    }
    if IsCodeSurface(kind, line) {
      var fill := Filled(Translate(line.bounds, offset), style.codeBackground);
      page := PushCommand(page, fill);
    }
  }

  method AddFrame(
    before: PageLayout, line: LayoutLine, offset: Point, kind: LayoutBlockKind, style: ReaderStyle,
    table: Option<TableLayout>, index: nat, repeated: bool, startsPage: bool) returns (page: PageLayout)
    ensures page
         == Draw(before, FrameDrawing(line, offset, kind, style, table, index, repeated, startsPage))
  {
    ghost var drawn := SurfaceDrawing(line, offset, kind, style);
    page := AddSurface(before, line, offset, kind, style);
    if kind.Table? && table.Some? {
      ghost var decoration := TableDrawing(line, offset, style, table.value, index, repeated, startsPage);
      page := AddTableDecoration(page, line, offset, style, table.value, index, repeated, startsPage);
      drawn := Join(drawn, decoration);
    }
    assert page == Draw(before, drawn);
    if line.task.Some? && line.taskCheckboxX.Some? {
      var checkbox := Checkbox(line, line.task.value, line.taskCheckboxX.value, offset);
      page := PushCommand(page, checkbox);
    }
  }

  /** Push everything a line draws. */
  method AddLine(
    before: PageLayout, line: LayoutLine, offset: Point, kind: LayoutBlockKind, style: ReaderStyle,
    table: Option<TableLayout>, index: nat, repeated: bool, startsPage: bool) returns (page: PageLayout)
    ensures page
         == Draw(before, LineDrawing(line, offset, kind, style, table, index, repeated, startsPage))
  {
    var surface := IsCodeSurface(kind, line);
    var background := LineBackground(kind, line, style, table, index);
    ghost var frame := FrameDrawing(line, offset, kind, style, table, index, repeated, startsPage);
    ghost var body := FragmentsDrawing(line.fragments, style, surface, background, offset);
    page := AddFrame(before, line, offset, kind, style, table, index, repeated, startsPage);
    page := AddFragments(page, line.fragments, style, surface, background, offset);
    if line.fragments == [] && !surface {
      page := PushCommand(page, FallbackCommand(kind, line, style, offset));
    }
  }
}
