/** The reader's style and the positioned lines that pagination receives. */
module Layouts {
  import opened Options
  import opened PageGeometry
  import opened Navigation

  datatype Color = Color(red: bv8, green: bv8, blue: bv8, alpha: bv8)

  const BLACK := Color(0, 0, 0, 255)
  const WHITE := Color(255, 255, 255, 255)

  datatype FillStyle = FillStyle(color: Color)

  datatype BorderStyle = BorderStyle(color: Color, width: u32)

  datatype Insets = Insets(top: u32, right: u32, bottom: u32, left: u32)

  datatype TextStyle = TextStyle(
    fontSize: u32, lineHeight: u32, bold: bool, italic: bool, code: bool,
    strikethrough: bool, underline: bool, ink: bv8)

  /** The part of the style that pagination reads. */
  datatype ReaderStyle = ReaderStyle(
    pagePadding: Insets,
    blockQuoteIndent: u32, blockQuoteBorder: BorderStyle, blockQuotePadding: u32,
    inlineCodeBackground: FillStyle, codeBackground: FillStyle, thematicBreak: BorderStyle,
    tableCellPadding: u32, tableBorder: BorderStyle, tableHeaderBorder: BorderStyle,
    tableHeaderFill: FillStyle)

  datatype RasterImage = RasterImage(width: u32, height: u32, pixels: seq<bv8>)

  datatype LayoutImage = LayoutImage(image: RasterImage, source: string, alt: string)

  datatype LayoutFragment = LayoutFragment(
    text: string, bounds: Rect, style: TextStyle,
    image: Option<LayoutImage>, link: Option<NavigationTarget>)

  datatype TaskState = NoTask | Unchecked | Checked

  datatype LayoutLine = LayoutLine(
    bounds: Rect, fragments: seq<LayoutFragment>,
    task: Option<TaskState>, taskCheckboxX: Option<i32>, code: bool)

  datatype LayoutBlockKind =
    | Heading | Paragraph | List | Quote | Alert | Footnote | Table | Code | Image | Rule

  datatype TableColumnGroup = TableColumnGroup(columns: seq<nat>, x: i32, width: u32, widths: seq<u32>)

  /** A displayed row: lines [first, end) of its block. */
  datatype TableRow = TableRow(first: nat, end: nat, group: nat, header: bool)

  datatype TableLayout = TableLayout(groups: seq<TableColumnGroup>, rows: seq<TableRow>)

  datatype LayoutBlock = LayoutBlock(
    kind: LayoutBlockKind, bounds: Rect, lines: seq<LayoutLine>, anchor: Option<string>,
    table: Option<TableLayout>)

  datatype DocumentLayout = DocumentLayout(viewport: Viewport, blocks: seq<LayoutBlock>)

  /** The position of the first element that satisfies a test, or the length. */
  function FirstRow(rows: seq<TableRow>, test: TableRow -> bool): (i: nat)
    ensures i <= |rows|
    ensures i < |rows| ==> test(rows[i])
    ensures forall j | 0 <= j < i :: !test(rows[j])
  {
    if rows == [] || test(rows[0]) then 0 else 1 + FirstRow(rows[1..], test)
  }

  function FindRow(rows: seq<TableRow>, test: TableRow -> bool): (row: Option<TableRow>)
    ensures row.Some? ==> row.value in rows && test(row.value)
    ensures row.None? ==> forall r | r in rows :: !test(r)
  {
    var i := FirstRow(rows, test);
    if i < |rows| then Some(rows[i]) else None
  }

  /** The first row that holds a line. */
  function TableRowAt(table: TableLayout, line: nat): Option<TableRow> {
    FindRow(table.rows, (row: TableRow) => row.first <= line < row.end)
  }

  /** The first header row of the group that a line belongs to. */
  function TableHeaderForLine(table: TableLayout, line: nat): (header: Option<TableRow>)
    ensures header.Some? ==> header.value in table.rows && header.value.header
  {
    match TableRowAt(table, line)
    case None => None
    case Some(row) => FindRow(table.rows, (r: TableRow) => r.group == row.group && r.header)
  }

  predicate IsLine(layout: DocumentLayout, cursor: DocumentCursor) {
    cursor.block < |layout.blocks| && cursor.line < |layout.blocks[cursor.block].lines|
  }

  function LineAt(layout: DocumentLayout, cursor: DocumentCursor): LayoutLine
    requires IsLine(layout, cursor)
  {
    layout.blocks[cursor.block].lines[cursor.line]
  }

  /** Every table row covers lines that its block has. */
  predicate RowsInBounds(block: LayoutBlock) {
    block.table.Some? ==>
      forall r | r in block.table.value.rows :: r.first < r.end <= |block.lines|
  }

  predicate WellFormed(layout: DocumentLayout) {
    forall b | 0 <= b < |layout.blocks| :: RowsInBounds(layout.blocks[b])
  }
}
