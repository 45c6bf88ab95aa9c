/** Content anchors in tables. A table that is too wide is laid out as several groups of
    columns, one below the other, each with the header and all rows again. An anchor is
    restored on the last line that starts at or before it, so in the last group that has
    such a line. */
module TableAnchors {
  import opened Options
  import opened Navigation
  import opened Layouts
  import opened ContentAnchors

  // ---- what layout makes of a table --------------------------------------------------------

  /** Rows lie one below the other, from the first line to the last, group after group, each
      group with at most one header, at its top. */
  ghost predicate RowsAreStacked(table: TableLayout, lines: seq<LayoutLine>) {
    var rows := table.rows;
    && rows != [] && rows[0].first == 0 && rows[|rows| - 1].end == |lines|
    && (forall k | 0 <= k < |rows| :: rows[k].first < rows[k].end && rows[k].group < |table.groups|)
    && (forall k, m | 0 <= k < m < |rows| ::
          && rows[k].end <= rows[m].first && rows[k].group <= rows[m].group
          && (rows[k].group == rows[m].group ==> !rows[m].header)
          && (m == k + 1 ==> rows[k].end == rows[m].first))
  }

  /** Every group shows the same source rows, all of which have its columns. */
  ghost predicate GroupsAreAlike(cells: seq<seq<nat>>, table: TableLayout) {
    && (forall k, g | 0 <= k < |table.rows| && 0 <= g < |table.groups| ::
          ShowsRow(table, g, SourceRow(table.rows, k)))
    && (forall k | 0 <= k < |table.rows| && table.rows[k].group < |table.groups| ::
          var columns := table.groups[table.rows[k].group].columns;
          && columns != [] && SourceRow(table.rows, k) < |cells|
          && forall c | c in columns :: c < |cells[SourceRow(table.rows, k)]|)
  }

  /** Displayed row `m` shows a source row in a group. */
  ghost predicate IsRowIn(table: TableLayout, m: nat, group: nat, row: nat) {
    m < |table.rows| && table.rows[m].group == group && SourceRow(table.rows, m) == row
  }

  ghost predicate ShowsRow(table: TableLayout, group: nat, row: nat) {
    exists m :: IsRowIn(table, m, group, row)
  }

  /** The text, the cells and the layout of one table belong together. */
  ghost predicate IsGrid(source: string, cells: seq<seq<nat>>, table: TableLayout, lines: seq<LayoutLine>) {
    && RowsAreStacked(table, lines) && GroupsAreAlike(cells, table)
    && RowsBefore(cells, |cells|) == |source|
  }

  lemma {:induction false} DataRowsGrow(rows: seq<TableRow>, k: nat, m: nat, group: nat)
    requires k <= m <= |rows|
    ensures DataRowsBefore(rows, k, group) <= DataRowsBefore(rows, m, group)
    decreases m
  {
    if k < m {
      DataRowsGrow(rows, k, m - 1, group);
    }
  }

  /** In a group, source rows go down with the displayed rows. */
  lemma SourceRowsGoDown(table: TableLayout, lines: seq<LayoutLine>, k: nat, m: nat)
    requires RowsAreStacked(table, lines) && k < m < |table.rows|
    requires table.rows[k].group == table.rows[m].group
    ensures SourceRow(table.rows, k) < SourceRow(table.rows, m)
  {
    if !table.rows[k].header {
      DataRowsGrow(table.rows, k + 1, m, table.rows[k].group);
    }
  }

  // ---- a table as numbers ---------------------------------------------------------------------

  /** The displayed rows with the source row that each shows, where the source rows lie in the
      text, and where the lines start. */
  datatype Grid = Grid(rows: seq<TableRow>, groups: nat, shown: seq<nat>, bounds: seq<nat>, starts: seq<nat>)

  /** Displayed row `k` has a line. */
  predicate Has(g: Grid, k: nat, line: nat) {
    k < |g.rows| && g.rows[k].first <= line < g.rows[k].end
  }

  ghost predicate ShowsIn(g: Grid, m: nat, group: nat, row: nat)
    requires |g.shown| == |g.rows|
  {
    m < |g.rows| && g.rows[m].group == group && g.shown[m] == row
  }

  ghost predicate IsShownIn(g: Grid, group: nat, row: nat)
    requires |g.shown| == |g.rows|
  {
    exists m: nat :: ShowsIn(g, m, group, row)
  }

  ghost predicate IsStacked(g: Grid) {
    && g.rows != [] && g.rows[0].first == 0 && g.rows[|g.rows| - 1].end == |g.starts|
    && (forall k | 0 <= k < |g.rows| :: g.rows[k].first < g.rows[k].end && g.rows[k].group < g.groups)
    && (forall k, m | 0 <= k < m < |g.rows| :: g.rows[k].end <= g.rows[m].first && g.rows[k].group <= g.rows[m].group)
    && forall k, m | 0 <= k < |g.rows| && m == k + 1 && m < |g.rows| :: g.rows[k].end == g.rows[m].first
  }

  /** Every group shows the same source rows from top to bottom, and lines start inside the
      text of their source row. */
  ghost predicate IsTable(g: Grid) {
    && IsStacked(g) && |g.shown| == |g.rows|
    && (forall i, j | 0 <= i <= j < |g.bounds| :: g.bounds[i] <= g.bounds[j])
    && (forall k | 0 <= k < |g.rows| :: g.shown[k] + 1 < |g.bounds|)
    && (forall k, m | 0 <= k < m < |g.rows| :: g.rows[k].group == g.rows[m].group ==> g.shown[k] < g.shown[m])
    && (forall k, group: nat | 0 <= k < |g.rows| && group < g.groups :: IsShownIn(g, group, g.shown[k]))
    && forall k: nat, line: nat | Has(g, k, line) ::
         line < |g.starts| && g.bounds[g.shown[k]] <= g.starts[line] <= g.bounds[g.shown[k] + 1]
  }

  /** What stacking says of any two rows. */
  lemma InOrder(g: Grid, k: nat, m: nat)
    requires IsStacked(g)
    ensures k < m < |g.rows| ==> g.rows[k].end <= g.rows[m].first && g.rows[k].group <= g.rows[m].group
  {
  }

  lemma {:induction false} RowOf(g: Grid, line: nat, n: nat) returns (k: nat)
    requires IsStacked(g) && n < |g.rows| && line < g.rows[n].end
    ensures k <= n && Has(g, k, line)
  {
    k := n;
    if line < g.rows[n].first {
      assert g.rows[n - 1].end == g.rows[n].first;
      k := RowOf(g, line, n - 1);
    }
  }

  /** The offset lies in the text of a source row, which is not empty. */
  predicate IsInRow(g: Grid, row: nat, offset: nat) {
    row + 1 < |g.bounds| && g.bounds[row] <= offset < g.bounds[row + 1]
  }

  /** Some line of a displayed row starts at or before an offset. */
  ghost predicate HasStartBy(g: Grid, k: nat, offset: nat) {
    exists line: nat :: Has(g, k, line) && line < |g.starts| && g.starts[line] <= offset
  }

  predicate OpensItsGroup(g: Grid, k: nat)
    requires k < |g.rows|
  {
    k == 0 || g.rows[k - 1].group != g.rows[k].group
  }

  /** Displayed row `k` shows a source row in the last group. */
  ghost predicate IsLast(g: Grid, k: nat, row: nat)
    requires |g.shown| == |g.rows|
  {
    g.groups > 0 && ShowsIn(g, k, g.groups - 1, row)
  }

  /** The line that an offset restores. */
  function Found(g: Grid, offset: nat): nat {
    LastStartingBy(g.starts, offset, |g.starts|)
  }

  lemma NothingByBelow(g: Grid, row: nat, k: nat, offset: nat, f: nat, line: nat)
    requires IsTable(g) && IsInRow(g, row, offset) && IsLast(g, k, row) && k < f && Has(g, f, line)
    ensures line < |g.starts| && g.starts[line] > offset
  {
    assert g.rows[k].group <= g.rows[f].group;
    assert g.bounds[row + 1] <= g.bounds[g.shown[f]];
  }

  lemma FoundInLastGroup(g: Grid, row: nat, k: nat, offset: nat, f: nat)
    requires IsTable(g) && IsInRow(g, row, offset) && IsLast(g, k, row) && HasStartBy(g, k, offset)
    requires Has(g, f, Found(g, offset))
    ensures f == k && g.starts[Found(g, offset)] <= offset
  {
    var line: nat :| Has(g, k, line) && line < |g.starts| && g.starts[line] <= offset;
    assert line <= Found(g, offset);
    InOrder(g, f, k);
    if f > k {
      NothingByBelow(g, row, k, offset, f, Found(g, offset));
    }
  }

  /** The first row of every group is the first row of the table. */
  lemma SameFirstRow(g: Grid, k: nat, f: nat)
    requires IsTable(g) && k < |g.rows| && f < |g.rows| && OpensItsGroup(g, k)
    ensures g.shown[k] <= g.shown[f]
  {
    assert IsShownIn(g, g.rows[k].group, g.shown[f]);
    var m: nat :| ShowsIn(g, m, g.rows[k].group, g.shown[f]);
    if k > 0 {
      InOrder(g, m, k - 1);
      InOrder(g, k - 1, k);
    }
  }

  lemma FoundInSomeGroup(g: Grid, row: nat, k: nat, offset: nat, f: nat)
    requires IsTable(g) && IsInRow(g, row, offset) && IsLast(g, k, row) && OpensItsGroup(g, k)
    requires Has(g, f, Found(g, offset))
    ensures g.shown[f] == row
  {
    SameFirstRow(g, k, f);
    if g.shown[f] > row {
      assert g.bounds[row + 1] <= g.bounds[g.shown[f]];
      assert Found(g, offset) == 0;
      SameFirstRow(g, 0, k);
      TopLineIsInTopRow(g, f);
    }
  }

  lemma TopLineIsInTopRow(g: Grid, f: nat)
    requires IsStacked(g) && Has(g, f, 0)
    ensures f == 0
  {
    InOrder(g, 0, f);
  }

  lemma FoundOneRowAbove(g: Grid, row: nat, k: nat, offset: nat, f: nat)
    requires IsTable(g) && IsInRow(g, row, offset) && IsLast(g, k, row)
    requires !HasStartBy(g, k, offset) && !OpensItsGroup(g, k)
    requires Has(g, f, Found(g, offset))
    ensures Found(g, offset) == g.rows[k].first - 1 && f == k - 1 && g.shown[f] < row
  {
    var line := g.rows[k].first - 1;
    var found: nat := Found(g, offset);
    assert g.rows[k - 1].end == g.rows[k].first && Has(g, k - 1, line);
    assert g.bounds[g.shown[k - 1] + 1] <= g.bounds[row];
    assert line <= found && g.starts[found] <= offset;
    InOrder(g, f, k - 1);
    if f > k {
      NothingByBelow(g, row, k, offset, f, found);
    }
  }

  /** Exactly when an offset in the text of a source row comes back on that row: the row has a
      line that starts at or before it in the last group, or it is the first row of the
      table. Otherwise it comes back on the last line of the row above. */
  lemma FoundInRowIff(g: Grid, row: nat, k: nat, offset: nat) returns (f: nat)
    requires IsTable(g) && IsInRow(g, row, offset) && IsLast(g, k, row)
    ensures Has(g, f, Found(g, offset))
    ensures g.shown[f] == row <==> HasStartBy(g, k, offset) || OpensItsGroup(g, k)
    ensures HasStartBy(g, k, offset) ==> f == k && g.starts[Found(g, offset)] <= offset
    ensures g.shown[f] != row ==> f == k - 1 && Found(g, offset) == g.rows[f].end - 1
  {
    assert |g.starts| > 0;
    f := RowOf(g, Found(g, offset), |g.rows| - 1);
    if HasStartBy(g, k, offset) {
      FoundInLastGroup(g, row, k, offset, f);
    } else if OpensItsGroup(g, k) {
      FoundInSomeGroup(g, row, k, offset, f);
    } else {
      FoundOneRowAbove(g, row, k, offset, f);
      assert g.rows[k - 1].end == g.rows[k].first;
    }
  }

  /** Some line of the row starts between a bound and an offset, and all later lines of the
      row after the offset. */
  ghost predicate EndsBetween(g: Grid, k: nat, bound: nat, offset: nat) {
    exists line: nat ::
      && Has(g, k, line) && line < |g.starts| && bound <= g.starts[line] <= offset
      && forall i | line < i < |g.starts| && Has(g, k, i) :: g.starts[i] > offset
  }

  /** Exactly when an offset that comes back on its row in the last group comes back at or
      after a bound, such as the start of its cell, or the offset itself. */
  lemma FoundBetweenIff(g: Grid, row: nat, k: nat, offset: nat, bound: nat)
    requires IsTable(g) && IsInRow(g, row, offset) && IsLast(g, k, row) && HasStartBy(g, k, offset)
    requires bound <= offset
    ensures Has(g, k, Found(g, offset)) && Found(g, offset) < |g.starts|
    ensures bound <= g.starts[Found(g, offset)] <==> EndsBetween(g, k, bound, offset)
  {
    var f := FoundInRowIff(g, row, k, offset);
    var found := Found(g, offset);
    if EndsBetween(g, k, bound, offset) {
      var line: nat :| && Has(g, k, line) && line < |g.starts| && bound <= g.starts[line] <= offset
                  && forall i | line < i < |g.starts| && Has(g, k, i) :: g.starts[i] > offset;
      assert line <= found;
    }
  }

  // ---- the table of a document ------------------------------------------------------------------

  function GridOf(source: string, cells: seq<seq<nat>>, table: TableLayout, lines: seq<LayoutLine>): (g: Grid)
    ensures |g.shown| == |g.rows| && |g.starts| == |lines| && |g.bounds| == |cells| + 1
  {
    Grid(
      table.rows, |table.groups|,
      seq(|table.rows|, k requires 0 <= k < |table.rows| => SourceRow(table.rows, k)),
      seq(|cells| + 1, row requires 0 <= row <= |cells| => RowsBefore(cells, row)),
      seq(|lines|, i requires 0 <= i < |lines| => TableStart(source, cells, table, lines, |table.rows|, i)))
  }

  lemma RowHoldsItsLines(table: TableLayout, lines: seq<LayoutLine>, k: nat, line: nat)
    requires RowsAreStacked(table, lines) && k < |table.rows| && table.rows[k].first <= line < table.rows[k].end
    ensures line < |lines| && IsRowOf(table, lines, k, line)
  {
    var last := |table.rows| - 1;
    assert k < last ==> table.rows[k].end <= table.rows[last].first;
    forall m | k < m < |table.rows| ensures !HoldsLine(table, lines, m, line) {
      assert table.rows[k].end <= table.rows[m].first;
    }
  }

  /** The lines of a row start inside the part of the text that its source row covers. */
  lemma LineStartsInSourceRow(
    source: string, cells: seq<seq<nat>>, table: TableLayout, lines: seq<LayoutLine>, k: nat, line: nat)
    requires IsGrid(source, cells, table, lines) && k < |table.rows|
    requires table.rows[k].first <= line < table.rows[k].end
    ensures line < |lines| && SourceRow(table.rows, k) < |cells|
    ensures RowsBefore(cells, SourceRow(table.rows, k))
         <= TableStart(source, cells, table, lines, |table.rows|, line)
         <= RowsBefore(cells, SourceRow(table.rows, k) + 1)
  {
    RowHoldsItsLines(table, lines, k, line);
    TableLineStartsInItsRow(source, cells, table, lines, k, line);
  }

  lemma GroupsShowAlike(cells: seq<seq<nat>>, table: TableLayout, g: Grid, k: nat, group: nat)
    requires GroupsAreAlike(cells, table) && k < |table.rows| && group < |table.groups|
    requires g.rows == table.rows && |g.shown| == |g.rows|
    requires forall m | 0 <= m < |g.rows| :: g.shown[m] == SourceRow(table.rows, m)
    ensures IsShownIn(g, group, g.shown[k])
  {
    assert ShowsRow(table, group, SourceRow(table.rows, k));
    var m :| IsRowIn(table, m, group, SourceRow(table.rows, k));
    assert ShowsIn(g, m, group, g.shown[k]);
  }

  lemma GridIsStacked(source: string, cells: seq<seq<nat>>, table: TableLayout, lines: seq<LayoutLine>)
    requires RowsAreStacked(table, lines)
    ensures IsStacked(GridOf(source, cells, table, lines))
  {
  }

  lemma GridRowsGoDown(source: string, cells: seq<seq<nat>>, table: TableLayout, lines: seq<LayoutLine>)
    requires RowsAreStacked(table, lines)
    ensures var g := GridOf(source, cells, table, lines);
      forall k, m | 0 <= k < m < |g.rows| :: g.rows[k].group == g.rows[m].group ==> g.shown[k] < g.shown[m]
  {
    forall k, m | 0 <= k < m < |table.rows| && table.rows[k].group == table.rows[m].group
      ensures SourceRow(table.rows, k) < SourceRow(table.rows, m)
    {
      SourceRowsGoDown(table, lines, k, m);
    }
  }

  lemma GridRowIsBounded(source: string, cells: seq<seq<nat>>, table: TableLayout, lines: seq<LayoutLine>, k: nat)
    requires IsGrid(source, cells, table, lines) && k < |table.rows|
    ensures var g := GridOf(source, cells, table, lines);
      g.shown[k] + 1 < |g.bounds| && g.shown[k] == SourceRow(table.rows, k)
  {
  }

  lemma GridLineStartsInside(
    source: string, cells: seq<seq<nat>>, table: TableLayout, lines: seq<LayoutLine>, k: nat, line: nat)
    requires k < |table.rows| && line < |lines| && SourceRow(table.rows, k) < |cells|
    requires RowsBefore(cells, SourceRow(table.rows, k))
          <= TableStart(source, cells, table, lines, |table.rows|, line)
          <= RowsBefore(cells, SourceRow(table.rows, k) + 1)
    ensures var g := GridOf(source, cells, table, lines);
      && g.shown[k] + 1 < |g.bounds| && line < |g.starts|
      && g.bounds[g.shown[k]] <= g.starts[line] <= g.bounds[g.shown[k] + 1]
  {
  }

  /** What layout makes of a table is such a table of numbers. */
  lemma GridIsTable(source: string, cells: seq<seq<nat>>, table: TableLayout, lines: seq<LayoutLine>)
    requires IsGrid(source, cells, table, lines)
    ensures IsTable(GridOf(source, cells, table, lines))
  {
    var g := GridOf(source, cells, table, lines);
    GridIsStacked(source, cells, table, lines);
    forall i, j | 0 <= i <= j < |g.bounds| ensures g.bounds[i] <= g.bounds[j] {
      RowsBeforeGrows(cells, i, j);
    }
    GridRowsGoDown(source, cells, table, lines);
    forall k | 0 <= k < |g.rows| ensures g.shown[k] + 1 < |g.bounds| {
      GridRowIsBounded(source, cells, table, lines, k);
    }
    forall k: nat, line: nat | Has(g, k, line)
      ensures line < |g.starts| && g.bounds[g.shown[k]] <= g.starts[line] <= g.bounds[g.shown[k] + 1]
    {
      LineStartsInSourceRow(source, cells, table, lines, k, line);
      GridLineStartsInside(source, cells, table, lines, k, line);
    }
    forall k, group: nat | 0 <= k < |g.rows| && group < g.groups ensures IsShownIn(g, group, g.shown[k]) {
      GroupsShowAlike(cells, table, g, k, group);
    }
  }

  /** A table of a document, with its layout. */
  ghost predicate IsTableAt(document: Document, layout: DocumentLayout, b: nat) {
    && b < |document.blocks| && b < |layout.blocks|
    && IsTableBlock(document.blocks[b], layout.blocks[b])
    && IsGrid(document.blocks[b].text, document.blocks[b].cells.value, layout.blocks[b].table.value,
              layout.blocks[b].lines)
  }

  function GridAt(document: Document, layout: DocumentLayout, b: nat): (g: Grid)
    requires b < |document.blocks| && b < |layout.blocks| && IsTableBlock(document.blocks[b], layout.blocks[b])
    ensures |g.shown| == |g.rows| && |g.starts| == |layout.blocks[b].lines|
  {
    GridOf(document.blocks[b].text, document.blocks[b].cells.value, layout.blocks[b].table.value,
           layout.blocks[b].lines)
  }

  lemma GridAtIsTable(document: Document, layout: DocumentLayout, b: nat)
    requires IsTableAt(document, layout, b)
    ensures IsTable(GridAt(document, layout, b))
  {
    var block, laidOut := document.blocks[b], layout.blocks[b];
    GridIsTable(block.text, block.cells.value, laidOut.table.value, laidOut.lines);
  }

  lemma RowsLieInTheText(document: Document, layout: DocumentLayout, b: nat, row: nat, offset: nat)
    requires IsTableAt(document, layout, b) && IsInRow(GridAt(document, layout, b), row, offset)
    ensures offset < |document.blocks[b].text|
  {
    var cells := document.blocks[b].cells.value;
    RowsBeforeGrows(cells, row + 1, |cells|);
  }

  /** The starts of the grid are those that anchors are taken from and restored to. */
  lemma AnchorsFollowTheGrid(document: Document, layout: DocumentLayout, b: nat, anchor: ContentAnchor)
    requires IsTableAt(document, layout, b) && anchor.block == b && anchor.offset <= |document.blocks[b].text|
    ensures var g := GridAt(document, layout, b);
      && g.starts == StartsOf(document.blocks[b], layout.blocks[b])
      && CursorOf(document, layout, anchor) == Some(DocumentCursor(b, Found(g, anchor.offset)))
      && forall line | 0 <= line < |g.starts| ::
           AnchorAt(document, layout, DocumentCursor(b, line)) == ContentAnchor(b, g.starts[line])
  {
    assert GridAt(document, layout, b).starts == StartsOf(document.blocks[b], layout.blocks[b]);
    CursorOfAnchor(document, layout, anchor);
  }

  /** Exactly when an anchor in the text of a source row comes back on that row, in any layout
      of the table: in the last group of columns, whose row `k` shows it, some line of that
      row starts at or before the anchor, or the row is the first of the table. If not, the
      anchor comes back on the last line of the row above. */
  lemma TableAnchorKeepsItsRowIff(
    document: Document, layout: DocumentLayout, anchor: ContentAnchor, row: nat, k: nat)
    returns (f: nat)
    requires IsTableAt(document, layout, anchor.block)
    requires var g := GridAt(document, layout, anchor.block);
      IsInRow(g, row, anchor.offset) && IsLast(g, k, row)
    ensures var g := GridAt(document, layout, anchor.block);
      var restored := CursorOf(document, layout, anchor);
      && restored.Some? && restored.value.block == anchor.block && Has(g, f, restored.value.line)
      && (g.shown[f] == row <==> HasStartBy(g, k, anchor.offset) || OpensItsGroup(g, k))
      && (HasStartBy(g, k, anchor.offset) ==> f == k)
      && (g.shown[f] != row ==> f == k - 1 && restored.value.line == g.rows[f].end - 1)
  {
    GridAtIsTable(document, layout, anchor.block);
    RowsLieInTheText(document, layout, anchor.block, row, anchor.offset);
    AnchorsFollowTheGrid(document, layout, anchor.block, anchor);
    f := FoundInRowIff(GridAt(document, layout, anchor.block), row, k, anchor.offset);
  }

  /** An anchor that comes back in the last group comes back as itself exactly when some line
      of its row there starts at it and all later lines of the row start after it; and it
      comes back in its cell exactly when some line of the row starts in the cell by the
      anchor, and all later lines after the anchor. */
  lemma TableAnchorIsKeptIff(
    document: Document, layout: DocumentLayout, anchor: ContentAnchor, row: nat, k: nat, cell: nat)
    requires IsTableAt(document, layout, anchor.block) && cell <= anchor.offset
    requires var g := GridAt(document, layout, anchor.block);
      && IsInRow(g, row, anchor.offset) && IsLast(g, k, row)
      && HasStartBy(g, k, anchor.offset)
    ensures var g := GridAt(document, layout, anchor.block);
      var restored := CursorOf(document, layout, anchor);
      && restored.Some?
      && (AnchorAt(document, layout, restored.value) == anchor <==> EndsBetween(g, k, anchor.offset, anchor.offset))
      && (AnchorAt(document, layout, restored.value).offset >= cell <==> EndsBetween(g, k, cell, anchor.offset))
  {
    var g := GridAt(document, layout, anchor.block);
    GridAtIsTable(document, layout, anchor.block);
    RowsLieInTheText(document, layout, anchor.block, row, anchor.offset);
    AnchorsFollowTheGrid(document, layout, anchor.block, anchor);
    FoundBetweenIff(g, row, k, anchor.offset, anchor.offset);
    FoundBetweenIff(g, row, k, anchor.offset, cell);
    var f := FoundInRowIff(g, row, k, anchor.offset);
  }

  // ---- which anchors lie in their row, and which rows are found -----------------------------------

  /** What is matched lies strictly inside a cell; a line without a match starts with the first
      cell of its group. */
  lemma {:induction false} MatchedStartsInside(
    source: string, cells: seq<CellRange>, offsets: seq<nat>, fragments: seq<LayoutFragment>)
    requires |offsets| == |cells| > 0
    ensures var scan := ReadTableLine(source, cells, offsets, fragments);
      if scan.matched then exists c :: 0 <= c < |cells| && cells[c].start <= scan.start < cells[c].end
      else scan.start == cells[0].start
  {
    if fragments != [] {
      var n := |fragments| - 1;
      MatchedStartsInside(source, cells, offsets, fragments[..n]);
      var scan := ReadTableLine(source, cells, offsets, fragments[..n]);
      var found := FindInCells(source, cells, scan.offsets, scan.cell, ShownText(fragments[n]));
      if found.Some? && ShownText(fragments[n]) != "" {
        assert ExactIn(source, cells[found.value.0], found.value.1, ShownText(fragments[n]));
      }
    }
  }

  /** How a line is read as part of its row. */
  function ScanOf(source: string, cells: seq<seq<nat>>, table: TableLayout, lines: seq<LayoutLine>, k: nat, line: nat)
    : TableScan
    requires k < |table.rows| && table.rows[k].group < |table.groups| && table.rows[k].first <= line < |lines|
  {
    var shown := CellsShown(source, cells, table, k);
    ReadTableLine(source, shown, CellOffsetsBefore(source, shown, lines, table.rows[k].first, line),
                  lines[line].fragments)
  }

  /** The start of the first cell that a displayed row shows. */
  function FirstCell(source: string, cells: seq<seq<nat>>, table: TableLayout, k: nat): nat
    requires k < |table.rows| && table.rows[k].group < |table.groups|
    requires table.groups[table.rows[k].group].columns != []
  {
    RangeOfCell(cells, SourceRow(table.rows, k), table.groups[table.rows[k].group].columns[0], |source|).start
  }

  /** Exactly when the anchor of a line lies outside the text of its source row, at its end: the
      line matches nothing, and the row has no text from the first column of the group on. */
  lemma AnchorLeavesItsRowIff(
    source: string, cells: seq<seq<nat>>, table: TableLayout, lines: seq<LayoutLine>, k: nat, line: nat)
    requires IsGrid(source, cells, table, lines) && k < |table.rows|
    requires table.rows[k].first <= line < table.rows[k].end
    ensures line < |lines| && SourceRow(table.rows, k) < |cells|
    ensures var end := RowsBefore(cells, SourceRow(table.rows, k) + 1);
      TableStart(source, cells, table, lines, |table.rows|, line) == end
      <==> !ScanOf(source, cells, table, lines, k, line).matched && FirstCell(source, cells, table, k) == end
  {
    RowHoldsItsLines(table, lines, k, line);
    LastRowDecides(source, cells, table, lines, k, line, |table.rows|);
    var shown := CellsShown(source, cells, table, k);
    MatchedStartsInside(source, shown, CellOffsetsBefore(source, shown, lines, table.rows[k].first, line),
                        lines[line].fragments);
    CellsEndInSourceRow(source, cells, table, k);
    LineStartsInSourceRow(source, cells, table, lines, k, line);
  }

  lemma CellsEndInSourceRow(source: string, cells: seq<seq<nat>>, table: TableLayout, k: nat)
    requires k < |table.rows| && table.rows[k].group < |table.groups|
    requires SourceRow(table.rows, k) < |cells| && RowsBefore(cells, |cells|) == |source|
    requires forall c | c in table.groups[table.rows[k].group].columns :: c < |cells[SourceRow(table.rows, k)]|
    ensures var shown := CellsShown(source, cells, table, k);
      forall c | 0 <= c < |shown| :: shown[c].end <= RowsBefore(cells, SourceRow(table.rows, k) + 1) <= |source|
  {
    var shown, row := CellsShown(source, cells, table, k), SourceRow(table.rows, k);
    RowsBeforeGrows(cells, row + 1, |cells|);
    forall c | 0 <= c < |shown| ensures shown[c].end <= RowsBefore(cells, row + 1) {
      assert table.groups[table.rows[k].group].columns[c] in table.groups[table.rows[k].group].columns;
      CellsStayInTheirRow(cells, row, table.groups[table.rows[k].group].columns[c], |source|);
    }
  }

  /** With one group of columns, every anchor in the text of its row comes back on that row. */
  lemma OneGroupKeepsTheRow(document: Document, layout: DocumentLayout, b: nat, k: nat, line: nat)
    requires IsTableAt(document, layout, b) && GridAt(document, layout, b).groups == 1
    requires var g := GridAt(document, layout, b);
      Has(g, k, line) && line < |g.starts| && IsInRow(g, g.shown[k], g.starts[line])
    ensures var restored := CursorOf(document, layout, AnchorAt(document, layout, DocumentCursor(b, line)));
      restored.Some? && restored.value.block == b && Has(GridAt(document, layout, b), k, restored.value.line)
  {
    var g := GridAt(document, layout, b);
    GridAtIsTable(document, layout, b);
    RowsLieInTheText(document, layout, b, g.shown[k], g.starts[line]);
    AnchorsFollowTheGrid(document, layout, b, ContentAnchor(b, g.starts[line]));
    assert ShowsIn(g, k, 0, g.shown[k]);
    assert HasStartBy(g, k, g.starts[line]);
    var f := TableAnchorKeepsItsRowIff(document, layout, ContentAnchor(b, g.starts[line]), g.shown[k], k);
  }

  lemma {:induction false} FirstMatchStarts(
    source: string, cells: seq<CellRange>, offsets: seq<nat>, fragments: seq<LayoutFragment>)
    requires |offsets| == |cells| && fragments != [] && ShownText(fragments[0]) != ""
    requires FindInCells(source, cells, offsets, 0, ShownText(fragments[0])).Some?
    ensures var scan := ReadTableLine(source, cells, offsets, fragments);
      scan.matched && scan.start == FindInCells(source, cells, offsets, 0, ShownText(fragments[0])).value.1
  {
    var n := |fragments| - 1;
    if n > 0 {
      FirstMatchStarts(source, cells, offsets, fragments[..n]);
    } else {
      assert fragments[..0] == [];
    }
  }

  /** The first line of a displayed row begins with the key: the text at the start of the row. */
  predicate ShowsKey(source: string, cells: seq<seq<nat>>, table: TableLayout, lines: seq<LayoutLine>, k: nat)
    requires k < |table.rows| && table.rows[k].group < |table.groups| && table.rows[k].first < |lines|
    requires SourceRow(table.rows, k) <= |cells|
  {
    var shown, fragments := CellsShown(source, cells, table, k), lines[table.rows[k].first].fragments;
    && shown != [] && fragments != [] && ShownText(fragments[0]) != ""
    && shown[0].start == RowsBefore(cells, SourceRow(table.rows, k))
    && ExactIn(source, shown[0], shown[0].start, ShownText(fragments[0]))
  }

  /** A row that shows its key has a line by every anchor in its text. */
  lemma KeyIsByEveryAnchor(
    source: string, cells: seq<seq<nat>>, table: TableLayout, lines: seq<LayoutLine>, k: nat, offset: nat)
    requires IsGrid(source, cells, table, lines) && k < |table.rows| && table.rows[k].first < |lines|
    requires ShowsKey(source, cells, table, lines, k)
    requires IsInRow(GridOf(source, cells, table, lines), SourceRow(table.rows, k), offset)
    ensures HasStartBy(GridOf(source, cells, table, lines), k, offset)
  {
    var g, line := GridOf(source, cells, table, lines), table.rows[k].first;
    RowHoldsItsLines(table, lines, k, line);
    LastRowDecides(source, cells, table, lines, k, line, |table.rows|);
    FirstMatchStarts(source, CellsShown(source, cells, table, k), CellStarts(CellsShown(source, cells, table, k)),
                     lines[line].fragments);
    assert Has(g, k, line) && g.starts[line] <= offset;
  }

  /** Where the last group shows the key of a row, every anchor in the text of the row, taken
      in this layout or in another, comes back on the row in that group. */
  lemma KeyColumnKeepsTheRow(
    document: Document, layout: DocumentLayout, anchor: ContentAnchor, row: nat, k: nat)
    requires IsTableAt(document, layout, anchor.block)
    requires var g := GridAt(document, layout, anchor.block);
      IsInRow(g, row, anchor.offset) && IsLast(g, k, row)
    requires var block, laidOut := document.blocks[anchor.block], layout.blocks[anchor.block];
      && laidOut.table.value.rows[k].first < |laidOut.lines|
      && ShowsKey(block.text, block.cells.value, laidOut.table.value, laidOut.lines, k)
    ensures var restored := CursorOf(document, layout, anchor);
      && restored.Some? && restored.value.block == anchor.block
      && Has(GridAt(document, layout, anchor.block), k, restored.value.line)
  {
    var block, laidOut := document.blocks[anchor.block], layout.blocks[anchor.block];
    KeyIsByEveryAnchor(block.text, block.cells.value, laidOut.table.value, laidOut.lines, k, anchor.offset);
    var f := TableAnchorKeepsItsRowIff(document, layout, anchor, row, k);
  }

  /** The group of a displayed row shows its columns from left to right, from one that starts
      after an offset. */
  predicate StartsAfter(source: string, cells: seq<seq<nat>>, table: TableLayout, k: nat, offset: nat)
    requires k < |table.rows| && table.rows[k].group < |table.groups|
    requires table.groups[table.rows[k].group].columns != []
  {
    var columns := table.groups[table.rows[k].group].columns;
    && (forall i | 0 <= i < |columns| :: columns[0] <= columns[i])
    && offset < FirstCell(source, cells, table, k)
  }

  /** Such a group shows nothing of a row before its first column, so the row has no line by
      an anchor before it. */
  lemma AnchorBeforeGroupHasNoLine(
    source: string, cells: seq<seq<nat>>, table: TableLayout, lines: seq<LayoutLine>, k: nat, offset: nat)
    requires IsGrid(source, cells, table, lines) && k < |table.rows|
    requires StartsAfter(source, cells, table, k, offset)
    ensures !HasStartBy(GridOf(source, cells, table, lines), k, offset)
  {
    var g := GridOf(source, cells, table, lines);
    forall line: nat | Has(g, k, line) && line < |g.starts| ensures g.starts[line] > offset {
      LineStartsAfterFirstCell(source, cells, table, lines, k, line);
    }
  }

  ghost predicate StartsAfterAt(document: Document, layout: DocumentLayout, anchor: ContentAnchor, k: nat)
    requires IsTableAt(document, layout, anchor.block)
  {
    var block, table := document.blocks[anchor.block], layout.blocks[anchor.block].table.value;
    k < |table.rows| && StartsAfter(block.text, block.cells.value, table, k, anchor.offset)
  }

  lemma NoLineByAnchor(document: Document, layout: DocumentLayout, anchor: ContentAnchor, k: nat)
    requires IsTableAt(document, layout, anchor.block) && StartsAfterAt(document, layout, anchor, k)
    ensures !HasStartBy(GridAt(document, layout, anchor.block), k, anchor.offset)
  {
    var block, laidOut := document.blocks[anchor.block], layout.blocks[anchor.block];
    AnchorBeforeGroupHasNoLine(
      block.text, block.cells.value, laidOut.table.value, laidOut.lines, k, anchor.offset);
  }

  /** Where the last group starts after the anchor, and the row is not the first of the table,
      the anchor comes back on the last line of the row above. */
  lemma MissingColumnLeavesTheRow(
    document: Document, layout: DocumentLayout, anchor: ContentAnchor, row: nat, k: nat)
    requires IsTableAt(document, layout, anchor.block) && StartsAfterAt(document, layout, anchor, k)
    requires var g := GridAt(document, layout, anchor.block);
      IsInRow(g, row, anchor.offset) && IsLast(g, k, row) && !OpensItsGroup(g, k)
    ensures var g, restored := GridAt(document, layout, anchor.block), CursorOf(document, layout, anchor);
      && restored.Some? && restored.value.block == anchor.block
      && restored.value.line == g.rows[k - 1].end - 1 && g.shown[k - 1] != row
  {
    NoLineByAnchor(document, layout, anchor, k);
    AnchorWithoutLineLeaves(document, layout, anchor, row, k);
  }

  lemma AnchorWithoutLineLeaves(
    document: Document, layout: DocumentLayout, anchor: ContentAnchor, row: nat, k: nat)
    requires IsTableAt(document, layout, anchor.block)
    requires var g := GridAt(document, layout, anchor.block);
      && IsInRow(g, row, anchor.offset) && IsLast(g, k, row)
      && !OpensItsGroup(g, k) && !HasStartBy(g, k, anchor.offset)
    ensures var g, restored := GridAt(document, layout, anchor.block), CursorOf(document, layout, anchor);
      && restored.Some? && restored.value.block == anchor.block
      && restored.value.line == g.rows[k - 1].end - 1 && g.shown[k - 1] != row
  {
    var f := TableAnchorKeepsItsRowIff(document, layout, anchor, row, k);
  }

  lemma LineStartsAfterFirstCell(
    source: string, cells: seq<seq<nat>>, table: TableLayout, lines: seq<LayoutLine>, k: nat, line: nat)
    requires IsGrid(source, cells, table, lines) && k < |table.rows|
    requires table.rows[k].first <= line < table.rows[k].end
    requires var columns := table.groups[table.rows[k].group].columns;
      forall i | 0 <= i < |columns| :: columns[0] <= columns[i]
    ensures line < |lines|
    ensures TableStart(source, cells, table, lines, |table.rows|, line) >= FirstCell(source, cells, table, k)
  {
    RowHoldsItsLines(table, lines, k, line);
    LastRowDecides(source, cells, table, lines, k, line, |table.rows|);
    var shown, row := CellsShown(source, cells, table, k), SourceRow(table.rows, k);
    var columns := table.groups[table.rows[k].group].columns;
    LineStartsInItsCells(source, shown, CellOffsetsBefore(source, shown, lines, table.rows[k].first, line),
                         lines[line].fragments);
    forall c | 0 <= c < |shown| ensures shown[c].start >= shown[0].start {
      assert columns[c] in columns && columns[0] in columns;
      ColumnsGoRight(cells[row], columns[0], columns[c]);
    }
    assert columns[0] in columns;
    CellEndsInText(cells, row, columns[0], |source|);
  }

  lemma ColumnsGoRight(lengths: seq<nat>, a: nat, b: nat)
    requires a <= b <= |lengths|
    ensures Sum(lengths[..a]) <= Sum(lengths[..b])
  {
    assert lengths[..b][..a] == lengths[..a];
    SumIsMonotone(lengths[..b], a);
  }

  // ---- two tables whose anchors drift ---------------------------------------------------------------

  function Columns(columns: seq<nat>): TableColumnGroup {
    TableColumnGroup(columns, 0, 0, [])
  }

  predicate IsWord(fragment: LayoutFragment, text: string) {
    fragment.image.None? && fragment.text == text
  }

  /** Three columns in two groups that both show the key; the middle cell of the row wraps. */
  const WRAPPED_TEXT: string := "kabrx yz"
  const WRAPPED_CELLS: seq<seq<nat>> := [[1, 1, 1], [1, 3, 1]]

  function WrappedTable(): TableLayout {
    TableLayout(
      [Columns([0, 1]), Columns([0, 2])],
      [TableRow(0, 1, 0, true), TableRow(1, 3, 0, false), TableRow(3, 4, 1, true), TableRow(4, 5, 1, false)])
  }

  /** Two columns in a viewport too narrow to repeat the key. */
  const NARROW_TEXT: string := "karx"
  const NARROW_CELLS: seq<seq<nat>> := [[1, 1], [1, 1]]

  function NarrowTable(): TableLayout {
    TableLayout(
      [Columns([0]), Columns([1])],
      [TableRow(0, 1, 0, true), TableRow(1, 2, 0, false), TableRow(2, 3, 1, true), TableRow(3, 4, 1, false)])
  }

  lemma SumOfTwo(a: nat, b: nat)
    ensures Sum([a]) == a && Sum([a, b]) == a + b
  {
    assert [a][..0] == [] && [a, b][..1] == [a];
  }

  lemma SumOfThree(a: nat, b: nat, c: nat)
    ensures Sum([a, b, c]) == a + b + c
  {
    SumOfTwo(a, b);
    assert [a, b, c][..2] == [a, b];
  }

  lemma WrappedRanges()
    ensures CellsShown(WRAPPED_TEXT, WRAPPED_CELLS, WrappedTable(), 1) == [CellRange(3, 4), CellRange(4, 7)]
    ensures CellsShown(WRAPPED_TEXT, WRAPPED_CELLS, WrappedTable(), 3) == [CellRange(3, 4), CellRange(7, 8)]
  {
    SumOfThree(1, 1, 1);
    SumOfTwo(1, 3);
    var row := WRAPPED_CELLS[1];
    assert RowsBefore(WRAPPED_CELLS, 1) == 3;
    assert row[..0] == [] && row[..1] == [1] && row[..2] == [1, 3];
    assert SourceRow(WrappedTable().rows, 1) == 1 && SourceRow(WrappedTable().rows, 3) == 1;
  }

  /** Both layouts are tables in the sense of the theorems above. */
  lemma WrappedIsGrid(lines: seq<LayoutLine>)
    requires |lines| == 5
    ensures IsGrid(WRAPPED_TEXT, WRAPPED_CELLS, WrappedTable(), lines)
  {
    SumOfThree(1, 1, 1);
    SumOfThree(1, 3, 1);
    assert RowsBefore(WRAPPED_CELLS, 1) == 3 && RowsBefore(WRAPPED_CELLS, 2) == 8;
    ShowBothRows(WrappedTable());
  }

  lemma NarrowIsGrid(lines: seq<LayoutLine>)
    requires |lines| == 4
    ensures IsGrid(NARROW_TEXT, NARROW_CELLS, NarrowTable(), lines)
  {
    SumOfTwo(1, 1);
    assert RowsBefore(NARROW_CELLS, 1) == 2 && RowsBefore(NARROW_CELLS, 2) == 4;
    ShowBothRows(NarrowTable());
  }

  lemma ShowBothRows(table: TableLayout)
    requires table == WrappedTable() || table == NarrowTable()
    ensures forall k | 0 <= k < 4 :: SourceRow(table.rows, k) == if k % 2 == 0 then 0 else 1
    ensures forall k, g | 0 <= k < 4 && 0 <= g < 2 :: ShowsRow(table, g, SourceRow(table.rows, k))
  {
    assert SourceRow(table.rows, 0) == 0 && SourceRow(table.rows, 2) == 0;
    assert SourceRow(table.rows, 1) == 1 && SourceRow(table.rows, 3) == 1;
    assert IsRowIn(table, 0, 0, 0) && IsRowIn(table, 1, 0, 1) && IsRowIn(table, 2, 1, 0) && IsRowIn(table, 3, 1, 1);
  }

  lemma OneWord(source: string, cells: seq<CellRange>, offsets: seq<nat>, line: LayoutLine)
    requires |offsets| == |cells| && |line.fragments| == 1
    ensures ReadTableLine(source, cells, offsets, line.fragments)
         == ReadTableFragment(source, cells, TableScan(offsets, 0, if cells == [] then 0 else cells[0].start, false),
                              line.fragments[0])
  {
    assert line.fragments[..0] == [];
  }

  /** The words "r" and "x" of the first line of the wrapped row. */
  lemma WrappedFirstLine(line: LayoutLine)
    requires |line.fragments| == 2 && IsWord(line.fragments[0], "r") && IsWord(line.fragments[1], "x")
    ensures ReadTableLine(WRAPPED_TEXT, [CellRange(3, 4), CellRange(4, 7)], [3, 4], line.fragments).offsets == [4, 5]
  {
    var cells := [CellRange(3, 4), CellRange(4, 7)];
    var first := TableScan([3, 4], 0, 3, false);
    assert line.fragments[..1][..0] == [] && line.fragments[..1][0] == line.fragments[0];
    assert FindInCells(WRAPPED_TEXT, cells, [3, 4], 0, "r") == Some((0, 3));
    assert ReadTableFragment(WRAPPED_TEXT, cells, first, line.fragments[0]) == TableScan([4, 4], 0, 3, true);
    assert ReadTableLine(WRAPPED_TEXT, cells, [3, 4], line.fragments[..1]) == TableScan([4, 4], 0, 3, true);
    assert FindInCells(WRAPPED_TEXT, cells, [4, 4], 0, "x") == Some((1, 4)) by {
      assert MatchInCell(WRAPPED_TEXT, cells[0], 4, "x") == None;
    }
    assert [4, 4][1 := 5] == [4, 5];
  }

  lemma WrappedSecondLine(line: LayoutLine)
    requires |line.fragments| == 1 && IsWord(line.fragments[0], "y")
    ensures ReadTableLine(WRAPPED_TEXT, [CellRange(3, 4), CellRange(4, 7)], [4, 5], line.fragments).start == 6
  {
    var cells := [CellRange(3, 4), CellRange(4, 7)];
    OneWord(WRAPPED_TEXT, cells, [4, 5], line);
    assert MatchInCell(WRAPPED_TEXT, cells[0], 4, "y") == None;
    assert SkipWhitespaceIn(WRAPPED_TEXT, 5, 7) == 6;
    assert FindInCells(WRAPPED_TEXT, cells, [4, 5], 0, "y") == Some((1, 6));
  }

  /** What the layout of the wrapped table shows, as far as it matters. */
  predicate ShowsWrapped(lines: seq<LayoutLine>) {
    && |lines| == 5
    && |lines[1].fragments| == 2 && IsWord(lines[1].fragments[0], "r") && IsWord(lines[1].fragments[1], "x")
    && |lines[2].fragments| == 1 && IsWord(lines[2].fragments[0], "y")
    && lines[4].fragments != [] && IsWord(lines[4].fragments[0], "r")
  }

  lemma WrappedLineStart(lines: seq<LayoutLine>)
    requires ShowsWrapped(lines)
    ensures TableStart(WRAPPED_TEXT, WRAPPED_CELLS, WrappedTable(), lines, 4, 2) == 6
  {
    var shown := [CellRange(3, 4), CellRange(4, 7)];
    WrappedRanges();
    LastRowDecides(WRAPPED_TEXT, WRAPPED_CELLS, WrappedTable(), lines, 1, 2, 4);
    WrappedFirstLine(lines[1]);
    WrappedSecondLine(lines[2]);
    assert CellStarts(shown) == [3, 4];
    assert CellOffsetsBefore(WRAPPED_TEXT, shown, lines, 1, 2) == [4, 5];
  }

  lemma WrappedLastStart(lines: seq<LayoutLine>)
    requires ShowsWrapped(lines)
    ensures TableStart(WRAPPED_TEXT, WRAPPED_CELLS, WrappedTable(), lines, 4, 4) == 3
  {
    var shown := [CellRange(3, 4), CellRange(7, 8)];
    WrappedRanges();
    LastRowDecides(WRAPPED_TEXT, WRAPPED_CELLS, WrappedTable(), lines, 3, 4, 4);
    assert CellStarts(shown) == [3, 7];
    assert FindInCells(WRAPPED_TEXT, shown, [3, 7], 0, "r") == Some((0, 3));
    FirstMatchStarts(WRAPPED_TEXT, shown, [3, 7], lines[4].fragments);
  }

  /** The anchor of the wrapped line stays in its row, but comes back at the key of the row in
      the last group, which does not show the wrapped cell. */
  lemma WrappedCellDrifts(document: Document, layout: DocumentLayout)
    requires |document.blocks| == |layout.blocks| == 1
    requires document.blocks[0] == SourceBlock(WRAPPED_TEXT, Some(WRAPPED_CELLS))
    requires layout.blocks[0].table == Some(WrappedTable()) && ShowsWrapped(layout.blocks[0].lines)
    ensures AnchorAt(document, layout, DocumentCursor(0, 2)) == ContentAnchor(0, 6)
    ensures CursorOf(document, layout, ContentAnchor(0, 6)) == Some(DocumentCursor(0, 4))
    ensures AnchorAt(document, layout, DocumentCursor(0, 4)) == ContentAnchor(0, 3)
  {
    WrappedLineStart(layout.blocks[0].lines);
    WrappedLastStart(layout.blocks[0].lines);
    LastLineIsFound(document, layout, 2, 4);
  }

  /** When the last line starts by the anchor of another line, it restores that anchor. */
  lemma LastLineIsFound(document: Document, layout: DocumentLayout, line: nat, last: nat)
    requires |document.blocks| == |layout.blocks| == 1 && line <= last == |layout.blocks[0].lines| - 1
    requires StartOf(document.blocks[0], layout.blocks[0], last) <= StartOf(document.blocks[0], layout.blocks[0], line)
    ensures CursorOf(document, layout, AnchorAt(document, layout, DocumentCursor(0, line)))
         == Some(DocumentCursor(0, last))
  {
    AnchorOfLine(document, layout, DocumentCursor(0, line));
  }

  lemma NarrowRanges()
    ensures CellsShown(NARROW_TEXT, NARROW_CELLS, NarrowTable(), 1) == [CellRange(2, 3)]
    ensures CellsShown(NARROW_TEXT, NARROW_CELLS, NarrowTable(), 2) == [CellRange(1, 2)]
    ensures CellsShown(NARROW_TEXT, NARROW_CELLS, NarrowTable(), 3) == [CellRange(3, 4)]
  {
    SumOfTwo(1, 1);
    assert NARROW_CELLS[0][..1] == [1] && NARROW_CELLS[1][..1] == [1];
    assert RowsBefore(NARROW_CELLS, 0) == 0 && RowsBefore(NARROW_CELLS, 1) == 2;
    assert SourceRow(NarrowTable().rows, 1) == 1 && SourceRow(NarrowTable().rows, 2) == 0;
    assert SourceRow(NarrowTable().rows, 3) == 1;
  }

  lemma WordStarts(source: string, cell: CellRange, line: LayoutLine, text: string)
    requires line.fragments != [] && IsWord(line.fragments[0], text) && text != ""
    requires ExactIn(source, cell, cell.start, text)
    ensures ReadTableLine(source, [cell], CellStarts([cell]), line.fragments).start == cell.start
  {
    assert FindInCells(source, [cell], CellStarts([cell]), 0, text) == Some((0, cell.start));
    FirstMatchStarts(source, [cell], CellStarts([cell]), line.fragments);
  }

  /** The anchor of a data row comes back on the header row: without the key the last group
      shows nothing of the data row before it. */
  lemma NarrowTableLeavesTheRow(document: Document, layout: DocumentLayout)
    requires |document.blocks| == |layout.blocks| == 1
    requires document.blocks[0] == SourceBlock(NARROW_TEXT, Some(NARROW_CELLS))
    requires layout.blocks[0].table == Some(NarrowTable()) && |layout.blocks[0].lines| == 4
    requires forall i | 1 <= i < 4 :: layout.blocks[0].lines[i].fragments != []
    requires IsWord(layout.blocks[0].lines[1].fragments[0], "r")
    requires IsWord(layout.blocks[0].lines[2].fragments[0], "a")
    requires IsWord(layout.blocks[0].lines[3].fragments[0], "x")
    ensures AnchorAt(document, layout, DocumentCursor(0, 1)) == ContentAnchor(0, 2)
    ensures CursorOf(document, layout, ContentAnchor(0, 2)) == Some(DocumentCursor(0, 2))
    ensures AnchorAt(document, layout, DocumentCursor(0, 2)) == ContentAnchor(0, 1)
    ensures NarrowTable().rows[2].header && !NarrowTable().rows[1].header
  {
    var table, lines := NarrowTable(), layout.blocks[0].lines;
    NarrowRanges();
    LastRowDecides(NARROW_TEXT, NARROW_CELLS, table, lines, 1, 1, 4);
    LastRowDecides(NARROW_TEXT, NARROW_CELLS, table, lines, 2, 2, 4);
    LastRowDecides(NARROW_TEXT, NARROW_CELLS, table, lines, 3, 3, 4);
    WordStarts(NARROW_TEXT, CellRange(2, 3), lines[1], "r");
    WordStarts(NARROW_TEXT, CellRange(1, 2), lines[2], "a");
    WordStarts(NARROW_TEXT, CellRange(3, 4), lines[3], "x");
    var starts := StartsOf(document.blocks[0], layout.blocks[0]);
    assert starts[1] == 2 && starts[2] == 1 && starts[3] == 3;
    AnchorOfLine(document, layout, DocumentCursor(0, 1));
    CursorOfAnchor(document, layout, ContentAnchor(0, 2));
  }
}
