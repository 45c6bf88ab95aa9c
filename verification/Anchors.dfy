/** Content anchors: positions in the reading text of a block, which survive a new
    layout, and the display line that an anchor restores.

    Each line of a block is given the offset of its first visible content by matching
    its fragments against the reading text, in order. */
module ContentAnchors {
  import opened Options
  import opened Navigation
  import opened Layouts

  /** A top-level block as text; a table also gives the text length of every cell, header
      row first. */
  datatype SourceBlock = SourceBlock(text: string, cells: Option<seq<seq<nat>>>)

  datatype Document = Document(blocks: seq<SourceBlock>)

  /** An offset in the reading text of a block. */
  datatype ContentAnchor = ContentAnchor(block: nat, offset: nat)

  /** The characters that Unicode calls white space. */
  predicate IsWhitespace(c: char) {
    var x := c as int;
    || 0x9 <= x <= 0xD || x == 0x20 || x == 0x85 || x == 0xA0 || x == 0x1680
    || 0x2000 <= x <= 0x200A || x == 0x2028 || x == 0x2029 || x == 0x202F || x == 0x205F || x == 0x3000
  }

  function Min(a: nat, b: nat): nat {
    if a <= b then a else b
  }

  /** The first offset from here that is not white space. */
  function SkipWhitespace(source: string, offset: nat): (skipped: nat)
    ensures skipped <= |source|
    ensures offset <= |source| ==> offset <= skipped
    ensures forall i | offset <= i < skipped :: IsWhitespace(source[i])
    ensures skipped < |source| ==> !IsWhitespace(source[skipped])
    decreases |source| - Min(offset, |source|)
  {
    if offset >= |source| then |source|
    else if IsWhitespace(source[offset]) then SkipWhitespace(source, offset + 1)
    else offset
  }

  predicate ExactAt(source: string, start: nat, fragment: string) {
    start + |fragment| <= |source| && source[start..start + |fragment|] == fragment
  }

  /** Where a fragment stands: here, or after the white space that follows. */
  function MatchFragment(source: string, offset: nat, fragment: string): (at: Option<nat>)
    ensures at.Some? ==> ExactAt(source, at.value, fragment)
    ensures at.Some? && offset <= |source| ==> offset <= at.value
  {
    if fragment == [] then Some(Min(offset, |source|))
    else if ExactAt(source, offset, fragment) then Some(offset)
    else if IsWhitespace(fragment[0]) then None
    else
      var skipped := SkipWhitespace(source, offset);
      if ExactAt(source, skipped, fragment) then Some(skipped) else None
  }

  function ImageFallback(alt: string): string {
    if alt == "" then "[image unavailable]" else "[image: " + alt + "]"
  }

  /** The text that a fragment stands for and where it is found, if it is. */
  function FindFragment(source: string, offset: nat, fragment: LayoutFragment): (found: Option<(nat, nat)>)
    ensures found.Some? && offset <= |source| ==> offset <= found.value.0 <= found.value.1 <= |source|
  {
    match fragment.image
    case Some(image) =>
      var fallback := ImageFallback(image.alt);
      var shown := MatchFragment(source, offset, fallback);
      var named := MatchFragment(source, offset, image.alt);
      if shown.Some? then Some((shown.value, shown.value + |fallback|))
      else if named.Some? then Some((named.value, named.value + |image.alt|))
      else None
    case None =>
      var words := MatchFragment(source, offset, fragment.text);
      if fragment.text != "" && words.Some? then Some((words.value, words.value + |fragment.text|)) else None
  }

  /** While a line is read: the running offset, and the start of the line so far. */
  datatype LineScan = LineScan(offset: nat, start: nat, matched: bool)

  function ReadFragment(source: string, scan: LineScan, fragment: LayoutFragment): LineScan {
    match FindFragment(source, scan.offset, fragment)
    case None => scan
    case Some(found) => LineScan(found.1, if scan.matched then scan.start else found.0, true)
  }

  function ReadLine(source: string, offset: nat, fragments: seq<LayoutFragment>): (scan: LineScan)
    ensures offset <= |source| ==> offset <= scan.offset <= |source| && offset <= scan.start <= |source|
  {
    if fragments == [] then LineScan(offset, SkipWhitespace(source, offset), false)
    else
      var n := |fragments| - 1;
      ReadFragment(source, ReadLine(source, offset, fragments[..n]), fragments[n])
  }

  /** A running value after the first lines. */
  function Running(step: (nat, LayoutLine) -> nat, lines: seq<LayoutLine>, n: nat): nat
    requires n <= |lines|
  {
    if n == 0 then 0 else step(Running(step, lines, n - 1), lines[n - 1])
  }

  function Advance(source: string): (nat, LayoutLine) -> nat {
    (offset: nat, line: LayoutLine) => ReadLine(source, offset, line.fragments).offset
  }

  /** The running offset before a line. */
  function OffsetBefore(source: string, lines: seq<LayoutLine>, line: nat): nat
    requires line <= |lines|
  {
    Running(Advance(source), lines, line)
  }

  /** The offset of the first visible content of a line. */
  function LineStart(source: string, lines: seq<LayoutLine>, line: nat): (start: nat)
    requires line < |lines|
    ensures start <= |source|
  {
    Min(ReadLine(source, OffsetBefore(source, lines, line), lines[line].fragments).start, |source|)
  }

  method ReadFragments(source: string, before: nat, fragments: seq<LayoutFragment>) returns (offset: nat, start: nat)
    ensures offset == ReadLine(source, before, fragments).offset && start == ReadLine(source, before, fragments).start
  {
    offset, start := before, SkipWhitespace(source, before);
    var matched := false;
    for f := 0 to |fragments|
      invariant LineScan(offset, start, matched) == ReadLine(source, before, fragments[..f])
    {
      var found := FindFragment(source, offset, fragments[f]);
      if found.Some? {
        if !matched {
          start, matched := found.value.0, true;
        }
        offset := found.value.1;
      }
      assert fragments[..f + 1][..f] == fragments[..f];
    }
    assert fragments[..|fragments|] == fragments;
  }

  lemma NextOffset(source: string, lines: seq<LayoutLine>, line: nat)
    requires line < |lines|
    ensures OffsetBefore(source, lines, line + 1)
         == ReadLine(source, OffsetBefore(source, lines, line), lines[line].fragments).offset
  {
  }

  /** The line starts of a block that is not a table. */
  method ReadLines(source: string, lines: seq<LayoutLine>) returns (starts: seq<nat>)
    ensures |starts| == |lines|
    ensures forall i | 0 <= i < |lines| :: starts[i] == LineStart(source, lines, i)
  {
    starts := [];
    var offset := 0;
    for i := 0 to |lines|
      invariant |starts| == i && offset == OffsetBefore(source, lines, i)
      invariant forall j | 0 <= j < i :: starts[j] == LineStart(source, lines, j)
    {
      NextOffset(source, lines, i);
      var next, start := ReadFragments(source, offset, lines[i].fragments);
      starts := starts + [Min(start, |source|)];
      offset := next;
    }
  }

  // ---- where a line starts ------------------------------------------------------------

  lemma {:induction false} SkipIsMonotone(source: string, a: nat, b: nat)
    requires a <= b
    ensures SkipWhitespace(source, a) <= SkipWhitespace(source, b)
    decreases b - a
  {
    if a < b {
      SkipIsMonotone(source, a + 1, b);
      if a < |source| && !IsWhitespace(source[a]) {
        assert a <= SkipWhitespace(source, b);
      }
    }
  }

  /** A fragment is found here, or at the next visible text. */
  lemma FoundHereOrVisibly(source: string, offset: nat, fragment: LayoutFragment)
    requires offset <= |source| && FindFragment(source, offset, fragment).Some?
    ensures var at := FindFragment(source, offset, fragment).value.0;
      at == offset || at == SkipWhitespace(source, offset)
  {
  }

  /** The first fragment that is found on a line stands where the text stopped, and that is
      white space: a space of code, or an image without a name. */
  predicate OpensEarly(source: string, offset: nat, fragments: seq<LayoutFragment>) {
    fragments != [] &&
    var n := |fragments| - 1;
    var scan := ReadLine(source, offset, fragments[..n]);
    if scan.matched then OpensEarly(source, offset, fragments[..n])
    else
      var found := FindFragment(source, scan.offset, fragments[n]);
      && found.Some? && found.value.0 == scan.offset
      && scan.offset < |source| && IsWhitespace(source[scan.offset])
  }

  /** A line starts at the next visible text, except that a line which opens early starts
      where the text stopped. */
  lemma {:induction false} LineStartsAt(source: string, offset: nat, fragments: seq<LayoutFragment>)
    requires offset <= |source|
    ensures var scan := ReadLine(source, offset, fragments);
      && scan.start == (if OpensEarly(source, offset, fragments) then offset else SkipWhitespace(source, offset))
      && (!scan.matched ==> scan.offset == offset && !OpensEarly(source, offset, fragments))
  {
    if fragments != [] {
      var n := |fragments| - 1;
      var scan := ReadLine(source, offset, fragments[..n]);
      LineStartsAt(source, offset, fragments[..n]);
      if FindFragment(source, scan.offset, fragments[n]).Some? && !scan.matched {
        FoundHereOrVisibly(source, offset, fragments[n]);
      }
    }
  }

  predicate BeginsVisibly(fragment: LayoutFragment) {
    match fragment.image
    case Some(image) => image.alt != "" && !IsWhitespace(image.alt[0])
    case None => fragment.text == "" || !IsWhitespace(fragment.text[0])
  }

  lemma MatchIsVisible(source: string, offset: nat, text: string)
    requires offset <= |source| && text != "" && !IsWhitespace(text[0])
    ensures var at := MatchFragment(source, offset, text);
      at.Some? ==> at.value == SkipWhitespace(source, offset)
  {
    if ExactAt(source, offset, text) {
      assert source[offset..offset + |text|][0] == source[offset];
    }
  }

  /** Wrapped prose never opens early: its lines begin with a word of the text. */
  lemma {:induction false} WordsDoNotOpenEarly(source: string, offset: nat, fragments: seq<LayoutFragment>)
    requires offset <= |source| && fragments != [] && BeginsVisibly(fragments[0])
    requires FindFragment(source, offset, fragments[0]).Some?
    ensures ReadLine(source, offset, fragments).matched && !OpensEarly(source, offset, fragments)
  {
    var n := |fragments| - 1;
    if n > 0 {
      WordsDoNotOpenEarly(source, offset, fragments[..n]);
    } else {
      var fragment := fragments[0];
      assert fragments[..0] == [];
      match fragment.image
      case Some(image) =>
        MatchIsVisible(source, offset, ImageFallback(image.alt));
        MatchIsVisible(source, offset, image.alt);
      case None => MatchIsVisible(source, offset, fragment.text);
    }
  }

  lemma {:induction false} RunningGrows(
    step: (nat, LayoutLine) -> nat, bound: nat, lines: seq<LayoutLine>, i: nat, j: nat)
    requires i <= j <= |lines|
    requires forall offset: nat, line | offset <= bound :: offset <= step(offset, line) <= bound
    ensures Running(step, lines, i) <= Running(step, lines, j) <= bound
    decreases j
  {
    if i < j {
      RunningGrows(step, bound, lines, i, j - 1);
    } else if j > 0 {
      RunningGrows(step, bound, lines, i - 1, j - 1);
    }
  }

  lemma OffsetsGoForward(source: string, lines: seq<LayoutLine>, i: nat, j: nat)
    requires i <= j <= |lines|
    ensures OffsetBefore(source, lines, i) <= OffsetBefore(source, lines, j) <= |source|
  {
    var step := Advance(source);
    forall offset: nat, line | offset <= |source| ensures offset <= step(offset, line) <= |source| {
      var scan := ReadLine(source, offset, line.fragments);
      assert step(offset, line) == scan.offset;
    }
    RunningGrows(step, |source|, lines, i, j);
  }

  /** Line `j` opens early, inside white space that line `i` skipped. */
  predicate Overtakes(source: string, lines: seq<LayoutLine>, i: nat, j: nat)
    requires i < |lines| && j < |lines|
  {
    var a, b := OffsetBefore(source, lines, i), OffsetBefore(source, lines, j);
    && OpensEarly(source, b, lines[j].fragments) && !OpensEarly(source, a, lines[i].fragments)
    && b < SkipWhitespace(source, a)
  }

  /** Exactly when a later line starts earlier, whatever the lines show. */
  lemma LineStartGoesBackIff(source: string, lines: seq<LayoutLine>, i: nat, j: nat)
    requires i < j < |lines|
    ensures LineStart(source, lines, j) < LineStart(source, lines, i) <==> Overtakes(source, lines, i, j)
  {
    var a, b := OffsetBefore(source, lines, i), OffsetBefore(source, lines, j);
    OffsetsGoForward(source, lines, i, j);
    LineStartsAt(source, a, lines[i].fragments);
    LineStartsAt(source, b, lines[j].fragments);
    SkipIsMonotone(source, a, b);
  }

  /** No line starts after a later line that does not open early. */
  lemma LineStartsGoForward(source: string, lines: seq<LayoutLine>, i: nat, j: nat)
    requires i <= j < |lines|
    requires !OpensEarly(source, OffsetBefore(source, lines, j), lines[j].fragments)
    ensures LineStart(source, lines, i) <= LineStart(source, lines, j)
  {
    if i < j {
      LineStartGoesBackIff(source, lines, i, j);
    }
  }

  lemma ReadOne(source: string, offset: nat, fragment: LayoutFragment)
    ensures ReadLine(source, offset, [fragment])
         == ReadFragment(source, LineScan(offset, SkipWhitespace(source, offset), false), fragment)
  {
    assert [fragment][..0] == [];
  }

  /** A first fragment that is found is where its line starts. */
  lemma {:induction false} FirstFoundStarts(source: string, offset: nat, fragments: seq<LayoutFragment>)
    requires fragments != [] && FindFragment(source, offset, fragments[0]).Some?
    ensures var scan := ReadLine(source, offset, fragments);
      scan.matched && scan.start == FindFragment(source, offset, fragments[0]).value.0
  {
    var n := |fragments| - 1;
    if n > 0 {
      FirstFoundStarts(source, offset, fragments[..n]);
    } else {
      ReadOne(source, offset, fragments[0]);
      assert fragments == [fragments[0]];
    }
  }

  /** The starts of a line that shows nothing, below a title, and of the line after it. */
  lemma AfterTitle(source: string, title: LayoutLine, rule: LayoutLine, last: LayoutLine)
    requires rule.fragments == [] && last.fragments != []
    requires FindFragment(source, ReadLine(source, 0, title.fragments).offset, last.fragments[0]).Some?
    ensures var lines := [title, rule, last];
      var a := ReadLine(source, 0, title.fragments).offset;
      && LineStart(source, lines, 1) == Min(SkipWhitespace(source, a), |source|)
      && LineStart(source, lines, 2) == Min(FindFragment(source, a, last.fragments[0]).value.0, |source|)
  {
    var lines := [title, rule, last];
    var a := ReadLine(source, 0, title.fragments).offset;
    NextOffset(source, lines, 0);
    NextOffset(source, lines, 1);
    assert OffsetBefore(source, lines, 1) == a && OffsetBefore(source, lines, 2) == a;
    FirstFoundStarts(source, a, last.fragments);
  }

  /** An alert with a rule and then code or a picture without a name: the rule, which shows
      nothing of the text, starts after the separator; what follows starts before it. The
      reading text of such a block joins the title and the parts with ": ". */
  lemma AlertStartsGoBack(title: LayoutLine, rule: LayoutLine, code: LayoutLine, picture: LayoutLine)
    requires |title.fragments| == 1 && title.fragments[0].image.None? && title.fragments[0].text == "Note:"
    requires rule.fragments == []
    requires code.fragments != [] && code.fragments[0].image.None? && code.fragments[0].text == " "
    requires picture.fragments != []
    requires picture.fragments[0].image.Some? && picture.fragments[0].image.value.alt == ""
    ensures LineStart("Note: :  x", [title, rule, code], 1) == 6
    ensures LineStart("Note: :  x", [title, rule, code], 2) == 5
    ensures LineStart("Note: : [image unavailable]", [title, rule, picture], 1) == 6
    ensures LineStart("Note: : [image unavailable]", [title, rule, picture], 2) == 5
  {
    TitleIsRead("Note: :  x", title);
    AfterTitle("Note: :  x", title, rule, code);
    TitleIsRead("Note: : [image unavailable]", title);
    assert MatchFragment("Note: : [image unavailable]", 5, ImageFallback("")) == None;
    AfterTitle("Note: : [image unavailable]", title, rule, picture);
  }

  lemma TitleIsRead(source: string, title: LayoutLine)
    requires |source| > 6 && source[..7] == "Note: :"
    requires |title.fragments| == 1 && title.fragments[0].image.None? && title.fragments[0].text == "Note:"
    ensures ReadLine(source, 0, title.fragments).offset == 5
    ensures SkipWhitespace(source, 5) == 6
  {
    assert source[0..5] == source[..7][..5];
    ReadOne(source, 0, title.fragments[0]);
    assert title.fragments == [title.fragments[0]];
    assert source[5] == source[..7][5] && source[6] == source[..7][6];
  }

  // ---- table offsets -------------------------------------------------------------------------

  datatype CellRange = CellRange(start: nat, end: nat)

  function Sum(lengths: seq<nat>): nat {
    if lengths == [] then 0 else Sum(lengths[..|lengths| - 1]) + lengths[|lengths| - 1]
  }

  function RowsBefore(cells: seq<seq<nat>>, row: nat): nat
    requires row <= |cells|
  {
    if row == 0 then 0 else RowsBefore(cells, row - 1) + Sum(cells[row - 1])
  }

  /** The part of the reading text that a cell covers; the empty end for a cell that the
      source does not have. */
  function RangeOfCell(cells: seq<seq<nat>>, row: nat, column: nat, length: nat): (range: CellRange)
    ensures range.start <= range.end
  {
    if row < |cells| && column < |cells[row]| then
      var start := RowsBefore(cells, row) + Sum(cells[row][..column]);
      CellRange(start, start + cells[row][column])
    else CellRange(length, length)
  }

  function CellsOfRow(cells: seq<seq<nat>>, row: nat, columns: seq<nat>, length: nat): (ranges: seq<CellRange>)
    ensures |ranges| == |columns|
    ensures forall i | 0 <= i < |columns| :: ranges[i] == RangeOfCell(cells, row, columns[i], length)
  {
    seq(|columns|, i requires 0 <= i < |columns| => RangeOfCell(cells, row, columns[i], length))
  }

  /** How many of the first rows are data rows of a group. */
  function DataRowsBefore(rows: seq<TableRow>, k: nat, group: nat): nat
    requires k <= |rows|
  {
    if k == 0 then 0
    else DataRowsBefore(rows, k - 1, group) + (if rows[k - 1].group == group && !rows[k - 1].header then 1 else 0)
  }

  /** The source row that a displayed row shows. */
  function SourceRow(rows: seq<TableRow>, k: nat): nat
    requires k < |rows|
  {
    if rows[k].header then 0 else DataRowsBefore(rows, k, rows[k].group) + 1
  }

  function SkipWhitespaceIn(source: string, offset: nat, end: nat): (skipped: nat)
    ensures skipped <= end
    ensures offset <= end ==> offset <= skipped
    decreases end - Min(offset, end)
  {
    if offset >= end then end
    else if offset < |source| && IsWhitespace(source[offset]) then SkipWhitespaceIn(source, offset + 1, end)
    else offset
  }

  predicate ExactIn(source: string, range: CellRange, start: nat, text: string) {
    range.start <= start && start + |text| <= range.end && ExactAt(source, start, text)
  }

  function MatchInCell(source: string, range: CellRange, offset: nat, text: string): (at: Option<nat>)
    ensures at.Some? && text != "" ==> ExactIn(source, range, at.value, text)
  {
    if text == "" then Some(Min(offset, range.end))
    else
      var start := Min(if offset < range.start then range.start else offset, range.end);
      if ExactIn(source, range, start, text) then Some(start)
      else if IsWhitespace(text[0]) then None
      else
        var skipped := SkipWhitespaceIn(source, start, range.end);
        if ExactIn(source, range, skipped, text) then Some(skipped) else None
  }

  /** The first cell from `cell` on that holds a text, and where. */
  function FindInCells(source: string, cells: seq<CellRange>, offsets: seq<nat>, cell: nat, text: string)
    : (found: Option<(nat, nat)>)
    requires |offsets| == |cells|
    ensures found.Some? ==> cell <= found.value.0 < |cells|
    ensures found.Some? && text != "" ==> ExactIn(source, cells[found.value.0], found.value.1, text)
    decreases |cells| - Min(cell, |cells|)
  {
    if cell >= |cells| then None
    else
      var at := MatchInCell(source, cells[cell], offsets[cell], text);
      if at.Some? then Some((cell, at.value)) else FindInCells(source, cells, offsets, cell + 1, text)
  }

  function ShownText(fragment: LayoutFragment): string {
    if fragment.image.Some? then ImageFallback(fragment.image.value.alt) else fragment.text
  }

  /** While a table line is read: how far each cell has been read, and the current cell. */
  datatype TableScan = TableScan(offsets: seq<nat>, cell: nat, start: nat, matched: bool)

  function ReadTableFragment(source: string, cells: seq<CellRange>, scan: TableScan, fragment: LayoutFragment)
    : (next: TableScan)
    requires |scan.offsets| == |cells|
    ensures |next.offsets| == |cells|
  {
    var text := ShownText(fragment);
    var found := FindInCells(source, cells, scan.offsets, scan.cell, text);
    if text == "" || found.None? then scan
    else
      var (cell, at) := found.value;
      TableScan(scan.offsets[cell := Min(at + |text|, cells[cell].end)], cell,
                if scan.matched then scan.start else at, true)
  }

  function ReadTableLine(source: string, cells: seq<CellRange>, offsets: seq<nat>, fragments: seq<LayoutFragment>)
    : (scan: TableScan)
    requires |offsets| == |cells|
    ensures |scan.offsets| == |cells|
  {
    if fragments == [] then TableScan(offsets, 0, if cells == [] then 0 else cells[0].start, false)
    else
      var n := |fragments| - 1;
      ReadTableFragment(source, cells, ReadTableLine(source, cells, offsets, fragments[..n]), fragments[n])
  }

  function CellStarts(cells: seq<CellRange>): (offsets: seq<nat>)
    ensures |offsets| == |cells|
  {
    seq(|cells|, i requires 0 <= i < |cells| => cells[i].start)
  }

  /** How far the cells of a row have been read before one of its lines. */
  function CellOffsetsBefore(source: string, cells: seq<CellRange>, lines: seq<LayoutLine>, first: nat, line: nat)
    : (offsets: seq<nat>)
    requires first <= line <= |lines|
    ensures |offsets| == |cells|
    decreases line
  {
    if line == first then CellStarts(cells)
    else
      ReadTableLine(source, cells, CellOffsetsBefore(source, cells, lines, first, line - 1),
                    lines[line - 1].fragments).offsets
  }

  function TableLineStart(source: string, cells: seq<CellRange>, lines: seq<LayoutLine>, first: nat, line: nat)
    : (start: nat)
    requires first <= line < |lines|
    ensures start <= |source|
  {
    Min(ReadTableLine(source, cells, CellOffsetsBefore(source, cells, lines, first, line), lines[line].fragments).start,
        |source|)
  }

  /** The cells that the `k`th displayed row shows. */
  function CellsShown(source: string, cells: seq<seq<nat>>, table: TableLayout, k: nat): seq<CellRange>
    requires k < |table.rows| && table.rows[k].group < |table.groups|
  {
    CellsOfRow(cells, SourceRow(table.rows, k), table.groups[table.rows[k].group].columns, |source|)
  }

  /** The start that the first rows give to a line: the last row that holds it decides. A
      row that the layout has no lines or no group for decides nothing. */
  function TableStart(
    source: string, cells: seq<seq<nat>>, table: TableLayout, lines: seq<LayoutLine>, k: nat, line: nat)
    : (start: nat)
    requires k <= |table.rows| && line < |lines|
    ensures start <= |source|
  {
    if k == 0 then 0
    else
      var row := table.rows[k - 1];
      if row.group < |table.groups| && row.first <= line < row.end <= |lines|
      then TableLineStart(source, CellsShown(source, cells, table, k - 1), lines, row.first, line)
      else TableStart(source, cells, table, lines, k - 1, line)
  }

  /** The line starts of a table. */
  method ReadTable(source: string, cells: seq<seq<nat>>, table: TableLayout, lines: seq<LayoutLine>)
    returns (starts: seq<nat>)
    ensures |starts| == |lines|
    ensures forall i | 0 <= i < |lines| :: starts[i] == TableStart(source, cells, table, lines, |table.rows|, i)
  {
    starts := seq(|lines|, _ => 0);
    var dataRows := seq(|table.groups|, _ => 0);
    for k := 0 to |table.rows|
      invariant |starts| == |lines| && |dataRows| == |table.groups|
      invariant forall i | 0 <= i < |lines| :: starts[i] == TableStart(source, cells, table, lines, k, i)
      invariant forall g | 0 <= g < |dataRows| :: dataRows[g] == DataRowsBefore(table.rows, k, g)
    {
      var row := table.rows[k];
      if row.group < |table.groups| {
        var sourceRow := if row.header then 0 else dataRows[row.group] + 1;
        if !row.header {
          dataRows := dataRows[row.group := dataRows[row.group] + 1];
        }
        if row.first <= row.end <= |lines| {
          starts := PlaceRow(source, cells, table, lines, k, sourceRow, starts);
        }
      }
    }
  }

  /** The starts after one more row that the layout has lines and a group for. */
  method PlaceRow(
    source: string, cells: seq<seq<nat>>, table: TableLayout, lines: seq<LayoutLine>, k: nat, sourceRow: nat,
    before: seq<nat>) returns (starts: seq<nat>)
    requires k < |table.rows| && table.rows[k].group < |table.groups|
    requires table.rows[k].first <= table.rows[k].end <= |lines| == |before|
    requires sourceRow == SourceRow(table.rows, k)
    requires forall i | 0 <= i < |lines| :: before[i] == TableStart(source, cells, table, lines, k, i)
    ensures |starts| == |lines|
    ensures forall i | 0 <= i < |lines| :: starts[i] == TableStart(source, cells, table, lines, k + 1, i)
  {
    var row := table.rows[k];
    var shown := CellsOfRow(cells, sourceRow, table.groups[row.group].columns, |source|);
    assert shown == CellsShown(source, cells, table, k);
    starts := ReadRow(source, shown, lines, row.first, row.end, before);
  }

  method ReadRow(
    source: string, cells: seq<CellRange>, lines: seq<LayoutLine>, first: nat, end: nat, before: seq<nat>)
    returns (starts: seq<nat>)
    requires first <= end <= |lines| == |before|
    ensures |starts| == |lines|
    ensures forall i | 0 <= i < |lines| ::
      starts[i] == if first <= i < end then TableLineStart(source, cells, lines, first, i) else before[i]
  {
    starts := before;
    var offsets := CellStarts(cells);
    for line := first to end
      invariant offsets == CellOffsetsBefore(source, cells, lines, first, line)
      invariant |starts| == |lines|
      invariant forall i | 0 <= i < |lines| ::
        starts[i] == if first <= i < line then TableLineStart(source, cells, lines, first, i) else before[i]
    {
      var scan := ReadTableFragments(source, cells, offsets, lines[line].fragments);
      starts := starts[line := Min(scan.start, |source|)];
      offsets := scan.offsets;
    }
  }

  method ReadTableFragments(
    source: string, cells: seq<CellRange>, offsets: seq<nat>, fragments: seq<LayoutFragment>) returns (scan: TableScan)
    requires |offsets| == |cells|
    ensures scan == ReadTableLine(source, cells, offsets, fragments)
  {
    scan := TableScan(offsets, 0, if cells == [] then 0 else cells[0].start, false);
    for f := 0 to |fragments|
      invariant scan == ReadTableLine(source, cells, offsets, fragments[..f])
    {
      scan := ReadTableFragment(source, cells, scan, fragments[f]);
      assert fragments[..f + 1][..f] == fragments[..f];
    }
    assert fragments[..|fragments|] == fragments;
  }

  /** An offset inside the text of one of some cells. */
  ghost predicate IsInCells(cells: seq<CellRange>, offset: nat) {
    exists c :: 0 <= c < |cells| && cells[c].start <= offset <= cells[c].end
  }

  lemma {:induction false} LineStartsInItsCells(
    source: string, cells: seq<CellRange>, offsets: seq<nat>, fragments: seq<LayoutFragment>)
    requires |offsets| == |cells| > 0 && forall c | c in cells :: c.start <= c.end
    ensures IsInCells(cells, ReadTableLine(source, cells, offsets, fragments).start)
  {
    if fragments == [] {
      assert cells[0] in cells;
    } else {
      var n := |fragments| - 1;
      LineStartsInItsCells(source, cells, offsets, fragments[..n]);
      var scan := ReadTableLine(source, cells, offsets, fragments[..n]);
      var found := FindInCells(source, cells, scan.offsets, scan.cell, ShownText(fragments[n]));
      if found.Some? && ShownText(fragments[n]) != "" {
        assert ExactIn(source, cells[found.value.0], found.value.1, ShownText(fragments[n]));
      }
    }
  }

  /** Row `k` is the last that holds a line and that the layout has lines and a group for. */
  predicate IsRowOf(table: TableLayout, lines: seq<LayoutLine>, k: nat, line: nat) {
    && k < |table.rows| && HoldsLine(table, lines, k, line)
    && forall m | k < m < |table.rows| :: !HoldsLine(table, lines, m, line)
  }

  predicate HoldsLine(table: TableLayout, lines: seq<LayoutLine>, k: nat, line: nat)
    requires k < |table.rows|
  {
    var row := table.rows[k];
    row.group < |table.groups| && row.first <= line < row.end <= |lines|
  }

  lemma {:induction false} LastRowDecides(
    source: string, cells: seq<seq<nat>>, table: TableLayout, lines: seq<LayoutLine>, k: nat, line: nat, n: nat)
    requires IsRowOf(table, lines, k, line) && k < n <= |table.rows|
    ensures TableStart(source, cells, table, lines, n, line)
         == TableLineStart(source, CellsShown(source, cells, table, k), lines, table.rows[k].first, line)
  {
    if k < n - 1 {
      assert !HoldsLine(table, lines, n - 1, line);
      LastRowDecides(source, cells, table, lines, k, line, n - 1);
    }
  }

  /** A line of a displayed row starts in the text of one of the cells that the row shows:
      in the part of the reading text that its source row covers, if the source has the
      row and those cells. */
  lemma TableLineStartsInItsRow(
    source: string, cells: seq<seq<nat>>, table: TableLayout, lines: seq<LayoutLine>, k: nat, line: nat)
    requires line < |lines| && IsRowOf(table, lines, k, line)
    requires table.groups[table.rows[k].group].columns != []
    requires RowsBefore(cells, |cells|) == |source|
    ensures var start := TableStart(source, cells, table, lines, |table.rows|, line);
      var row, columns := SourceRow(table.rows, k), table.groups[table.rows[k].group].columns;
      && IsInCells(CellsShown(source, cells, table, k), start)
      && (row < |cells| && (forall c | c in columns :: c < |cells[row]|) ==>
            RowsBefore(cells, row) <= start <= RowsBefore(cells, row + 1))
  {
    LastRowDecides(source, cells, table, lines, k, line, |table.rows|);
    var shown := CellsShown(source, cells, table, k);
    var first := table.rows[k].first;
    var row, columns := SourceRow(table.rows, k), table.groups[table.rows[k].group].columns;
    LineStartsInItsCells(source, shown, CellOffsetsBefore(source, shown, lines, first, line), lines[line].fragments);
    var start := ReadTableLine(source, shown, CellOffsetsBefore(source, shown, lines, first, line),
                               lines[line].fragments).start;
    var c :| 0 <= c < |shown| && shown[c].start <= start <= shown[c].end;
    assert columns[c] in columns;
    CellEndsInText(cells, row, columns[c], |source|);
    if row < |cells| && forall c | c in columns :: c < |cells[row]| {
      CellsStayInTheirRow(cells, row, columns[c], |source|);
    }
  }

  lemma CellEndsInText(cells: seq<seq<nat>>, row: nat, column: nat, length: nat)
    requires RowsBefore(cells, |cells|) == length
    ensures RangeOfCell(cells, row, column, length).end <= length
  {
    if row < |cells| && column < |cells[row]| {
      CellsStayInTheirRow(cells, row, column, length);
      RowsBeforeGrows(cells, row + 1, |cells|);
    }
  }

  lemma {:induction false} RowsBeforeGrows(cells: seq<seq<nat>>, a: nat, b: nat)
    requires a <= b <= |cells|
    ensures RowsBefore(cells, a) <= RowsBefore(cells, b)
    decreases b
  {
    if a < b {
      RowsBeforeGrows(cells, a, b - 1);
    }
  }

  /** The cells of a row follow each other without a gap, from the end of the row before to
      the end of this row. */
  lemma CellsStayInTheirRow(cells: seq<seq<nat>>, row: nat, column: nat, length: nat)
    requires row < |cells| && column < |cells[row]|
    ensures var range := RangeOfCell(cells, row, column, length);
      && RowsBefore(cells, row) <= range.start <= range.end <= RowsBefore(cells, row + 1)
      && (column == 0 ==> range.start == RowsBefore(cells, row))
      && range.end == if column + 1 < |cells[row]| then RangeOfCell(cells, row, column + 1, length).start
                      else RowsBefore(cells, row + 1)
  {
    SumIsMonotone(cells[row], column + 1);
    assert cells[row][..column + 1][..column] == cells[row][..column];
    assert column + 1 == |cells[row]| ==> cells[row][..column + 1] == cells[row];
  }

  lemma {:induction false} SumIsMonotone(lengths: seq<nat>, n: nat)
    requires n <= |lengths|
    ensures Sum(lengths[..n]) <= Sum(lengths)
    decreases |lengths|
  {
    if n < |lengths| {
      assert lengths[..|lengths| - 1][..n] == lengths[..n];
      SumIsMonotone(lengths[..|lengths| - 1], n);
    } else {
      assert lengths[..n] == lengths;
    }
  }

  // ---- taking and restoring an anchor ---------------------------------------------------------

  predicate IsTableBlock(block: SourceBlock, laidOut: LayoutBlock) {
    block.cells.Some? && laidOut.table.Some?
  }

  function StartOf(block: SourceBlock, laidOut: LayoutBlock, line: nat): (start: nat)
    requires line < |laidOut.lines|
  {
    if IsTableBlock(block, laidOut) then
      TableStart(block.text, block.cells.value, laidOut.table.value, laidOut.lines,
                 |laidOut.table.value.rows|, line)
    else LineStart(block.text, laidOut.lines, line)
  }

  method LineStarts(block: SourceBlock, laidOut: LayoutBlock) returns (starts: seq<nat>)
    ensures |starts| == |laidOut.lines|
    ensures forall i | 0 <= i < |starts| :: starts[i] == StartOf(block, laidOut, i)
  {
    if IsTableBlock(block, laidOut) {
      starts := ReadTable(block.text, block.cells.value, laidOut.table.value, laidOut.lines);
    } else {
      starts := ReadLines(block.text, laidOut.lines);
    }
  }

  /** The anchor of a position. */
  function AnchorAt(document: Document, layout: DocumentLayout, cursor: DocumentCursor): ContentAnchor {
    if cursor.block >= |document.blocks| then ContentAnchor(|document.blocks|, 0)
    else if cursor.block >= |layout.blocks| then ContentAnchor(cursor.block, 0)
    else
      var block, laidOut := document.blocks[cursor.block], layout.blocks[cursor.block];
      ContentAnchor(
        cursor.block,
        if cursor.line < |laidOut.lines| then StartOf(block, laidOut, cursor.line) else |block.text|)
  }

  method TakeAnchor(document: Document, layout: DocumentLayout, cursor: DocumentCursor) returns (anchor: ContentAnchor)
    ensures anchor == AnchorAt(document, layout, cursor)
  {
    if cursor.block >= |document.blocks| { return ContentAnchor(|document.blocks|, 0); }
    if cursor.block >= |layout.blocks| { return ContentAnchor(cursor.block, 0); }
    var block := document.blocks[cursor.block];
    var starts := LineStarts(block, layout.blocks[cursor.block]);
    anchor := ContentAnchor(cursor.block, if cursor.line < |starts| then starts[cursor.line] else |block.text|);
  }

  function StartsOf(block: SourceBlock, laidOut: LayoutBlock): (starts: seq<nat>)
    ensures |starts| == |laidOut.lines|
    ensures forall i | 0 <= i < |starts| :: starts[i] == StartOf(block, laidOut, i)
  {
    seq(|laidOut.lines|, i requires 0 <= i < |laidOut.lines| => StartOf(block, laidOut, i))
  }

  /** The last of the first lines that starts at or before an offset; line 0 if none. */
  function LastStartingBy(starts: seq<nat>, offset: nat, n: nat): (line: nat)
    requires n <= |starts|
    ensures n > 0 ==> line < n
    ensures forall i | line < i < n :: starts[i] > offset
    ensures n > 0 && line > 0 ==> starts[line] <= offset
    decreases n
  {
    if n == 0 then 0
    else if starts[n - 1] <= offset then n - 1
    else LastStartingBy(starts, offset, n - 1)
  }

  /** The position that an anchor restores; nothing when the layout lacks the block. */
  function CursorOf(document: Document, layout: DocumentLayout, anchor: ContentAnchor): Option<DocumentCursor> {
    if anchor.block >= |document.blocks| then Some(DocumentCursor(|document.blocks|, 0))
    else if anchor.block >= |layout.blocks| then None
    else
      var block, laidOut := document.blocks[anchor.block], layout.blocks[anchor.block];
      Some(DocumentCursor(
        anchor.block, LastStartingBy(StartsOf(block, laidOut), Min(anchor.offset, |block.text|), |laidOut.lines|)))
  }

  method RestoreAnchor(document: Document, layout: DocumentLayout, anchor: ContentAnchor)
    returns (cursor: Option<DocumentCursor>)
    ensures cursor == CursorOf(document, layout, anchor)
  {
    if anchor.block >= |document.blocks| { return Some(DocumentCursor(|document.blocks|, 0)); }
    if anchor.block >= |layout.blocks| { return None; }
    var block, laidOut := document.blocks[anchor.block], layout.blocks[anchor.block];
    if laidOut.lines == [] { return Some(DocumentCursor(anchor.block, 0)); }
    var offset := Min(anchor.offset, |block.text|);
    var starts := LineStarts(block, laidOut);
    assert starts == StartsOf(block, laidOut);
    var n: nat := |starts|;
    while n > 0
      invariant n <= |starts|
      invariant LastStartingBy(starts, offset, n) == LastStartingBy(starts, offset, |starts|)
    {
      if starts[n - 1] <= offset { return Some(DocumentCursor(anchor.block, n - 1)); }
      n := n - 1;
    }
    cursor := Some(DocumentCursor(anchor.block, 0));
  }

  /** Not one line opens early. */
  ghost predicate OpensOnTime(text: string, lines: seq<LayoutLine>) {
    forall i | 0 <= i < |lines| :: !OpensEarly(text, OffsetBefore(text, lines, i), lines[i].fragments)
  }

  /** An anchor restored in the layout it was taken from gives a line that is not above,
      with the same start, so the same anchor, unless that anchor is lost: exactly then it
      drifts to an earlier place in the text. */
  lemma RestoringKeepsTheAnchor(document: Document, layout: DocumentLayout, cursor: DocumentCursor)
    requires IsLine(layout, cursor) && cursor.block < |document.blocks|
    ensures var restored := CursorOf(document, layout, AnchorAt(document, layout, cursor));
      && restored.Some? && IsLine(layout, restored.value)
      && restored.value.block == cursor.block && cursor.line <= restored.value.line
      && (AnchorAt(document, layout, restored.value) == AnchorAt(document, layout, cursor)
          <==> !IsLost(StartsOf(document.blocks[cursor.block], layout.blocks[cursor.block]), cursor.line))
  {
    var block, laidOut := document.blocks[cursor.block], layout.blocks[cursor.block];
    var starts := StartsOf(block, laidOut);
    var found := LastStartingBy(starts, starts[cursor.line], |starts|);
    AnchorOfLine(document, layout, cursor);
    CursorOfAnchor(document, layout, ContentAnchor(cursor.block, starts[cursor.line]));
    AnchorOfLine(document, layout, DocumentCursor(cursor.block, found));
    FoundEarlierIsLost(starts, cursor.line, found);
  }

  /** A later line starts earlier, and all lines after that one start later. */
  ghost predicate IsLost(starts: seq<nat>, i: nat)
    requires i < |starts|
  {
    exists j ::
      && i < j < |starts| && starts[j] < starts[i]
      && forall k | j < k < |starts| :: starts[k] > starts[i]
  }

  lemma FoundEarlierIsLost(starts: seq<nat>, i: nat, found: nat)
    requires i < |starts| && found == LastStartingBy(starts, starts[i], |starts|)
    ensures i <= found < |starts| && starts[found] <= starts[i]
    ensures starts[found] < starts[i] <==> IsLost(starts, i)
  {
    if IsLost(starts, i) {
      var j :| i < j < |starts| && starts[j] < starts[i] && forall k | j < k < |starts| :: starts[k] > starts[i];
      assert found == j;
    }
  }

  /** Outside tables an anchor is lost exactly when a later line overtakes it and all lines
      after that one start later; so never where no line opens early. */
  lemma LostIsOvertaken(block: SourceBlock, laidOut: LayoutBlock, i: nat)
    requires !IsTableBlock(block, laidOut) && i < |laidOut.lines|
    ensures var starts := StartsOf(block, laidOut);
      IsLost(starts, i) <==> exists j ::
        && i < j < |starts| && Overtakes(block.text, laidOut.lines, i, j)
        && forall k | j < k < |starts| :: starts[k] > starts[i]
    ensures OpensOnTime(block.text, laidOut.lines) ==> !IsLost(StartsOf(block, laidOut), i)
  {
    var starts := StartsOf(block, laidOut);
    forall j | i < j < |starts| ensures starts[j] < starts[i] <==> Overtakes(block.text, laidOut.lines, i, j) {
      LineStartGoesBackIff(block.text, laidOut.lines, i, j);
    }
  }

  lemma AnchorOfLine(document: Document, layout: DocumentLayout, cursor: DocumentCursor)
    requires IsLine(layout, cursor) && cursor.block < |document.blocks|
    ensures var starts := StartsOf(document.blocks[cursor.block], layout.blocks[cursor.block]);
      && AnchorAt(document, layout, cursor) == ContentAnchor(cursor.block, starts[cursor.line])
      && starts[cursor.line] <= |document.blocks[cursor.block].text|
  {
  }

  lemma CursorOfAnchor(document: Document, layout: DocumentLayout, anchor: ContentAnchor)
    requires anchor.block < |document.blocks| && anchor.block < |layout.blocks|
    requires anchor.offset <= |document.blocks[anchor.block].text|
    ensures var starts := StartsOf(document.blocks[anchor.block], layout.blocks[anchor.block]);
      CursorOf(document, layout, anchor)
        == Some(DocumentCursor(anchor.block, LastStartingBy(starts, anchor.offset, |starts|)))
  {
  }

  /** In any layout that has the block, an anchor restores the last line that starts at or
      before it, and line 0 when every line starts later; where no line opens early, the
      lines that start at or before the anchor are then exactly those up to it. */
  lemma RestoringFindsTheContent(document: Document, layout: DocumentLayout, anchor: ContentAnchor)
    requires anchor.block < |document.blocks| && anchor.block < |layout.blocks|
    requires layout.blocks[anchor.block].lines != []
    ensures var block, laidOut := document.blocks[anchor.block], layout.blocks[anchor.block];
      var restored, offset := CursorOf(document, layout, anchor), Min(anchor.offset, |block.text|);
      && restored.Some? && IsLine(layout, restored.value) && restored.value.block == anchor.block
      && (forall i | restored.value.line < i < |laidOut.lines| :: StartOf(block, laidOut, i) > offset)
      && (StartOf(block, laidOut, restored.value.line) > offset ==> restored.value.line == 0)
      && (!IsTableBlock(block, laidOut) && OpensOnTime(block.text, laidOut.lines) ==>
            forall i | 0 <= i <= restored.value.line ::
              StartOf(block, laidOut, i) <= StartOf(block, laidOut, restored.value.line))
  {
    var block, laidOut := document.blocks[anchor.block], layout.blocks[anchor.block];
    var line := CursorOf(document, layout, anchor).value.line;
    if !IsTableBlock(block, laidOut) && OpensOnTime(block.text, laidOut.lines) {
      forall i | 0 <= i <= line ensures StartOf(block, laidOut, i) <= StartOf(block, laidOut, line) {
        LineStartsGoForward(block.text, laidOut.lines, i, line);
      }
    }
  }

  /** The anchor of the rule in such an alert drifts: it comes back on the line below. */
  lemma RuleInAlertDrifts(
    document: Document, layout: DocumentLayout, title: LayoutLine, rule: LayoutLine, code: LayoutLine)
    requires |document.blocks| == |layout.blocks| == 1
    requires document.blocks[0] == SourceBlock("Note: :  x", None)
    requires layout.blocks[0].lines == [title, rule, code]
    requires |title.fragments| == 1 && title.fragments[0].image.None? && title.fragments[0].text == "Note:"
    requires rule.fragments == []
    requires code.fragments != [] && code.fragments[0].image.None? && code.fragments[0].text == " "
    ensures AnchorAt(document, layout, DocumentCursor(0, 1)) == ContentAnchor(0, 6)
    ensures CursorOf(document, layout, ContentAnchor(0, 6)) == Some(DocumentCursor(0, 2))
    ensures AnchorAt(document, layout, DocumentCursor(0, 2)) == ContentAnchor(0, 5)
  {
    var unnamed := RasterImage(0, 0, []);
    AlertStartsGoBack(
      title, rule, code,
      code.(fragments := [code.fragments[0].(image := Some(LayoutImage(unnamed, "", "")))]));
    var starts := StartsOf(document.blocks[0], layout.blocks[0]);
    assert starts[1] == 6 && starts[2] == 5;
    AnchorOfLine(document, layout, DocumentCursor(0, 1));
    AnchorOfLine(document, layout, DocumentCursor(0, 2));
    CursorOfAnchor(document, layout, ContentAnchor(0, 6));
  }
}
