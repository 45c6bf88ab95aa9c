/** An open document of the bounded reader: its layout, its page directory, the pages it
    has rebuilt, and the position being read. */
module OpenDocuments {
  import opened Options
  import opened PageGeometry
  import opened Navigation
  import opened Layouts
  import opened DisplayLists
  import opened Pagination
  import opened PaginationTheorems
  import opened ContentAnchors
  import opened PageCaches

  /** The page area, the effective style, and how many pages a document may keep. */
  datatype Settings = Settings(viewport: Viewport, style: ReaderStyle, pageLimit: nat)

  datatype ReaderError = NoDocumentOpen | Unreadable(reason: string) | AnchorNotFound(document: string, anchor: string)

  /** A history entry: where the reader was, and the content it was at. */
  datatype ReadingLocation = ReadingLocation(
    location: DocumentLocation, page: nat, cursor: DocumentCursor, content: ContentAnchor)

  datatype OpenDocument = OpenDocument(
    location: DocumentLocation, document: Document, layout: DocumentLayout,
    index: PaginationIndex, cache: PageCache, page: nat, cursor: DocumentCursor, content: ContentAnchor)

  function Snapshot(open: OpenDocument): ReadingLocation {
    ReadingLocation(open.location, open.page, open.cursor, open.content)
  }

  /** What layout promises: one layout block for each block, at the size of the page, with
      table headers above their rows. */
  ghost predicate IsLayoutOf(settings: Settings, document: Document, layout: DocumentLayout) {
    && layout.viewport == settings.viewport
    && WellFormed(layout) && HeadersComeFirst(layout)
    && |layout.blocks| == |document.blocks|
  }

  ghost predicate IsTruePage(layout: DocumentLayout, style: ReaderStyle, entry: CacheEntry)
    requires WellFormed(layout)
  {
    entry.0 < |Pages(layout, style)| && entry.1 == Pages(layout, style)[entry.0]
  }

  /** The directory is that of the layout, and every cached page is a true one. */
  ghost predicate IsConsistent(open: OpenDocument, settings: Settings) {
    && IsLayoutOf(settings, open.document, open.layout)
    && open.index == IndexOf(open.layout, settings.style)
    && IsBounded(open.cache) && open.cache.capacity == EmptyCache(settings.pageLimit).capacity
    && forall e | e in open.cache.entries :: IsTruePage(open.layout, settings.style, e)
  }

  /** The current page is the page of the cursor, when the cursor is a line. */
  ghost predicate IsPlaced(open: OpenDocument, settings: Settings)
    requires IsConsistent(open, settings)
  {
    && open.page < |open.index.pages|
    && (IsLine(open.layout, open.cursor) ==>
          Pages(open.layout, settings.style)[open.page].range.Contains(open.cursor))
  }

  ghost predicate IsOpen(open: OpenDocument, settings: Settings) {
    IsConsistent(open, settings) && IsPlaced(open, settings) && HoldsPage(open.cache, open.page)
  }

  /** The page a reader sees is the page that full pagination gives. */
  lemma CurrentPageIsTrue(open: OpenDocument, settings: Settings)
    requires IsOpen(open, settings)
    ensures open.page < |Pages(open.layout, settings.style)|
    ensures Get(open.cache, open.page) == Some(Pages(open.layout, settings.style)[open.page])
  {
    GetIsAnEntry(open.cache, open.page);
    assert IsTruePage(open.layout, settings.style, (open.page, Get(open.cache, open.page).value));
  }

  // ---- pages and cursors ----------------------------------------------------------------------

  function PageFor(open: OpenDocument, cursor: DocumentCursor): Option<nat> {
    var found := PageIndexForCursor(open.index.pages, cursor);
    if found.Some? then found
    else if |open.index.pages| == 1 && open.index.pages[0].range.start == open.index.pages[0].range.end
    then Some(0)
    else None
  }

  lemma PageForIsThePage(open: OpenDocument, settings: Settings, cursor: DocumentCursor)
    requires IsConsistent(open, settings)
    ensures |open.index.pages| == |Pages(open.layout, settings.style)| > 0
    ensures PageFor(open, cursor).Some? ==> PageFor(open, cursor).value < |open.index.pages|
    ensures IsLine(open.layout, cursor) ==>
      && PageFor(open, cursor).Some?
      && Pages(open.layout, settings.style)[PageFor(open, cursor).value].range.Contains(cursor)
  {
    PagesTileTheDocument(open.layout, settings.style);
    if IsLine(open.layout, cursor) {
      IndexFindsThePage(open.layout, settings.style, cursor);
    }
  }

  /** The document with a page in its cache; nothing when the directory lacks the page. */
  function WithPage(open: OpenDocument, k: nat, style: ReaderStyle): Option<OpenDocument> {
    if HoldsPage(open.cache, k) then Some(open)
    else
      match RebuiltPage(open.layout, style, open.index, k)
      case None => None
      case Some(page) => Some(open.(cache := Inserted(open.cache, k, page)))
  }

  method EnsurePage(open: OpenDocument, k: nat, style: ReaderStyle) returns (ensured: Option<OpenDocument>)
    requires 1 <= open.cache.capacity
    ensures ensured == WithPage(open, k, style)
  {
    if HoldsPage(open.cache, k) { return Some(open); }
    var rebuilt := PageFromIndex(open.layout, style, open.index, k);
    if rebuilt.None? { return None; }
    var cache := Insert(open.cache, k, rebuilt.value);
    ensured := Some(open.(cache := cache));
  }

  /** A page of the document can always be made available, and it is the true page. */
  lemma EveryPageIsAvailable(open: OpenDocument, settings: Settings, k: nat)
    requires IsConsistent(open, settings) && k < |open.index.pages|
    ensures var with := WithPage(open, k, settings.style);
      && with.Some? && with.value == open.(cache := with.value.cache)
      && IsConsistent(with.value, settings) && HoldsPage(with.value.cache, k)
      && with.value.cache.capacity == open.cache.capacity
  {
    if !HoldsPage(open.cache, k) {
      IndexIsExact(open.layout, settings.style, k);
      var page := Pages(open.layout, settings.style)[k];
      InsertedIsBounded(open.cache, k, page);
      assert IsTruePage(open.layout, settings.style, (k, page));
    }
  }

  /** Read on at a cursor: on its page, or on a fallback page when it is on none. */
  method PlaceAt(
    open: OpenDocument, settings: Settings, cursor: DocumentCursor, content: ContentAnchor, fallback: nat)
    returns (placed: OpenDocument)
    requires IsConsistent(open, settings) && fallback < |open.index.pages|
    ensures IsOpen(placed, settings)
    ensures placed == open.(cursor := cursor, content := content,
                            page := PageFor(open, cursor).GetOr(fallback), cache := placed.cache)
    ensures placed.cache.capacity == open.cache.capacity
  {
    var page := PageFor(open, cursor).GetOr(fallback);
    PageForIsThePage(open, settings, cursor);
    EveryPageIsAvailable(open, settings, page);
    var ensured := EnsurePage(open, page, settings.style);
    placed := ensured.value.(cursor := cursor, content := content, page := page);
  }

  /** Turn to a page: read on at its first line. */
  method TurnTo(open: OpenDocument, settings: Settings, k: nat) returns (turned: OpenDocument)
    requires IsConsistent(open, settings) && k < |open.index.pages|
    ensures IsOpen(turned, settings)
    ensures var cursor := Pages(open.layout, settings.style)[k].range.start;
      turned == open.(cursor := cursor, content := AnchorAt(open.document, open.layout, cursor), page := k,
                      cache := turned.cache)
    ensures turned.cache.capacity == open.cache.capacity
  {
    EveryPageIsAvailable(open, settings, k);
    var ensured := EnsurePage(open, k, settings.style);
    var cursor := open.index.pages[k].range.start;
    var content := TakeAnchor(open.document, open.layout, cursor);
    turned := ensured.value.(cursor := cursor, content := content, page := k);
    FirstLineIsOnItsPage(open.layout, settings.style, k);
  }

  lemma FirstLineIsOnItsPage(layout: DocumentLayout, style: ReaderStyle, k: nat)
    requires WellFormed(layout) && k < |Pages(layout, style)|
    ensures var range := Pages(layout, style)[k].range;
      IsLine(layout, range.start) ==> range.Contains(range.start)
  {
    PagesTileTheDocument(layout, style);
    if !HasNoLines(layout) {
      assert IsPage(layout, style, k, Pages(layout, style)[k]);
    }
  }

  // ---- opening ------------------------------------------------------------------------------------

  /** The first block that carries an anchor. */
  function AnchorBlock(blocks: seq<LayoutBlock>, anchor: string): (found: Option<nat>)
    ensures found.Some? ==> found.value < |blocks| && blocks[found.value].anchor == Some(anchor)
  {
    if blocks == [] then None
    else if blocks[0].anchor == Some(anchor) then Some(0)
    else
      match AnchorBlock(blocks[1..], anchor)
      case None => None
      case Some(b) => Some(b + 1)
  }

  /** Where an anchor of an open document is: the start of its block, when a page has it. */
  function AnchorCursor(open: OpenDocument, anchor: string): Option<DocumentCursor> {
    match AnchorBlock(open.layout.blocks, anchor)
    case None => None
    case Some(b) => if PageFor(open, DocumentCursor(b, 0)).Some? then Some(DocumentCursor(b, 0)) else None
  }

  /** While a document is being built an anchor needs a page that contains it. */
  function BuiltAnchorCursor(layout: DocumentLayout, index: PaginationIndex, anchor: string): Option<DocumentCursor> {
    match AnchorBlock(layout.blocks, anchor)
    case None => None
    case Some(b) =>
      if PageIndexForCursor(index.pages, DocumentCursor(b, 0)).Some? then Some(DocumentCursor(b, 0)) else None
  }

  function AnchorCursorIn(layout: DocumentLayout, settings: Settings, location: DocumentLocation): Option<DocumentCursor>
    requires WellFormed(layout)
  {
    match location.anchor
    case Some(anchor) => BuiltAnchorCursor(layout, IndexOf(layout, settings.style), anchor)
    case None =>
      var pages := Pages(layout, settings.style);
      if pages == [] then None else Some(pages[0].range.start)
  }

  function MissingAnchor(location: DocumentLocation): ReaderError {
    AnchorNotFound(location.document, location.anchor.GetOr(""))
  }

  /** Lay out and index a document and go to its anchor, or to its first page. */
  method Build(
    location: DocumentLocation, document: Document, layout: DocumentLayout, settings: Settings)
    returns (built: Result<OpenDocument, ReaderError>)
    requires IsLayoutOf(settings, document, layout)
    ensures built.Ok? <==> AnchorCursorIn(layout, settings, location).Some?
    ensures built.Err? ==> built.error == MissingAnchor(location)
    ensures built.Ok? ==>
      && IsOpen(built.value, settings)
      && built.value.location == location && built.value.document == document && built.value.layout == layout
      && Some(built.value.cursor) == AnchorCursorIn(layout, settings, location)
      && built.value.content == AnchorAt(document, layout, built.value.cursor)
  {
    var index := Index(layout, settings.style);
    PagesTileTheDocument(layout, settings.style);
    var cursor := index.pages[0].range.start;
    if location.anchor.Some? {
      var found := BuiltAnchorCursor(layout, index, location.anchor.value);
      if found.None? { return Err(MissingAnchor(location)); }
      cursor := found.value;
    }
    var content := TakeAnchor(document, layout, cursor);
    var open := OpenDocument(location, document, layout, index, EmptyCache(settings.pageLimit), 0, cursor, content);
    var placed := PlaceAt(open, settings, cursor, content, 0);
    built := Ok(placed);
  }

  /** Go to a location in a document that is already laid out. On failure only the location
      has changed. */
  method Prepare(open: OpenDocument, location: DocumentLocation, settings: Settings)
    returns (prepared: OpenDocument, found: bool)
    requires IsOpen(open, settings)
    ensures IsOpen(prepared, settings) && prepared.location == location
    ensures prepared.document == open.document && prepared.layout == open.layout
    ensures found <==> location.anchor.None? || AnchorCursor(open, location.anchor.value).Some?
    ensures !found ==> prepared == open.(location := location)
    ensures found ==>
      && prepared.content == AnchorAt(open.document, open.layout, prepared.cursor)
      && prepared.cursor == match location.anchor
                            case None => Pages(open.layout, settings.style)[0].range.start
                            case Some(anchor) => AnchorCursor(open, anchor).value
  {
    prepared, found := open.(location := location), true;
    PageForIsThePage(open, settings, open.cursor);
    var cursor, fallback := open.index.pages[0].range.start, 0;
    if location.anchor.Some? {
      var at := AnchorCursor(open, location.anchor.value);
      if at.None? { return prepared, false; }
      cursor, fallback := at.value, open.page;
    }
    var content := TakeAnchor(open.document, open.layout, cursor);
    prepared := PlaceAt(prepared, settings, cursor, content, fallback);
  }

  /** Return to a recorded position: to the line that shows the recorded content in the
      present layout. */
  method Restore(open: OpenDocument, target: ReadingLocation, settings: Settings) returns (restored: OpenDocument)
    requires IsConsistent(open, settings)
    ensures IsOpen(restored, settings)
    ensures restored.location == open.location && restored.document == open.document && restored.layout == open.layout
    ensures restored.content == target.content
    ensures restored.cursor == CursorOf(open.document, open.layout, target.content).GetOr(target.cursor)
  {
    PageForIsThePage(open, settings, target.cursor);
    var cursor := RestoreAnchor(open.document, open.layout, target.content);
    var last := |open.index.pages| - 1;
    restored := PlaceAt(open, settings, cursor.GetOr(target.cursor), target.content,
                        if target.page <= last then target.page else last);
  }
}
