/** The bounded reading session.

    A document, its parse and its layout come from outside: where the reader loads or lays
    out, the method takes the outcome as a parameter, and any layout that keeps its
    promises is allowed. */
module Readers {
  import opened Options
  import opened PageGeometry
  import opened Navigation
  import opened Layouts
  import opened DisplayLists
  import opened Pagination
  import opened PaginationTheorems
  import opened ContentAnchors
  import opened PageCaches
  import opened ReaderHistories
  import opened OpenDocuments

  /** A document as it was just read, parsed and laid out. */
  datatype Source = Source(document: Document, layout: DocumentLayout)

  ghost predicate IsSource(settings: Settings, source: Result<Source, ReaderError>) {
    source.Ok? ==> IsLayoutOf(settings, source.value.document, source.value.layout)
  }

  // ---- the cache of documents left behind --------------------------------------------------

  function PositionOf(documents: seq<OpenDocument>, id: string, i: nat): (position: Option<nat>)
    requires i <= |documents|
    ensures position.None? ==> forall j | i <= j < |documents| :: documents[j].location.document != id
    ensures position.Some? ==> i <= position.value < |documents| && documents[position.value].location.document == id
    decreases |documents| - i
  {
    if i == |documents| then None
    else if documents[i].location.document == id then Some(i)
    else PositionOf(documents, id, i + 1)
  }

  ghost predicate AreDifferent(documents: seq<OpenDocument>) {
    forall i, j | 0 <= i < j < |documents| :: documents[i].location.document != documents[j].location.document
  }

  ghost predicate AreOpen(documents: seq<OpenDocument>, settings: Settings) {
    forall d | d in documents :: IsOpen(d, settings)
  }

  ghost predicate AreCached(documents: seq<OpenDocument>, settings: Settings, limit: nat) {
    |documents| <= limit && AreDifferent(documents) && AreOpen(documents, settings)
  }

  function Others(documents: seq<OpenDocument>, id: string): seq<OpenDocument> {
    if documents == [] then []
    else
      var last := documents[|documents| - 1];
      Others(documents[..|documents| - 1], id) + (if last.location.document != id then [last] else [])
  }

  /** The cache with a document as its newest entry; the oldest give way. */
  function Kept(documents: seq<OpenDocument>, open: OpenDocument, limit: nat): seq<OpenDocument> {
    if limit == 0 then documents else LastOf(Others(documents, open.location.document), limit - 1) + [open]
  }

  method Keep(documents: seq<OpenDocument>, open: OpenDocument, limit: nat) returns (kept: seq<OpenDocument>)
    ensures kept == Kept(documents, open, limit)
  {
    if limit == 0 { return documents; }
    kept := [];
    for i := 0 to |documents|
      invariant kept == Others(documents[..i], open.location.document)
    {
      assert documents[..i + 1][..i] == documents[..i];
      if documents[i].location.document != open.location.document {
        kept := kept + [documents[i]];
      }
    }
    assert documents[..|documents|] == documents;
    kept := EvictBelow(kept, limit);
    kept := kept + [open];
  }

  lemma {:induction false} OthersAreDifferent(documents: seq<OpenDocument>, id: string)
    requires AreDifferent(documents)
    ensures AreDifferent(Others(documents, id))
    ensures forall d | d in Others(documents, id) :: d in documents && d.location.document != id
  {
    if documents != [] {
      var rest, last := documents[..|documents| - 1], documents[|documents| - 1];
      OthersAreDifferent(rest, id);
      forall d | d in Others(rest, id) ensures d.location.document != last.location.document {
        var i :| 0 <= i < |rest| && rest[i] == d;
        assert documents[i] == d;
      }
    }
  }

  lemma NewestAreDifferent(documents: seq<OpenDocument>, n: nat)
    requires AreDifferent(documents)
    ensures AreDifferent(LastOf(documents, n)) && |LastOf(documents, n)| <= n
    ensures forall d | d in LastOf(documents, n) :: d in documents
  {
  }

  /** Keeping a document keeps the cache within its limit, without two copies of one. */
  lemma KeptAreDifferent(documents: seq<OpenDocument>, open: OpenDocument, limit: nat)
    requires AreDifferent(documents) && |documents| <= limit
    ensures var kept := Kept(documents, open, limit);
      && AreDifferent(kept) && |kept| <= limit
      && (limit > 0 ==> open in kept)
      && forall d | d in kept :: d == open || d in documents
  {
    if limit > 0 {
      OthersAreDifferent(documents, open.location.document);
      NewestAreDifferent(Others(documents, open.location.document), limit - 1);
      var others := LastOf(Others(documents, open.location.document), limit - 1);
      var kept := others + [open];
      assert kept[|others|] == open;
      assert forall i | 0 <= i < |others| :: kept[i] == others[i] && others[i] in others;
    }
  }

  lemma KeptIsCached(documents: seq<OpenDocument>, open: OpenDocument, settings: Settings, limit: nat)
    requires AreCached(documents, settings, limit) && IsOpen(open, settings)
    ensures AreCached(Kept(documents, open, limit), settings, limit)
  {
    KeptAreDifferent(documents, open, limit);
  }

  /** Take one document out of the cache. */
  function Removed(documents: seq<OpenDocument>, i: nat): seq<OpenDocument>
    requires i < |documents|
  {
    documents[..i] + documents[i + 1..]
  }

  lemma RemovedIsCached(documents: seq<OpenDocument>, settings: Settings, limit: nat, i: nat)
    requires AreCached(documents, settings, limit) && i < |documents|
    ensures AreCached(Removed(documents, i), settings, limit)
  {
    var removed := Removed(documents, i);
    assert forall k | 0 <= k < |removed| :: removed[k] == documents[if k < i then k else k + 1];
  }

  // ---- bringing a location up ---------------------------------------------------------------

  /** The document, the layout and the line that a location leads to. */
  datatype Destination = Destination(document: Document, layout: DocumentLayout, cursor: DocumentCursor)

  /** Where a location leads: a cached document is used as it is, any other one is read. */
  ghost function DestinationOf(
    documents: seq<OpenDocument>, settings: Settings, location: DocumentLocation,
    source: Result<Source, ReaderError>)
    : Result<Destination, ReaderError>
    requires AreOpen(documents, settings) && IsSource(settings, source)
  {
    match PositionOf(documents, location.document, 0)
    case Some(i) =>
      var open := documents[i];
      At(open.document, open.layout, CachedCursor(open, settings, location), location)
    case None =>
      match source
      case Err(error) => Err(error)
      case Ok(read) => At(read.document, read.layout, AnchorCursorIn(read.layout, settings, location), location)
  }

  function At(
    document: Document, layout: DocumentLayout, cursor: Option<DocumentCursor>, location: DocumentLocation)
    : Result<Destination, ReaderError>
  {
    if cursor.Some? then Ok(Destination(document, layout, cursor.value)) else Err(MissingAnchor(location))
  }

  ghost function CachedCursor(open: OpenDocument, settings: Settings, location: DocumentLocation): Option<DocumentCursor>
    requires IsOpen(open, settings)
  {
    if location.anchor.Some? then AnchorCursor(open, location.anchor.value)
    else Some(Pages(open.layout, settings.style)[0].range.start)
  }

  /** The open document stands at the destination, with the content anchor of its line. */
  ghost predicate StandsAt(open: OpenDocument, settings: Settings, location: DocumentLocation, at: Destination) {
    && IsOpen(open, settings) && open.location == location
    && open.document == at.document && open.layout == at.layout && open.cursor == at.cursor
    && open.content == AnchorAt(at.document, at.layout, at.cursor)
  }

  ghost predicate Reached(
    loaded: Result<OpenDocument, ReaderError>, settings: Settings, location: DocumentLocation,
    at: Result<Destination, ReaderError>)
  {
    match at
    case Err(error) => loaded == Err(error)
    case Ok(destination) => loaded.Ok? && StandsAt(loaded.value, settings, location, destination)
  }

  /** The open document shows the recorded content, on the line that has it in this layout. */
  ghost predicate IsRestored(open: OpenDocument, target: ReadingLocation, at: Destination) {
    && open.location == target.location && open.content == target.content
    && open.document == at.document && open.layout == at.layout
    && open.cursor == CursorOf(at.document, at.layout, target.content).GetOr(target.cursor)
  }

  function Outcome<T>(at: Result<Destination, ReaderError>, value: T): Result<T, ReaderError> {
    match at
    case Err(error) => Err(error)
    case Ok(_) => Ok(value)
  }

  function PutAway(documents: seq<OpenDocument>, open: Option<OpenDocument>, limit: nat): seq<OpenDocument> {
    match open
    case None => documents
    case Some(document) => Kept(documents, document, limit)
  }

  /** The cache after a location was asked for: when it is brought up, the current document
      goes in; a cached document that lacks the anchor becomes the newest entry. */
  function DocumentsAfter(
    documents: seq<OpenDocument>, current: Option<OpenDocument>, location: DocumentLocation, found: bool, limit: nat)
    : seq<OpenDocument>
  {
    match PositionOf(documents, location.document, 0)
    case Some(i) =>
      if found then PutAway(Removed(documents, i), current, limit)
      else Kept(Removed(documents, i), documents[i].(location := location), limit)
    case None => if found then PutAway(documents, current, limit) else documents
  }

  // ---- the reader ---------------------------------------------------------------------------

  class Reader {
    const historyLimit: nat
    const documentLimit: nat
    var settings: Settings
    var current: Option<OpenDocument>
    var documents: seq<OpenDocument>
    var history: seq<ReadingLocation>
    var historyIndex: nat

    /** The current document and every cached one show true pages, the caches and the
        history are within their limits, and an open document has a history entry. */
    ghost predicate Valid()
      reads this
    {
      && (current.Some? ==> IsOpen(current.value, settings) && history != [])
      && AreCached(documents, settings, documentLimit)
      && |history| <= AtLeastOne(historyLimit)
      && IsHistory(History(history, historyIndex))
    }

    /** Between operations, a reader without an open document has nothing else either. */
    ghost predicate Ready()
      reads this
    {
      Valid() && (current.None? ==> documents == [] && history == [])
    }

    /** Where a location leads from the present state of the reader. */
    ghost function Leads(location: DocumentLocation, source: Result<Source, ReaderError>): Result<Destination, ReaderError>
      requires Valid() && IsSource(settings, source)
      reads this
    {
      DestinationOf(documents, settings, location, source)
    }

    constructor (historyLimit: nat, documentLimit: nat, settings: Settings)
      ensures Ready() && current.None? && this.settings == settings
      ensures this.historyLimit == historyLimit && this.documentLimit == documentLimit
    {
      this.historyLimit, this.documentLimit := historyLimit, documentLimit;
      this.settings, current, documents, history, historyIndex := settings, None, [], [], 0;
    }

    /** What the reader shows: exactly the page that paginating the whole document gives. */
    method CurrentPage() returns (page: Option<PageLayout>)
      requires Ready()
      ensures page.None? <==> current.None?
      ensures current.Some? ==>
        && current.value.page < |Pages(current.value.layout, settings.style)|
        && page == Some(Pages(current.value.layout, settings.style)[current.value.page])
    {
      if current.None? { return None; }
      CurrentPageIsTrue(current.value, settings);
      page := Get(current.value.cache, current.value.page);
    }

    method UpdateCurrentHistory()
      requires Valid()
      modifies this`history
      ensures Valid()
      ensures current.None? ==> history == old(history)
      ensures current.Some? ==>
        History(history, historyIndex) == Noted(old(History(history, historyIndex)), Snapshot(current.value))
    {
      if current.Some? && historyIndex < |history| {
        history := history[historyIndex := Snapshot(current.value)];
      }
    }

    method PushHistory(entry: ReadingLocation)
      requires IsHistory(History(history, historyIndex)) && |history| <= AtLeastOne(historyLimit)
      modifies this`history, this`historyIndex
      ensures History(history, historyIndex) == AfterPush(old(History(history, historyIndex)), entry, historyLimit)
      ensures IsHistory(History(history, historyIndex)) && 0 < |history| <= AtLeastOne(historyLimit)
      ensures history[|history| - 1] == entry
    {
      if historyIndex + 1 < |history| {
        history := history[..historyIndex + 1];
      }
      history := history + [entry];
      var limit := AtLeastOne(historyLimit);
      if |history| > limit {
        var remove := |history| - limit;
        history := history[remove..];
        historyIndex := if historyIndex < remove then 0 else historyIndex - remove;
      } else {
        historyIndex := |history| - 1;
      }
    }

    /** Move the current document into the cache. */
    method CacheCurrent()
      requires Valid()
      modifies this`current, this`documents
      ensures Valid() && current.None?
      ensures documents == PutAway(old(documents), old(current), documentLimit)
    {
      if current.Some? {
        KeptIsCached(documents, current.value, settings, documentLimit);
        documents := Keep(documents, current.value, documentLimit);
        current := None;
      }
    }

    /** Bring up a location in a cached document. On success the current document takes its
        place in the cache; on failure the cached one becomes the newest entry. */
    method LoadCached(i: nat, location: DocumentLocation) returns (loaded: Result<OpenDocument, ReaderError>)
      requires Valid() && i < |documents|
      modifies this`current, this`documents
      ensures Valid()
      ensures var open := old(documents)[i];
        Reached(loaded, settings, location,
                At(open.document, open.layout, CachedCursor(open, settings, location), location))
      ensures loaded.Ok? ==>
        current.None? && documents == PutAway(Removed(old(documents), i), old(current), documentLimit)
      ensures loaded.Err? ==>
        && current == old(current)
        && documents == Kept(Removed(old(documents), i), old(documents)[i].(location := location), documentLimit)
    {
      var cached := documents[i];
      RemovedIsCached(documents, settings, documentLimit, i);
      assert cached in documents;
      documents := Removed(documents, i);
      var prepared, found := Prepare(cached, location, settings);
      if !found {
        KeptIsCached(documents, prepared, settings, documentLimit);
        documents := Keep(documents, prepared, documentLimit);
        return Err(MissingAnchor(location));
      }
      CacheCurrent();
      loaded := Ok(prepared);
    }

    /** Bring up a location in a document that must be read. On success the current document
        is put into the cache. */
    method LoadUncached(location: DocumentLocation, source: Result<Source, ReaderError>)
      returns (loaded: Result<OpenDocument, ReaderError>)
      requires Valid() && IsSource(settings, source)
      modifies this`current, this`documents
      ensures Valid()
      ensures source.Err? ==> loaded == Err(source.error)
      ensures source.Ok? ==> var read := source.value;
        Reached(loaded, settings, location,
                At(read.document, read.layout, AnchorCursorIn(read.layout, settings, location), location))
      ensures loaded.Ok? ==>
        current.None? && documents == PutAway(old(documents), old(current), documentLimit)
      ensures loaded.Err? ==> current == old(current) && documents == old(documents)
    {
      if source.Err? { return Err(source.error); }
      loaded := Build(location, source.value.document, source.value.layout, settings);
      if loaded.Ok? {
        CacheCurrent();
      }
    }

    /** Bring a location up: from the cache when its document is there, else from its
        source. On success the current document has been put away; on failure it stays. */
    method LoadLocation(location: DocumentLocation, source: Result<Source, ReaderError>)
      returns (loaded: Result<OpenDocument, ReaderError>)
      requires Valid() && IsSource(settings, source)
      modifies this`current, this`documents
      ensures Valid()
      ensures Reached(loaded, settings, location, old(Leads(location, source)))
      ensures current == if loaded.Ok? then None else old(current)
      ensures documents == DocumentsAfter(old(documents), old(current), location, loaded.Ok?, documentLimit)
    {
      var position := PositionOf(documents, location.document, 0);
      if position.Some? {
        loaded := LoadCached(position.value, location);
      } else {
        loaded := LoadUncached(location, source);
      }
    }

    /** Open a document as a new session. */
    method OpenDocument(id: string, source: Result<Source, ReaderError>) returns (opening: Result<(), ReaderError>)
      requires Ready() && IsSource(settings, source)
      modifies this`current, this`documents, this`history, this`historyIndex
      ensures Ready()
      ensures documents
        == DocumentsAfter(old(documents), old(current), DocumentLocation(id, None), opening.Ok?, documentLimit)
      ensures match old(Leads(DocumentLocation(id, None), source))
        case Err(error) =>
          && opening == Err(error) && current == old(current)
          && history == old(history) && historyIndex == old(historyIndex)
        case Ok(at) =>
          && opening.Ok? && current.Some?
          && StandsAt(current.value, settings, DocumentLocation(id, None), at)
          && history == [Snapshot(current.value)] && historyIndex == 0
    {
      var loaded := LoadLocation(DocumentLocation(id, None), source);
      if loaded.Err? { return Err(loaded.error); }
      current := Some(loaded.value);
      history, historyIndex := [Snapshot(loaded.value)], 0;
      opening := Ok(());
    }

    /** Turn one page on or back: to the first line of the page, with the history entry
        following; false and no change at the end. */
    method TurnPage(next: bool) returns (turned: Result<bool, ReaderError>)
      requires Ready()
      modifies this`current, this`history
      ensures Ready()
      ensures turned.Err? <==> old(current).None?
      ensures turned == Ok(true) <==>
        old(current).Some? && var k := old(current).value.page;
          if next then k + 1 < |Pages(old(current).value.layout, settings.style)| else k > 0
      ensures turned != Ok(true) ==> current == old(current) && history == old(history)
      ensures turned == Ok(true) ==>
        && current.Some?
        && var was, now := old(current).value, current.value;
           && now.page == (if next then was.page + 1 else was.page - 1)
           && now.layout == was.layout && now.document == was.document && now.location == was.location
           && now.page < |Pages(now.layout, settings.style)|
           && now.cursor == Pages(now.layout, settings.style)[now.page].range.start
           && now.content == AnchorAt(now.document, now.layout, now.cursor)
           && history == Noted(History(old(history), historyIndex), Snapshot(now)).entries
    {
      if current.None? { return Err(NoDocumentOpen); }
      var open := current.value;
      if next && open.page + 1 >= |open.index.pages| { return Ok(false); }
      if !next && open.page == 0 { return Ok(false); }
      var turnedTo := TurnTo(open, settings, if next then open.page + 1 else open.page - 1);
      current := Some(turnedTo);
      UpdateCurrentHistory();
      turned := Ok(true);
    }

    /** Go to a line of the current document under a new location. */
    method GoWithin(location: DocumentLocation, cursor: DocumentCursor) returns (went: bool)
      requires Ready() && current.Some?
      modifies this`current, this`history, this`historyIndex
      ensures Ready()
      ensures !went <==> old(current).value.location == location && old(current).value.cursor == cursor
      ensures !went ==> current == old(current) && history == old(history) && historyIndex == old(historyIndex)
      ensures went ==>
        && current.Some? && var was, now := old(current).value, current.value;
           && now.location == location && now.cursor == cursor
           && now.layout == was.layout && now.document == was.document
           && now.content == AnchorAt(now.document, now.layout, cursor)
           && History(history, historyIndex)
              == AfterPush(Noted(old(History(history, historyIndex)), Snapshot(was)), Snapshot(now), historyLimit)
    {
      var open := current.value;
      if open.location == location && open.cursor == cursor { return false; }
      var content := TakeAnchor(open.document, open.layout, cursor);
      var placed := PlaceAt(open.(location := location), settings, cursor, content, open.page);
      if historyIndex < |history| {
        history := history[historyIndex := Snapshot(open)];
      }
      current := Some(placed);
      PushHistory(Snapshot(placed));
      went := true;
    }

    /** Go to an anchor of the current document: the place that was left is recorded, and
        the new one is pushed. */
    method NavigateToAnchor(anchor: string) returns (moved: Result<bool, ReaderError>)
      requires Ready()
      modifies this`current, this`history, this`historyIndex
      ensures Ready()
      ensures moved != Ok(true) ==>
        current == old(current) && history == old(history) && historyIndex == old(historyIndex)
      ensures old(current).None? <==> moved == Err(NoDocumentOpen)
      ensures old(current).Some? ==>
        var was := old(current).value;
        var at := AnchorCursor(was, anchor);
        && (at.None? <==> moved == Err(AnchorNotFound(was.location.document, anchor)))
        && (at.Some? ==>
             (moved == Ok(false) <==> was.cursor == at.value && was.location.anchor == Some(anchor)))
        && (moved == Ok(true) ==>
             && current.Some? && at.Some?
             && current.value.location == was.location.(anchor := Some(anchor))
             && current.value.cursor == at.value && current.value.layout == was.layout
             && current.value.document == was.document
             && current.value.content == AnchorAt(was.document, was.layout, at.value)
             && History(history, historyIndex)
                == AfterPush(Noted(old(History(history, historyIndex)), Snapshot(was)),
                          Snapshot(current.value), historyLimit))
    {
      if current.None? { return Err(NoDocumentOpen); }
      var open := current.value;
      var at := AnchorCursor(open, anchor);
      if at.None? { return Err(AnchorNotFound(open.location.document, anchor)); }
      var went := GoWithin(open.location.(anchor := Some(anchor)), at.value);
      moved := Ok(went);
    }

    /** Follow a link to a location. The document that is left goes into the cache before
        the history is written, so its entry stays as the last page turn left it. */
    method NavigateToLocation(location: DocumentLocation, source: Result<Source, ReaderError>)
      returns (moved: Result<(), ReaderError>)
      requires Ready() && IsSource(settings, source)
      modifies this`current, this`documents, this`history, this`historyIndex
      ensures Ready()
      ensures documents == DocumentsAfter(old(documents), old(current), location, moved.Ok?, documentLimit)
      ensures match old(Leads(location, source))
        case Err(error) =>
          && moved == Err(error) && current == old(current)
          && history == old(history) && historyIndex == old(historyIndex)
        case Ok(at) =>
          && moved.Ok? && current.Some? && StandsAt(current.value, settings, location, at)
          && History(history, historyIndex)
             == AfterPush(old(History(history, historyIndex)), Snapshot(current.value), historyLimit)
    {
      var loaded := LoadLocation(location, source);
      if loaded.Err? { return Err(loaded.error); }
      var open := loaded.value;
      var content := TakeAnchor(open.document, open.layout, open.cursor);
      var placed := PlaceAt(open, settings, open.cursor, content, open.page);
      UpdateCurrentHistory();
      PushHistory(Snapshot(placed));
      current := Some(placed);
      moved := Ok(());
    }

    /** Return to a history entry: to its recorded content. */
    method RestoreEntry(i: nat, source: Result<Source, ReaderError>) returns (restored: Result<(), ReaderError>)
      requires Valid() && i < |history| && IsSource(settings, source)
      modifies this`current, this`documents, this`historyIndex
      ensures Valid() && (restored.Ok? ==> current.Some?)
      ensures documents == DocumentsAfter(old(documents), old(current), history[i].location, restored.Ok?, documentLimit)
      ensures restored == Outcome(old(Leads(history[i].location, source)), ())
      ensures restored.Err? ==> current == old(current) && historyIndex == old(historyIndex)
      ensures restored.Ok? ==>
        historyIndex == i && IsRestored(current.value, history[i], old(Leads(history[i].location, source)).value)
    {
      var target := history[i];
      var loaded := LoadLocation(target.location, source);
      if loaded.Err? { return Err(loaded.error); }
      var open := Restore(loaded.value, target, settings);
      current := Some(open);
      historyIndex := i;
      restored := Ok(());
    }

    /** Record the present position, and find the entry to move to. */
    method NoteAndStep(back: bool, ghost source: Result<Source, ReaderError>) returns (target: Option<nat>)
      requires Ready() && current.Some? && IsSource(settings, source)
      modifies this`history
      ensures Valid()
      ensures history == Noted(old(History(history, historyIndex)), Snapshot(current.value)).entries
      ensures target == Step(back, old(History(history, historyIndex)))
      ensures target.Some? ==>
        && target.value < |history| && history[target.value] == old(history)[target.value]
        && Leads(history[target.value].location, source) == old(Leads(history[target.value].location, source))
    {
      UpdateCurrentHistory();
      target := Step(back, History(history, historyIndex));
    }

    /** Go back or forward in the history. */
    method MoveHistory(back: bool, source: Result<Source, ReaderError>) returns (moved: Result<bool, ReaderError>)
      requires Ready() && IsSource(settings, source)
      modifies this`current, this`documents, this`history, this`historyIndex
      ensures Ready()
      ensures old(current).None? ==> moved == Err(NoDocumentOpen) && history == old(history)
      ensures old(current).Some? ==>
        history == Noted(old(History(history, historyIndex)), Snapshot(old(current).value)).entries
      ensures old(current).Some? ==>
        match Step(back, old(History(history, historyIndex)))
        case None => moved == Ok(false)
        case Some(i) => moved == Outcome(old(Leads(history[i].location, source)), true)
      ensures moved != Ok(true) ==> current == old(current) && historyIndex == old(historyIndex)
      ensures moved == Ok(true) ==>
        && current.Some? && Some(historyIndex) == Step(back, old(History(history, historyIndex)))
        && var target := old(history)[historyIndex];
           && history[historyIndex] == target
           && IsRestored(current.value, target, old(Leads(target.location, source)).value)
    {
      if current.None? { return Err(NoDocumentOpen); }
      var i := NoteAndStep(back, source);
      if i.None? { return Ok(false); }
      var restored := RestoreEntry(i.value, source);
      if restored.Err? { return Err(restored.error); }
      moved := Ok(true);
    }

    /** Lay the current document out anew. The content anchor stays what it was; the cursor
        is the line that shows it in the new layout; only the current history entry
        changes; documents laid out for the old settings are dropped. */
    method Reflow(settings': Settings, layout: DocumentLayout) returns (reflowed: Result<bool, ReaderError>)
      requires Ready()
      requires settings'.pageLimit == settings.pageLimit
      requires current.Some? ==> IsLayoutOf(settings', current.value.document, layout)
      modifies this`settings, this`current, this`documents, this`history
      ensures Ready()
      ensures old(current).None? ==>
        && reflowed == Ok(false) && settings == settings' && current.None?
        && documents == old(documents) && history == old(history)
      ensures old(current).Some? ==>
        && documents == []
        && var location := old(current).value.location;
           reflowed == if AnchorCursorIn(layout, settings', location).Some? then Ok(true) else Err(MissingAnchor(location))
      ensures reflowed.Err? ==> settings == old(settings) && current == old(current) && history == old(history)
      ensures reflowed == Ok(true) ==>
        && settings == settings' && old(current).Some? && current.Some?
        && var was, now := old(current).value, current.value;
           && now.layout == layout && now.document == was.document && now.location == was.location
           && now.content == was.content
           && Some(now.cursor) == CursorOf(was.document, layout, was.content)
           && history == Noted(History(old(history), historyIndex), Snapshot(now)).entries
    {
      if current.None? {
        settings := settings';
        return Ok(false);
      }
      var open := current.value;
      documents := [];
      var built := Build(open.location, open.document, layout, settings');
      if built.Err? { return Err(built.error); }
      var cursor := RestoreAnchor(open.document, layout, open.content);
      PageForIsThePage(built.value, settings', cursor.GetOr(built.value.cursor));
      var last := |built.value.index.pages| - 1;
      var placed := PlaceAt(built.value, settings', cursor.GetOr(built.value.cursor), open.content,
                            if built.value.page <= last then built.value.page else last);
      settings := settings';
      current := Some(placed);
      UpdateCurrentHistory();
      reflowed := Ok(true);
    }
  }
}
