/** The simple reading session: a location, a page number, and a history of locations. */
module ReaderSessions {
  import opened Options
  import opened Navigation

  class ReaderHistory {
    var entries: seq<DocumentLocation>
    var cursor: nat

    /** There is a current entry, and neighbouring entries differ. */
    ghost predicate Valid()
      reads this
    {
      && cursor < |entries|
      && forall i, j | 0 <= i < |entries| - 1 && j == i + 1 :: entries[i] != entries[j]
    }

    function Current(): DocumentLocation
      requires Valid()
      reads this
    {
      entries[cursor]
    }

    predicate CanGoBack()
      reads this
    {
      cursor > 0
    }

    predicate CanGoForward()
      reads this
    {
      cursor + 1 < |entries|
    }

    constructor (initial: DocumentLocation)
      ensures Valid() && entries == [initial] && cursor == 0
    {
      entries, cursor := [initial], 0;
    }

    method Push(location: DocumentLocation)
      requires Valid()
      modifies this
      ensures Valid() && Current() == location
      ensures old(Current()) == location ==> entries == old(entries) && cursor == old(cursor)
      ensures old(Current()) != location ==>
        entries == old(entries)[..old(cursor) + 1] + [location] && cursor == old(cursor) + 1
    {
      if entries[cursor] == location { return; }
      entries := entries[..cursor + 1];
      entries := entries + [location];
      cursor := |entries| - 1;
    }

    method Back() returns (location: Option<DocumentLocation>)
      requires Valid()
      modifies this
      ensures Valid() && entries == old(entries)
      ensures location.Some? <==> old(CanGoBack())
      ensures location.Some? ==> cursor == old(cursor) - 1 && location.value == Current()
      ensures location.None? ==> cursor == old(cursor)
      ensures location.Some? ==> location.value != old(Current())
    {
      if cursor == 0 { return None; }
      cursor := cursor - 1;
      assert entries[cursor] != entries[cursor + 1];
      location := Some(entries[cursor]);
    }

    method Forward() returns (location: Option<DocumentLocation>)
      requires Valid()
      modifies this
      ensures Valid() && entries == old(entries)
      ensures location.Some? <==> old(CanGoForward())
      ensures location.Some? ==> cursor == old(cursor) + 1 && location.value == Current()
      ensures location.None? ==> cursor == old(cursor)
      ensures location.Some? ==> location.value != old(Current())
    {
      if cursor + 1 >= |entries| { return None; }
      assert entries[cursor] != entries[cursor + 1];
      cursor := cursor + 1;
      location := Some(entries[cursor]);
    }
  }

  class ReaderSession {
    var location: DocumentLocation
    const history: ReaderHistory
    var page: nat
    var pageCount: nat

    /** The location is the current history entry, and the page is one of the pages. */
    ghost predicate Valid()
      reads this, history
    {
      && history.Valid()
      && location == history.Current()
      && page < pageCount
    }

    constructor (location: DocumentLocation, pageCount: nat)
      ensures Valid() && fresh(history) && this.location == location && page == 0
      ensures history.entries == [location]
    {
      this.location := location;
      history := new ReaderHistory(location);
      page := 0;
      this.pageCount := if pageCount < 1 then 1 else pageCount;
    }

    method SetPageCount(count: nat)
      requires Valid()
      modifies this`page, this`pageCount
      ensures Valid() && pageCount == (if count < 1 then 1 else count)
      ensures page == if old(page) < pageCount then old(page) else pageCount - 1
    {
      pageCount := if count < 1 then 1 else count;
      page := if page < pageCount - 1 then page else pageCount - 1;
    }

    method NextPage() returns (turned: bool)
      requires Valid()
      modifies this`page
      ensures Valid() && turned == (old(page) + 1 < pageCount)
      ensures page == if turned then old(page) + 1 else old(page)
    {
      turned := page + 1 < pageCount;
      if turned {
        page := page + 1;
      }
    }

    method PreviousPage() returns (turned: bool)
      requires Valid()
      modifies this`page
      ensures Valid() && turned == (old(page) > 0)
      ensures page == if turned then old(page) - 1 else old(page)
    {
      turned := page > 0;
      if turned {
        page := page - 1;
      }
    }

    /** Follow a link inside the library; assets and external links are not locations. */
    method Open(target: NavigationTarget) returns (followed: bool)
      requires Valid()
      modifies this`location, this`page, history
      ensures Valid()
      ensures followed <==> !target.Asset? && !target.External?
      ensures !followed ==>
        location == old(location) && page == old(page) && history.entries == old(history.entries)
        && history.cursor == old(history.cursor)
      ensures followed ==> page == 0 && location == TargetLocation(old(location), target)
      ensures followed && TargetLocation(old(location), target) != old(location) ==>
        && history.entries == old(history.entries)[..old(history.cursor) + 1] + [location]
        && history.cursor == old(history.cursor) + 1
      ensures followed && TargetLocation(old(location), target) == old(location) ==>
        history.entries == old(history.entries) && history.cursor == old(history.cursor)
    {
      if target.Asset? || target.External? { return false; }
      var next := TargetLocation(location, target);
      history.Push(next);
      location := next;
      page := 0;
      followed := true;
    }

    /** Go back or forward. The check that the new location differs from the present one
        never stops the move: it succeeds whenever the history has an entry there. */
    method Move(back: bool) returns (moved: bool)
      requires Valid()
      modifies this`location, this`page, history
      ensures Valid() && history.entries == old(history.entries)
      ensures moved == if back then old(history.CanGoBack()) else old(history.CanGoForward())
      ensures moved ==>
        && page == 0
        && history.cursor == (if back then old(history.cursor) - 1 else old(history.cursor) + 1)
        && location == history.entries[history.cursor] && location != old(location)
      ensures !moved ==>
        page == old(page) && location == old(location) && history.cursor == old(history.cursor)
    {
      var next;
      if back {
        next := history.Back();
      } else {
        next := history.Forward();
      }
      if next.None? { return false; }
      if next.value == location { return false; }
      location := next.value;
      page := 0;
      moved := true;
    }
  }

  function TargetLocation(here: DocumentLocation, target: NavigationTarget): DocumentLocation {
    match target
    case Location(location) => location
    case Anchor(anchor) => DocumentLocation(here.document, Some(anchor))
    case Document(document) => DocumentLocation(document, None)
    case DocumentAnchor(document, anchor) => DocumentLocation(document, Some(anchor))
    case _ => here
  }
}
