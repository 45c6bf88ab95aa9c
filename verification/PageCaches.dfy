/** The bounded cache of rebuilt pages that an open document keeps. */
module PageCaches {
  import opened Options
  import opened DisplayLists

  type CacheEntry = (nat, PageLayout)

  datatype PageCache = PageCache(capacity: nat, entries: seq<CacheEntry>)

  function EmptyCache(capacity: nat): PageCache {
    PageCache(if capacity < 1 then 1 else capacity, [])
  }

  function PositionFrom(entries: seq<CacheEntry>, index: nat, i: nat): (position: Option<nat>)
    requires i <= |entries|
    ensures position.None? ==> forall j | i <= j < |entries| :: entries[j].0 != index
    ensures position.Some? ==> i <= position.value < |entries| && entries[position.value].0 == index
    ensures position.Some? ==> forall j | i <= j < position.value :: entries[j].0 != index
    decreases |entries| - i
  {
    if i == |entries| then None
    else if entries[i].0 == index then Some(i)
    else PositionFrom(entries, index, i + 1)
  }

  function Position(entries: seq<CacheEntry>, index: nat): Option<nat> {
    PositionFrom(entries, index, 0)
  }

  function Get(cache: PageCache, index: nat): Option<PageLayout> {
    match Position(cache.entries, index)
    case None => None
    case Some(i) => Some(cache.entries[i].1)
  }

  predicate HoldsPage(cache: PageCache, index: nat) {
    Position(cache.entries, index).Some?
  }

  /** No page twice, never more than the capacity, which is at least one. */
  ghost predicate IsBounded(cache: PageCache) {
    && 1 <= cache.capacity && |cache.entries| <= cache.capacity
    && AreDistinct(cache.entries)
  }

  function Without(entries: seq<CacheEntry>, index: nat): seq<CacheEntry> {
    match Position(entries, index)
    case None => entries
    case Some(i) => entries[..i] + entries[i + 1..]
  }

  function LastOf<T>(entries: seq<T>, n: nat): seq<T> {
    if |entries| <= n then entries else entries[|entries| - n..]
  }

  /** The page becomes the newest entry; the oldest entries give way. */
  function Inserted(cache: PageCache, index: nat, page: PageLayout): PageCache {
    cache.(entries :=
      LastOf(Without(cache.entries, index), if cache.capacity == 0 then 0 else cache.capacity - 1) + [(index, page)])
  }

  /** Drop the oldest until there is room for one more. */
  method EvictBelow<T>(all: seq<T>, capacity: nat) returns (entries: seq<T>)
    requires 1 <= capacity
    ensures entries == LastOf(all, capacity - 1)
  {
    entries := all;
    while |entries| >= capacity
      invariant |entries| <= |all| && entries == all[|all| - |entries|..]
      invariant |entries| < |all| ==> |entries| >= capacity - 1
    {
      entries := entries[1..];
    }
  }

  method Insert(cache: PageCache, index: nat, page: PageLayout) returns (after: PageCache)
    requires 1 <= cache.capacity
    ensures after == Inserted(cache, index, page)
  {
    var entries := cache.entries;
    var position := Position(entries, index);
    if position.Some? {
      entries := entries[..position.value] + entries[position.value + 1..];
    }
    entries := EvictBelow(entries, cache.capacity);
    after := cache.(entries := entries + [(index, page)]);
  }

  ghost predicate AreDistinct(entries: seq<CacheEntry>) {
    forall i, j | 0 <= i < j < |entries| :: entries[i].0 != entries[j].0
  }

  lemma WithoutDropsThePage(entries: seq<CacheEntry>, index: nat)
    requires AreDistinct(entries)
    ensures AreDistinct(Without(entries, index)) && |Without(entries, index)| <= |entries|
    ensures forall e | e in Without(entries, index) :: e in entries && e.0 != index
  {
    var position := Position(entries, index);
    if position.Some? {
      var p, without := position.value, Without(entries, index);
      forall i | 0 <= i < |without| ensures without[i] in entries && without[i].0 != index {
        assert without[i] == entries[if i < p then i else i + 1];
      }
      assert forall i | 0 <= i < |without| :: without[i] == entries[if i < p then i else i + 1];
    }
  }

  lemma AppendedIsFound(entries: seq<CacheEntry>, index: nat, page: PageLayout)
    requires AreDistinct(entries) && forall e | e in entries :: e.0 != index
    ensures Get(PageCache(1, entries + [(index, page)]), index) == Some(page)
    ensures AreDistinct(entries + [(index, page)])
  {
    var all := entries + [(index, page)];
    assert all[|entries|] == (index, page);
    assert forall i | 0 <= i < |entries| :: all[i] == entries[i] && entries[i] in entries;
  }

  lemma NewestAreEntries(entries: seq<CacheEntry>, n: nat)
    requires AreDistinct(entries)
    ensures AreDistinct(LastOf(entries, n)) && |LastOf(entries, n)| <= n
    ensures forall e | e in LastOf(entries, n) :: e in entries
  {
  }

  /** Inserting keeps the cache bounded, makes the page available, and keeps every other
      page that survives unchanged. */
  lemma InsertedIsBounded(cache: PageCache, index: nat, page: PageLayout)
    requires IsBounded(cache)
    ensures var after := Inserted(cache, index, page);
      && IsBounded(after) && after.capacity == cache.capacity
      && Get(after, index) == Some(page)
      && forall e | e in after.entries :: e == (index, page) || e in cache.entries
  {
    var without := Without(cache.entries, index);
    WithoutDropsThePage(cache.entries, index);
    NewestAreEntries(without, cache.capacity - 1);
    AppendedIsFound(LastOf(without, cache.capacity - 1), index, page);
  }

  lemma GetIsAnEntry(cache: PageCache, index: nat)
    requires HoldsPage(cache, index)
    ensures (index, Get(cache, index).value) in cache.entries
  {
  }
}
