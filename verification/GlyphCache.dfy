/** The cache of rasterized glyphs: bounded in entries and in bytes, least recently used
    first out. */
module GlyphCaches {
  import opened Options

  datatype FontFace =
    | Regular | Bold | Italic | BoldItalic
    | Monospace | MonospaceBold | MonospaceItalic | MonospaceBoldItalic

  datatype GlyphKey = GlyphKey(face: FontFace, glyph: nat, size: nat)

  datatype GlyphBitmap = GlyphBitmap(
    width: nat, height: nat, left: int, top: int, advance: real, alpha: seq<bv8>)

  type CacheEntry = (GlyphKey, GlyphBitmap)

  function ByteLength(bitmap: GlyphBitmap): nat {
    |bitmap.alpha|
  }

  function Bytes(entries: seq<CacheEntry>): nat {
    if entries == [] then 0 else ByteLength(entries[0].1) + Bytes(entries[1..])
  }

  function KeysOf(entries: seq<CacheEntry>): (keys: seq<GlyphKey>)
    ensures |keys| == |entries| && forall i | 0 <= i < |keys| :: keys[i] == entries[i].0
  {
    seq(|entries|, i requires 0 <= i < |entries| => entries[i].0)
  }

  predicate AreDistinct<T(==)>(s: seq<T>) {
    forall i, j | 0 <= i < j < |s| :: s[i] != s[j]
  }

  function PositionFrom<T(==)>(s: seq<T>, x: T, i: nat): (position: Option<nat>)
    requires i <= |s|
    ensures position.None? ==> forall j | i <= j < |s| :: s[j] != x
    ensures position.Some? ==> i <= position.value < |s| && s[position.value] == x
    ensures position.Some? ==> forall j | i <= j < position.value :: s[j] != x
    decreases |s| - i
  {
    if i == |s| then None else if s[i] == x then Some(i) else PositionFrom(s, x, i + 1)
  }

  function Drop<T>(s: seq<T>, i: nat): seq<T>
    requires i < |s|
  {
    s[..i] + s[i + 1..]
  }

  function Without(entries: seq<CacheEntry>, key: GlyphKey): seq<CacheEntry> {
    match PositionFrom(KeysOf(entries), key, 0)
    case None => entries
    case Some(i) => Drop(entries, i)
  }

  /** There is room for one more entry of a size. */
  predicate HasRoom(entries: seq<CacheEntry>, capacity: nat, byteCapacity: nat, size: nat) {
    |entries| < capacity && Bytes(entries) + size <= byteCapacity
  }

  /** How many of the oldest entries must go to leave room: no more than that. */
  function EvictionPoint(entries: seq<CacheEntry>, capacity: nat, byteCapacity: nat, size: nat, from: nat): (i: nat)
    requires 0 < capacity && size <= byteCapacity && from <= |entries|
    ensures from <= i <= |entries| && HasRoom(entries[i..], capacity, byteCapacity, size)
    ensures forall j | from <= j < i :: !HasRoom(entries[j..], capacity, byteCapacity, size)
    decreases |entries| - from
  {
    if from == |entries| || HasRoom(entries[from..], capacity, byteCapacity, size) then from
    else EvictionPoint(entries, capacity, byteCapacity, size, from + 1)
  }

  /** The longest suffix that leaves room. */
  function Evicted(entries: seq<CacheEntry>, capacity: nat, byteCapacity: nat, size: nat): (left: seq<CacheEntry>)
    requires 0 < capacity && size <= byteCapacity
    ensures HasRoom(left, capacity, byteCapacity, size) && IsSuffix(left, entries)
  {
    entries[EvictionPoint(entries, capacity, byteCapacity, size, 0)..]
  }

  predicate IsSuffix<T(==)>(suffix: seq<T>, s: seq<T>) {
    |suffix| <= |s| && suffix == s[|s| - |suffix|..]
  }

  // ---- sizes ---------------------------------------------------------------------------

  lemma {:induction false} BytesJoin(a: seq<CacheEntry>, b: seq<CacheEntry>)
    ensures Bytes(a + b) == Bytes(a) + Bytes(b)
  {
    if a == [] {
      assert a + b == b;
    } else {
      assert (a + b)[1..] == a[1..] + b;
      BytesJoin(a[1..], b);
    }
  }

  lemma {:induction false} BytesWithoutOne(entries: seq<CacheEntry>, i: nat)
    requires i < |entries|
    ensures Bytes(entries) == Bytes(Drop(entries, i)) + ByteLength(entries[i].1)
  {
    if i == 0 {
      assert Drop(entries, 0) == entries[1..];
    } else {
      assert Drop(entries, i)[1..] == Drop(entries[1..], i - 1);
      BytesWithoutOne(entries[1..], i - 1);
    }
  }

  lemma OneEntry(entry: CacheEntry)
    ensures Bytes([entry]) == ByteLength(entry.1)
  {
    assert [entry][1..] == [];
  }

  // ---- the cache ----------------------------------------------------------------------------

  class GlyphCache {
    const capacity: nat
    const byteCapacity: nat
    var bytes: nat
    var entries: seq<CacheEntry>

    /** The byte count is exact, both bounds hold, and no key is stored twice. */
    ghost predicate Valid()
      reads this
    {
      && bytes == Bytes(entries) <= byteCapacity
      && |entries| <= capacity
      && AreDistinct(KeysOf(entries))
    }

    constructor (capacity: nat, byteCapacity: nat)
      ensures Valid() && entries == [] && this.capacity == capacity && this.byteCapacity == byteCapacity
    {
      this.capacity, this.byteCapacity, bytes, entries := capacity, byteCapacity, 0, [];
    }

    method RemoveAt(i: nat) returns (entry: CacheEntry)
      requires Valid() && i < |entries|
      modifies this
      ensures Valid() && entries == Drop(old(entries), i) && entry == old(entries)[i]
      ensures bytes + ByteLength(entry.1) == old(bytes) && entry.0 !in KeysOf(entries)
    {
      entry := entries[i];
      BytesWithoutOne(entries, i);
      DroppedKeys(entries, i);
      entries := Drop(entries, i);
      bytes := bytes - ByteLength(entry.1);
    }

    method PushBack(entry: CacheEntry)
      requires Valid() && entry.0 !in KeysOf(entries)
      requires HasRoom(entries, capacity, byteCapacity, ByteLength(entry.1))
      modifies this
      ensures Valid() && entries == old(entries) + [entry]
    {
      BytesJoin(entries, [entry]);
      OneEntry(entry);
      AppendedKeys(entries, entry);
      bytes := bytes + ByteLength(entry.1);
      entries := entries + [entry];
    }

    /** A stored bitmap; finding it makes it the newest entry. */
    method Get(key: GlyphKey) returns (bitmap: Option<GlyphBitmap>)
      requires Valid()
      modifies this
      ensures Valid()
      ensures bitmap.Some? <==> key in KeysOf(old(entries))
      ensures bitmap.Some? ==>
        (key, bitmap.value) in old(entries) && entries == Without(old(entries), key) + [(key, bitmap.value)]
      ensures bitmap.None? ==> entries == old(entries)
    {
      var position := PositionFrom(KeysOf(entries), key, 0);
      if position.None? { return None; }
      var entry := RemoveAt(position.value);
      PushBack(entry);
      bitmap := Some(entry.1);
    }

    /** Store a bitmap as the newest entry, unless it can never fit; the oldest entries go
        until both bounds hold, and no more than that. */
    method Insert(key: GlyphKey, bitmap: GlyphBitmap)
      requires Valid()
      modifies this
      ensures Valid()
      ensures entries == AfterInsert(old(entries), capacity, byteCapacity, key, bitmap)
    {
      var size := ByteLength(bitmap);
      if capacity == 0 || size > byteCapacity { return; }
      var position := PositionFrom(KeysOf(entries), key, 0);
      if position.Some? {
        var previous := RemoveAt(position.value);
      }
      ghost var others := entries;
      Evict(size);
      SuffixOfKeys(entries, others);
      PushBack((key, bitmap));
    }

    method Evict(size: nat)
      requires Valid() && 0 < capacity && size <= byteCapacity
      modifies this
      ensures Valid() && entries == Evicted(old(entries), capacity, byteCapacity, size)
    {
      ghost var all, n := entries, 0;
      while |entries| >= capacity || bytes + size > byteCapacity
        invariant Valid()
        invariant n <= |all| && entries == all[n..]
        invariant EvictionPoint(all, capacity, byteCapacity, size, n)
               == EvictionPoint(all, capacity, byteCapacity, size, 0)
        decreases |entries|
      {
        SuffixKeys(entries);
        bytes := bytes - ByteLength(entries[0].1);
        entries := entries[1..];
        n := n + 1;
      }
    }

    method Clear()
      modifies this
      ensures Valid() && entries == []
    {
      entries := [];
      bytes := 0;
    }
  }

  function AfterInsert(
    entries: seq<CacheEntry>, capacity: nat, byteCapacity: nat, key: GlyphKey, bitmap: GlyphBitmap): seq<CacheEntry>
  {
    if capacity == 0 || ByteLength(bitmap) > byteCapacity then entries
    else Evicted(Without(entries, key), capacity, byteCapacity, ByteLength(bitmap)) + [(key, bitmap)]
  }

  lemma DroppedKeys(entries: seq<CacheEntry>, i: nat)
    requires i < |entries| && AreDistinct(KeysOf(entries))
    ensures KeysOf(Drop(entries, i)) == Drop(KeysOf(entries), i)
    ensures AreDistinct(KeysOf(Drop(entries, i))) && entries[i].0 !in KeysOf(Drop(entries, i))
  {
    var dropped := Drop(entries, i);
    assert forall k | 0 <= k < |dropped| :: dropped[k] == entries[if k < i then k else k + 1];
  }

  lemma AppendedKeys(entries: seq<CacheEntry>, entry: CacheEntry)
    requires AreDistinct(KeysOf(entries)) && entry.0 !in KeysOf(entries)
    ensures KeysOf(entries + [entry]) == KeysOf(entries) + [entry.0]
    ensures AreDistinct(KeysOf(entries + [entry]))
  {
  }

  lemma SuffixKeys(entries: seq<CacheEntry>)
    requires entries != [] && AreDistinct(KeysOf(entries))
    ensures KeysOf(entries[1..]) == KeysOf(entries)[1..] && AreDistinct(KeysOf(entries[1..]))
  {
  }

  // ---- the engine ---------------------------------------------------------------------------

  /** Keys that were asked for, least recently first. */
  function Used(recency: seq<GlyphKey>, key: GlyphKey): seq<GlyphKey> {
    (match PositionFrom(recency, key, 0)
     case None => recency
     case Some(i) => Drop(recency, i)) + [key]
  }

  lemma UsedStaysDistinct(recency: seq<GlyphKey>, key: GlyphKey)
    requires AreDistinct(recency)
    ensures AreDistinct(Used(recency, key))
  {
    var position := PositionFrom(recency, key, 0);
    if position.Some? {
      var dropped := Drop(recency, position.value);
      assert forall k | 0 <= k < |dropped| :: dropped[k] == recency[if k < position.value then k else k + 1];
    }
  }

  /** A suffix of the recency order, with the key moved or appended at the end, is a suffix
      of the new recency order. */
  lemma UsedKeepsSuffix(suffix: seq<GlyphKey>, recency: seq<GlyphKey>, key: GlyphKey)
    requires IsSuffix(suffix, recency) && AreDistinct(recency)
    ensures var rest := match PositionFrom(suffix, key, 0)
                        case None => suffix
                        case Some(i) => Drop(suffix, i);
      IsSuffix(rest + [key], Used(recency, key))
  {
    var shift := |recency| - |suffix|;
    assert forall i | 0 <= i < |suffix| :: suffix[i] == recency[shift + i];
    var position := PositionFrom(recency, key, 0);
    var inner := PositionFrom(suffix, key, 0);
    if inner.Some? {
      assert recency[shift + inner.value] == key;
      assert position.value == shift + inner.value;
    }
  }

  lemma SuffixOfSuffix<T>(a: seq<T>, b: seq<T>, c: seq<T>)
    requires IsSuffix(a, b) && IsSuffix(b, c)
    ensures IsSuffix(a, c)
  {
  }

  lemma SuffixAppend<T>(a: seq<T>, b: seq<T>, x: T)
    requires IsSuffix(a, b)
    ensures IsSuffix(a + [x], b + [x])
  {
  }

  predicate IsCacheable(capacity: nat, byteCapacity: nat, bitmap: GlyphBitmap) {
    capacity > 0 && ByteLength(bitmap) <= byteCapacity
  }

  /** Every stored bitmap is the one the font gives, and the stored keys are the most
      recently used ones. */
  ghost predicate IsRecent(entries: seq<CacheEntry>, recency: seq<GlyphKey>, rasterize: GlyphKey -> GlyphBitmap) {
    && (forall e | e in entries :: e.1 == rasterize(e.0))
    && AreDistinct(recency)
    && IsSuffix(KeysOf(entries), recency)
  }

  /** The entries after a request for a key. */
  function AfterRequest(
    entries: seq<CacheEntry>, capacity: nat, byteCapacity: nat, key: GlyphKey, bitmap: GlyphBitmap): seq<CacheEntry>
  {
    if key in KeysOf(entries) then Without(entries, key) + [(key, bitmap)]
    else AfterInsert(entries, capacity, byteCapacity, key, bitmap)
  }

  function RecencyAfter(recency: seq<GlyphKey>, capacity: nat, byteCapacity: nat, key: GlyphKey, bitmap: GlyphBitmap)
    : seq<GlyphKey>
  {
    if IsCacheable(capacity, byteCapacity, bitmap) then Used(recency, key) else recency
  }

  class TextEngine {
    const rasterize: GlyphKey -> GlyphBitmap
    const cache: GlyphCache
    var cacheHits: nat
    var rasterizations: nat
    /** The cacheable keys asked for since the cache was last cleared, by last use. */
    ghost var recency: seq<GlyphKey>

    ghost predicate Valid()
      reads this, cache
    {
      cache.Valid() && IsRecent(cache.entries, recency, rasterize)
    }

    constructor (rasterize: GlyphKey -> GlyphBitmap, capacity: nat, byteCapacity: nat)
      ensures Valid() && fresh(cache) && this.rasterize == rasterize
      ensures recency == [] && cacheHits == 0 && rasterizations == 0
    {
      this.rasterize := rasterize;
      cache := new GlyphCache(capacity, byteCapacity);
      cacheHits, rasterizations, recency := 0, 0, [];
    }

    method Fetch(key: GlyphKey) returns (bitmap: GlyphBitmap)
      requires cache.Valid() && forall e | e in cache.entries :: e.1 == rasterize(e.0)
      modifies this`cacheHits, this`rasterizations, cache
      ensures cache.Valid() && bitmap == rasterize(key)
      ensures cache.entries == AfterRequest(old(cache.entries), cache.capacity, cache.byteCapacity, key, bitmap)
      ensures cacheHits == old(cacheHits) + (if key in KeysOf(old(cache.entries)) then 1 else 0)
      ensures rasterizations == old(rasterizations) + (if key in KeysOf(old(cache.entries)) then 0 else 1)
    {
      var found := cache.Get(key);
      if found.Some? {
        cacheHits := cacheHits + 1;
        return found.value;
      }
      bitmap := rasterize(key);
      rasterizations := rasterizations + 1;
      cache.Insert(key, bitmap);
    }

    /** The bitmap of a glyph: always what the font gives, from the cache or not. */
    method RasterizeGlyph(face: FontFace, glyph: nat, size: nat) returns (bitmap: GlyphBitmap)
      requires Valid()
      modifies this, cache
      ensures Valid()
      ensures var key := GlyphKey(face, glyph, if size < 1 then 1 else size);
        && bitmap == rasterize(key)
        && cache.entries == AfterRequest(old(cache.entries), cache.capacity, cache.byteCapacity, key, bitmap)
        && recency == RecencyAfter(old(recency), cache.capacity, cache.byteCapacity, key, bitmap)
        && cacheHits == old(cacheHits) + (if key in KeysOf(old(cache.entries)) then 1 else 0)
        && rasterizations == old(rasterizations) + (if key in KeysOf(old(cache.entries)) then 0 else 1)
    {
      var key := GlyphKey(face, glyph, if size < 1 then 1 else size);
      RequestKeepsRecency(cache.entries, recency, cache.capacity, cache.byteCapacity, key, rasterize);
      bitmap := Fetch(key);
      recency := RecencyAfter(recency, cache.capacity, cache.byteCapacity, key, bitmap);
    }

    method ClearCache()
      requires Valid()
      modifies this, cache
      ensures Valid() && cache.entries == [] && recency == []
      ensures cacheHits == old(cacheHits) && rasterizations == old(rasterizations)
    {
      cache.Clear();
      recency := [];
    }
  }

  /** A request keeps the cache a true copy of the most recently used keys, and a key that
      can be stored is stored. */
  lemma RequestKeepsRecency(
    entries: seq<CacheEntry>, recency: seq<GlyphKey>, capacity: nat, byteCapacity: nat, key: GlyphKey,
    rasterize: GlyphKey -> GlyphBitmap)
    requires IsRecent(entries, recency, rasterize) && AreDistinct(KeysOf(entries))
    requires |entries| <= capacity && Bytes(entries) <= byteCapacity
    ensures var bitmap := rasterize(key);
      var after := AfterRequest(entries, capacity, byteCapacity, key, bitmap);
      && IsRecent(after, RecencyAfter(recency, capacity, byteCapacity, key, bitmap), rasterize)
      && (IsCacheable(capacity, byteCapacity, bitmap) ==> key in KeysOf(after))
  {
    var bitmap := rasterize(key);
    if key in KeysOf(entries) {
      var i :| 0 <= i < |entries| && KeysOf(entries)[i] == key;
      assert entries[i] in entries;
      CachedIsCacheable(entries, (key, bitmap), capacity, byteCapacity);
      HitKeepsRecency(entries, recency, (key, bitmap));
    } else if IsCacheable(capacity, byteCapacity, bitmap) {
      MissKeepsRecency(entries, recency, capacity, byteCapacity, key, bitmap);
    }
  }

  lemma CachedIsCacheable(entries: seq<CacheEntry>, entry: CacheEntry, capacity: nat, byteCapacity: nat)
    requires entry in entries && |entries| <= capacity && Bytes(entries) <= byteCapacity
    ensures capacity > 0 && ByteLength(entry.1) <= byteCapacity
  {
    var i :| 0 <= i < |entries| && entries[i] == entry;
    BytesWithoutOne(entries, i);
  }

  /** A hit moves the key to the end of the key order. */
  lemma HitKeys(entries: seq<CacheEntry>, entry: CacheEntry)
    requires AreDistinct(KeysOf(entries)) && entry in entries
    ensures var position := PositionFrom(KeysOf(entries), entry.0, 0);
      && position.Some?
      && KeysOf(Without(entries, entry.0) + [entry]) == Drop(KeysOf(entries), position.value) + [entry.0]
    ensures entry.0 in KeysOf(Without(entries, entry.0) + [entry])
    ensures forall e | e in Without(entries, entry.0) + [entry] :: e in entries
  {
    var position := PositionFrom(KeysOf(entries), entry.0, 0);
    var j :| 0 <= j < |entries| && entries[j] == entry;
    assert KeysOf(entries)[j] == entry.0;
    DroppedKeys(entries, position.value);
    AppendedKeys(Drop(entries, position.value), entry);
    var all := Without(entries, entry.0) + [entry];
    assert KeysOf(all)[|all| - 1] == entry.0;
  }

  /** A miss appends the key; what is evicted comes off the front. */
  lemma MissKeys(entries: seq<CacheEntry>, capacity: nat, byteCapacity: nat, key: GlyphKey, bitmap: GlyphBitmap)
    requires AreDistinct(KeysOf(entries)) && key !in KeysOf(entries)
    requires capacity > 0 && ByteLength(bitmap) <= byteCapacity
    ensures var after := AfterInsert(entries, capacity, byteCapacity, key, bitmap);
      && IsSuffix(KeysOf(after), KeysOf(entries) + [key])
      && key in KeysOf(after)
      && forall e | e in after :: e == (key, bitmap) || e in entries
  {
    var left := Evicted(entries, capacity, byteCapacity, ByteLength(bitmap));
    assert Without(entries, key) == entries;
    SuffixOfKeys(left, entries);
    AppendedToLast(left, (key, bitmap));
    SuffixAppend(KeysOf(left), KeysOf(entries), key);
  }

  lemma HitKeepsRecency(entries: seq<CacheEntry>, recency: seq<GlyphKey>, entry: CacheEntry)
    requires AreDistinct(KeysOf(entries)) && AreDistinct(recency) && IsSuffix(KeysOf(entries), recency)
    requires entry in entries
    ensures var after := Without(entries, entry.0) + [entry];
      && AreDistinct(Used(recency, entry.0)) && IsSuffix(KeysOf(after), Used(recency, entry.0))
      && entry.0 in KeysOf(after)
      && forall e | e in after :: e in entries
  {
    UsedStaysDistinct(recency, entry.0);
    UsedKeepsSuffix(KeysOf(entries), recency, entry.0);
    HitKeys(entries, entry);
  }

  lemma MissKeepsRecency(
    entries: seq<CacheEntry>, recency: seq<GlyphKey>, capacity: nat, byteCapacity: nat, key: GlyphKey,
    bitmap: GlyphBitmap)
    requires AreDistinct(KeysOf(entries)) && AreDistinct(recency) && IsSuffix(KeysOf(entries), recency)
    requires key !in KeysOf(entries) && capacity > 0 && ByteLength(bitmap) <= byteCapacity
    ensures var after := AfterInsert(entries, capacity, byteCapacity, key, bitmap);
      && AreDistinct(Used(recency, key)) && IsSuffix(KeysOf(after), Used(recency, key))
      && key in KeysOf(after)
      && forall e | e in after :: e == (key, bitmap) || e in entries
  {
    UsedStaysDistinct(recency, key);
    UsedKeepsSuffix(KeysOf(entries), recency, key);
    MissKeys(entries, capacity, byteCapacity, key, bitmap);
    SuffixOfSuffix(
      KeysOf(AfterInsert(entries, capacity, byteCapacity, key, bitmap)), KeysOf(entries) + [key], Used(recency, key));
  }

  lemma SuffixOfKeys(left: seq<CacheEntry>, entries: seq<CacheEntry>)
    requires IsSuffix(left, entries)
    ensures IsSuffix(KeysOf(left), KeysOf(entries))
    ensures forall e | e in left :: e in entries
  {
  }

  lemma AppendedToLast(entries: seq<CacheEntry>, entry: CacheEntry)
    ensures KeysOf(entries + [entry]) == KeysOf(entries) + [entry.0]
    ensures entry.0 in KeysOf(entries + [entry])
  {
    assert KeysOf(entries + [entry])[|entries|] == entry.0;
  }
}
