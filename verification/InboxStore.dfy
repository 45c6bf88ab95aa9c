/** The tables and the object bucket behind the single current bundle, and the
    effect of every SQL statement or batch and every bucket call on them.

    Each function below is one atomic step: one D1 statement, one D1 batch
    (all of it or none of it), or one R2 put or delete. */
module InboxStore {
  import opened Options

  type Id = string
  type Key = string

  const BUNDLE_OBJECT_PREFIX: string := "bundles/"
  const CANDIDATE_OBJECT_PREFIX: string := "bundles/candidates/"
  const CLEANUP_RETENTION_SECONDS: nat := 24 * 60 * 60
  const CLEANUP_BATCH_SIZE: nat := 100
  const CLEANUP_MAX_R2_OBJECTS: nat := 100
  const U64_MAX: nat := 0xffff_ffff_ffff_ffff

  function SaturatingAdd(a: nat, b: nat): nat {
    if a + b > U64_MAX then U64_MAX else a + b
  }

  function CandidateObjectKey(id: Id): Key {
    CANDIDATE_OBJECT_PREFIX + id + ".tar"
  }

  /** An uploaded archive and what the bundle validator says about it. */
  datatype Upload = Upload(bytes: seq<int>, manifest: Option<string>)

  datatype LifecycleState = Uploading | Published | CleanupClaimed

  datatype LifecycleRow = LifecycleRow(objectKey: Key, state: LifecycleState, cleanupAfter: nat)

  datatype BundleRow = BundleRow(
    objectKey: Key, etag: string, manifest: string, sizeBytes: nat, lifecycleId: Id)

  datatype StoredObject = StoredObject(upload: Upload, etag: string, uploadedAt: nat)

  datatype Inbox = Inbox(revision: nat, current: Option<Id>)

  datatype Store = Store(
    inbox: Inbox,
    bundles: map<Id, BundleRow>,
    lifecycle: map<Id, LifecycleRow>,
    objects: map<Key, StoredObject>)

  /** The metadata row describes exactly the stored archive. */
  predicate Describes(row: BundleRow, stored: StoredObject) {
    && stored.upload.manifest == Some(row.manifest)
    && row.etag == stored.etag
    && row.sizeBytes == |stored.upload.bytes|
  }

  /** What the inbox shows: the current bundle and its metadata, if any. */
  function Shown(s: Store): Option<(Id, BundleRow)> {
    match s.inbox.current
    case Some(id) => if id in s.bundles then Some((id, s.bundles[id])) else None
    case None => None
  }

  /** The key of the object that the inbox currently serves. */
  predicate IsCurrentKey(s: Store, key: Key) {
    Shown(s).Some? && Shown(s).value.1.objectKey == key
  }

  // ---- push and clear -------------------------------------------------

  function ClearInbox(s: Store): Store {
    s.(inbox := Inbox(s.inbox.revision + 1, None))
  }

  /** A new `uploading` row, refused when the id or the key is taken. */
  function ReserveLifecycle(s: Store, id: Id, key: Key, now: nat): Option<Store> {
    if id in s.lifecycle || exists i | i in s.lifecycle :: s.lifecycle[i].objectKey == key then
      None
    else
      var row := LifecycleRow(key, Uploading, SaturatingAdd(now, CLEANUP_RETENTION_SECONDS));
      Some(s.(lifecycle := s.lifecycle[id := row]))
  }

  function PutObject(s: Store, key: Key, stored: StoredObject): Store {
    s.(objects := s.objects[key := stored])
  }

  function DeleteObject(s: Store, key: Key): Store {
    s.(objects := s.objects - {key})
  }

  predicate IsUploading(s: Store, id: Id) {
    id in s.lifecycle && s.lifecycle[id].state == Uploading
  }

  /** The first statement of the publication batch: `INSERT ... SELECT` from an
      `uploading` row. `None` is a constraint failure. */
  function InsertBundle(s: Store, id: Id, row: BundleRow): Option<Store> {
    if !IsUploading(s, id) then
      Some(s)
    else if id in s.bundles
      || exists b | b in s.bundles ::
           s.bundles[b].objectKey == row.objectKey || s.bundles[b].lifecycleId == id then
      None
    else
      Some(s.(bundles := s.bundles[id := row]))
  }

  /** The second statement: the inbox reference, held by a foreign key. */
  function PointInbox(s: Store, id: Id): Option<Store> {
    if id in s.bundles then Some(s.(inbox := Inbox(s.inbox.revision + 1, Some(id)))) else None
  }

  /** The third statement: `uploading` becomes `published`. */
  function MarkPublished(s: Store, id: Id, now: nat): Store {
    if IsUploading(s, id) then
      var row := LifecycleRow(
        s.lifecycle[id].objectKey, Published, SaturatingAdd(now, CLEANUP_RETENTION_SECONDS));
      s.(lifecycle := s.lifecycle[id := row])
    else
      s
  }

  /** The whole batch: `None` when a constraint aborts it, otherwise the new
      store and whether the lifecycle transition updated a row. */
  function Publish(s: Store, id: Id, row: BundleRow, now: nat): Option<(Store, bool)> {
    match InsertBundle(s, id, row)
    case None => None
    case Some(inserted) =>
      match PointInbox(inserted, id)
      case None => None
      case Some(pointed) => Some((MarkPublished(pointed, id, now), IsUploading(pointed, id)))
  }

  // ---- cleanup ----------------------------------------------------------

  predicate Expired(s: Store, id: Id, now: nat) {
    id in s.lifecycle && s.lifecycle[id].cleanupAfter <= now
  }

  /** The inbox points at a bundle that belongs to this lifecycle row. */
  predicate IsCurrentLifecycle(s: Store, id: Id) {
    Shown(s).Some? && Shown(s).value.1.lifecycleId == id
  }

  predicate Claimable(s: Store, id: Id, now: nat) {
    Expired(s, id, now) && !IsCurrentLifecycle(s, id)
  }

  function ClaimLifecycle(s: Store, id: Id, now: nat): Store {
    if Claimable(s, id, now) then
      s.(lifecycle := s.lifecycle[id := s.lifecycle[id].(state := CleanupClaimed)])
    else
      s
  }

  function BundlesAfterCleanup(s: Store, id: Id): map<Id, BundleRow> {
    map b | b in s.bundles && (s.bundles[b].lifecycleId != id || s.inbox.current == Some(b))
      :: s.bundles[b]
  }

  function FinishLifecycleCleanup(s: Store, id: Id): Store {
    var bundles := BundlesAfterCleanup(s, id);
    var removable :=
      && id in s.lifecycle
      && s.lifecycle[id].state == CleanupClaimed
      && !exists b | b in bundles :: bundles[b].lifecycleId == id;
    s.(bundles := bundles, lifecycle := if removable then s.lifecycle - {id} else s.lifecycle)
  }

  predicate ObjectIsTracked(s: Store, key: Key) {
    exists i | i in s.lifecycle :: s.lifecycle[i].objectKey == key
  }

  predicate HasBundlePrefix(key: Key) {
    BUNDLE_OBJECT_PREFIX <= key
  }

  /** Old enough for the untracked sweep to consider it. */
  predicate ObjectIsStale(stored: StoredObject, now: nat) {
    SaturatingAdd(stored.uploadedAt, CLEANUP_RETENTION_SECONDS) <= now
  }

  lemma CandidateKeysAreDistinct(a: Id, b: Id)
    requires CandidateObjectKey(a) == CandidateObjectKey(b)
    ensures a == b
  {
    var n := |CANDIDATE_OBJECT_PREFIX|;
    assert a == CandidateObjectKey(a)[n..n + |a|];
    assert b == CandidateObjectKey(b)[n..n + |b|];
  }
}
