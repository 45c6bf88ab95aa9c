/** The inductive invariant of the inbox protocol.

    The proof is a rely-guarantee argument: `Guarantee` bounds what one call of
    one actor can change, every call keeps it, and what any other actor has
    concluded so far (`ActorInv`) survives every change it allows. */
module InboxInvariant {
  import opened Options
  import opened InboxStore
  import opened InboxProtocol

  // ---- the store ------------------------------------------------------------

  ghost predicate KeysAreUnique(s: Store) {
    forall i, j | i in s.lifecycle && j in s.lifecycle ::
      s.lifecycle[i].objectKey == s.lifecycle[j].objectKey ==> i == j
  }

  ghost predicate RowsMatchLifecycle(s: Store) {
    forall b | b in s.bundles ::
      && b in s.lifecycle
      && s.bundles[b].lifecycleId == b
      && s.bundles[b].objectKey == s.lifecycle[b].objectKey
      && s.lifecycle[b].state != Uploading
  }

  /** The promise of the protocol: what the inbox names is complete and stored. */
  ghost predicate CurrentIsServed(s: Store) {
    match s.inbox.current
    case None => true
    case Some(id) =>
      && id in s.bundles
      && var row := s.bundles[id];
      && row.lifecycleId in s.lifecycle
      && s.lifecycle[row.lifecycleId].state == Published
      && row.objectKey in s.objects
      && Describes(row, s.objects[row.objectKey])
  }

  ghost predicate HistoryCovers(w: World) {
    && w.store.lifecycle.Keys <= w.usedIds
    && (forall i | i in w.store.lifecycle :: w.store.lifecycle[i].objectKey in w.usedKeys)
    && w.written.Keys <= w.usedKeys
    && forall k | k in w.store.objects :: k in w.written && w.written[k] == w.store.objects[k]
  }

  ghost predicate StoreInv(w: World) {
    && KeysAreUnique(w.store)
    && RowsMatchLifecycle(w.store)
    && CurrentIsServed(w.store)
    && HistoryCovers(w)
  }

  // ---- the revision log -------------------------------------------------------

  /** A bundle that was shown once: its row never changes while it exists, it can
      never be published again, and its archive is the one written for it. */
  ghost predicate ShownOnce(w: World, id: Id, row: BundleRow) {
    && id in w.usedIds
    && !IsUploading(w.store, id)
    && (id in w.store.bundles ==> w.store.bundles[id] == row)
    && row.objectKey in w.written
    && Describes(row, w.written[row.objectKey])
  }

  ghost predicate LogInv(w: World) {
    && w.store.inbox.revision in w.log
    && w.log[w.store.inbox.revision].shown == Shown(w.store)
    && (forall r | r in w.log :: r <= w.store.inbox.revision)
    && forall r | r in w.log && w.log[r].shown.Some? ::
         ShownOnce(w, w.log[r].shown.value.0, w.log[r].shown.value.1)
  }

  // ---- the actors --------------------------------------------------------------

  /** No row under this key can still be published. */
  ghost predicate Settled(w: World, key: Key) {
    && key in w.usedKeys
    && forall i | i in w.store.lifecycle && w.store.lifecycle[i].objectKey == key ::
         w.store.lifecycle[i].state != Uploading
  }

  /** Settled and not current: nothing can make this object current again. */
  ghost predicate Doomed(w: World, key: Key) {
    Settled(w, key) && !IsCurrentKey(w.store, key)
  }

  ghost predicate CandidateInv(w: World, k: Candidate) {
    && k.id in w.usedIds
    && k.key in w.usedKeys
    && (k.id in w.store.lifecycle ==> w.store.lifecycle[k.id].objectKey == k.key)
  }

  ghost predicate CandidatesInv(w: World, rest: seq<Candidate>) {
    forall k | k in rest :: CandidateInv(w, k)
  }

  ghost predicate NeverShown(w: World, id: Id) {
    forall r | r in w.log && w.log[r].shown.Some? :: w.log[r].shown.value.0 != id
  }

  /** An id drawn for an upload that has not reached its publication. */
  ghost predicate Reserved(w: World, id: Id) {
    && id in w.usedIds
    && CandidateObjectKey(id) in w.usedKeys
    && id !in w.store.bundles
    && NeverShown(w, id)
    && (id in w.store.lifecycle ==> w.store.lifecycle[id].objectKey == CandidateObjectKey(id))
  }

  ghost predicate IsStored(w: World, upload: Upload, id: Id, etag: string) {
    var key := CandidateObjectKey(id);
    && key in w.written
    && w.written[key].upload == upload
    && w.written[key].etag == etag
    && (IsUploading(w.store, id) ==> key in w.store.objects)
  }

  ghost predicate Wrote(w: World, a: ActorId, revision: nat) {
    revision in w.log && w.log[revision].writer == Some(a)
  }

  ghost predicate LogShows(w: World, revision: nat, id: Id, row: BundleRow) {
    revision in w.log && w.log[revision].shown == Some((id, row))
  }

  ghost predicate ActorInv(w: World, a: ActorId, actor: Actor) {
    match actor
    case Clearing(_, _, previous) => previous.Some? ==> Settled(w, previous.value)
    case DeletingPrevious(_, _, key, revision) =>
      Doomed(w, key) && Wrote(w, a, revision) && w.log[revision].shown.None?
    case Reserving(upload, _) => upload.manifest.Some?
    case Putting(upload, _, id) =>
      upload.manifest.Some? && Reserved(w, id) && CandidateObjectKey(id) !in w.written
    case Publishing(upload, _, id, etag) =>
      upload.manifest.Some? && Reserved(w, id) && IsStored(w, upload, id, etag)
    case Claiming(_, rest) => CandidatesInv(w, rest)
    case DeletingClaimed(_, k, rest) =>
      CandidateInv(w, k) && Doomed(w, k.key) && CandidatesInv(w, rest)
    case Finishing(_, k, rest) =>
      CandidateInv(w, k) && Doomed(w, k.key) && CandidatesInv(w, rest)
    case CheckingTracked(_, page) => forall k | k in page :: k in w.usedKeys
    case CheckingCurrent(_, key, page) =>
      Doomed(w, key) && forall k | k in page :: k in w.usedKeys
    case DeletingUntracked(_, key, page) =>
      Doomed(w, key) && forall k | k in page :: k in w.usedKeys
    case ReaderMetadata(_, revision, id) =>
      revision in w.log && w.log[revision].shown.Some? && w.log[revision].shown.value.0 == id
    case ReaderObject(revision, row) => exists id :: LogShows(w, revision, id, row)
    case _ => true
  }

  /** What a finished actor was told agrees with the log. */
  ghost predicate ResponseInv(w: World, a: ActorId, response: Response) {
    match response
    case Cleared(revision) => Wrote(w, a, revision) && w.log[revision].shown.None?
    case Pushed(revision, id) =>
      Wrote(w, a, revision) && w.log[revision].shown.Some? && w.log[revision].shown.value.0 == id
    case Empty(revision) => revision in w.log && w.log[revision].shown.None?
    case Manifest(revision, etag, manifest) =>
      && revision in w.log && w.log[revision].shown.Some?
      && w.log[revision].shown.value.1.etag == etag
      && w.log[revision].shown.value.1.manifest == manifest
    case NotModified(revision, etag, ifRevision, ifNoneMatch) =>
      && revision in w.log && w.log[revision].shown.Some?
      && w.log[revision].shown.value.1.etag == etag
      && (ifRevision == Some(revision) || ifNoneMatch == Some(etag))
    case Body(revision, row, stored) =>
      (exists id :: LogShows(w, revision, id, row)) && Describes(row, stored)
  }

  function Owned(actor: Actor): Option<Id> {
    match actor
    case Putting(_, _, id) => Some(id)
    case Publishing(_, _, id, _) => Some(id)
    case _ => None
  }

  ghost predicate OwnersDiffer(w: World) {
    forall a, b | a in w.actors && b in w.actors && a != b ::
      Owned(w.actors[a]).Some? ==> Owned(w.actors[a]) != Owned(w.actors[b])
  }

  ghost predicate ActorsInv(w: World) {
    && w.actors.Keys + w.responses.Keys <= w.started
    && OwnersDiffer(w)
    && (forall a | a in w.actors :: ActorInv(w, a, w.actors[a]))
    && forall a | a in w.responses :: ResponseInv(w, a, w.responses[a])
  }

  ghost predicate Inv(w: World) {
    StoreInv(w) && LogInv(w) && ActorsInv(w)
  }

  // ---- the guarantee of one call ----------------------------------------------

  ghost predicate HistoryGrows(w: World, w': World, owned: Option<Id>) {
    && w.usedIds <= w'.usedIds
    && w.usedKeys <= w'.usedKeys
    && (forall k | k in w.written :: k in w'.written && w'.written[k] == w.written[k])
    && (forall k | k in w'.written && k !in w.written ::
          owned.Some? && k == CandidateObjectKey(owned.value))
    && (forall r | r in w.log :: r in w'.log && w'.log[r] == w.log[r])
    && (forall r | r in w'.log && r !in w.log ::
          w'.log[r].shown.Some? ==> owned == Some(w'.log[r].shown.value.0))
  }

  ghost predicate LifecycleGuarantee(w: World, w': World) {
    forall i | i in w'.store.lifecycle ::
      var row := w'.store.lifecycle[i];
      || (i !in w.usedIds && row.objectKey !in w.usedKeys)
      || (&& i in w.store.lifecycle
          && w.store.lifecycle[i].objectKey == row.objectKey
          && (row.state == Uploading ==> w.store.lifecycle[i].state == Uploading))
  }

  ghost predicate BundlesGuarantee(w: World, w': World, owned: Option<Id>) {
    forall b | b in w'.store.bundles ::
      || (b in w.store.bundles && w'.store.bundles[b] == w.store.bundles[b])
      || owned == Some(b)
  }

  ghost predicate ObjectsGuarantee(w: World, w': World) {
    forall i | IsUploading(w.store, i) && IsUploading(w'.store, i) ::
      w.store.lifecycle[i].objectKey in w.store.objects ==>
        w.store.lifecycle[i].objectKey in w'.store.objects
  }

  ghost predicate CurrentGuarantee(w: World, w': World) {
    forall k | IsCurrentKey(w'.store, k) ::
      || IsCurrentKey(w.store, k)
      || exists i | i in w.store.lifecycle ::
           w.store.lifecycle[i].objectKey == k && w.store.lifecycle[i].state == Uploading
  }

  /** At most one committed inbox write, which raises the revision by one. */
  ghost predicate RevisionGuarantee(w: World, w': World) {
    || w'.store.inbox == w.store.inbox
    || w'.store.inbox.revision == w.store.inbox.revision + 1
  }

  ghost predicate Guarantee(w: World, w': World, owned: Option<Id>) {
    && HistoryGrows(w, w', owned)
    && LifecycleGuarantee(w, w')
    && BundlesGuarantee(w, w', owned)
    && ObjectsGuarantee(w, w')
    && CurrentGuarantee(w, w')
    && RevisionGuarantee(w, w')
  }

  lemma DoomedStays(w: World, w': World, owned: Option<Id>, key: Key)
    requires Guarantee(w, w', owned)
    ensures Settled(w, key) ==> Settled(w', key)
    ensures Doomed(w, key) ==> Doomed(w', key)
  {}

  lemma ReservedStays(w: World, w': World, owned: Option<Id>, id: Id)
    requires Guarantee(w, w', owned) && Reserved(w, id) && owned != Some(id)
    ensures Reserved(w', id)
  {}

  lemma StoredStays(w: World, w': World, owned: Option<Id>, upload: Upload, id: Id, etag: string)
    requires Guarantee(w, w', owned) && Reserved(w, id) && IsStored(w, upload, id, etag)
    ensures IsStored(w', upload, id, etag)
  {}

  lemma CandidatesStay(w: World, w': World, owned: Option<Id>, rest: seq<Candidate>)
    requires Guarantee(w, w', owned) && CandidatesInv(w, rest)
    ensures CandidatesInv(w', rest)
  {}

  /** What another actor knows survives a call that keeps the guarantee. */
  lemma ActorInvStays(w: World, w': World, owned: Option<Id>, a: ActorId, actor: Actor)
    requires Guarantee(w, w', owned) && ActorInv(w, a, actor)
    requires Owned(actor).Some? ==> Owned(actor) != owned
    ensures ActorInv(w', a, actor)
  {
    match actor
    case Clearing(_, _, previous) =>
      if previous.Some? { DoomedStays(w, w', owned, previous.value); }
    case DeletingPrevious(_, _, key, _) => DoomedStays(w, w', owned, key);
    case Putting(_, _, id) =>
      ReservedStays(w, w', owned, id);
      if owned.Some? && CandidateObjectKey(owned.value) == CandidateObjectKey(id) {
        CandidateKeysAreDistinct(owned.value, id);
      }
    case Publishing(upload, _, id, etag) =>
      ReservedStays(w, w', owned, id);
      StoredStays(w, w', owned, upload, id, etag);
    case Claiming(_, rest) => CandidatesStay(w, w', owned, rest);
    case DeletingClaimed(_, k, rest) =>
      CandidatesStay(w, w', owned, [k]);
      assert k in [k];
      CandidatesStay(w, w', owned, rest);
      DoomedStays(w, w', owned, k.key);
    case Finishing(_, k, rest) =>
      CandidatesStay(w, w', owned, [k]);
      assert k in [k];
      CandidatesStay(w, w', owned, rest);
      DoomedStays(w, w', owned, k.key);
    case CheckingCurrent(_, key, _) => DoomedStays(w, w', owned, key);
    case DeletingUntracked(_, key, _) => DoomedStays(w, w', owned, key);
    case ReaderObject(revision, row) =>
      var id :| LogShows(w, revision, id, row);
      assert LogShows(w', revision, id, row);
    case _ =>
  }

  lemma ResponseInvStays(w: World, w': World, owned: Option<Id>, a: ActorId, response: Response)
    requires Guarantee(w, w', owned) && ResponseInv(w, a, response)
    ensures ResponseInv(w', a, response)
  {
    if response.Body? {
      var id :| LogShows(w, response.revision, id, response.row);
      assert LogShows(w', response.revision, id, response.row);
    }
  }
}
