/** Every move of the inbox protocol keeps the invariant: first the eight effects
    on the store, then the control flow of each actor on top of them. */
module InboxSteps {
  import opened Options
  import opened InboxStore
  import opened InboxProtocol
  import opened InboxInvariant

  /** World `e` is `w` after an effect on the store and the history only. */
  ghost predicate SameActors(w: World, e: World) {
    e.actors == w.actors && e.responses == w.responses && e.started == w.started
  }

  ghost predicate GoodEffect(w: World, e: World, owned: Option<Id>) {
    SameActors(w, e) && StoreInv(e) && LogInv(e) && Guarantee(w, e, owned)
  }

  /** One move is over: the invariant holds again, and what the move changed lies
      within the guarantee. */
  ghost predicate Kept(w: World, w': World) {
    Inv(w') && exists owned :: Guarantee(w, w', owned)
  }

  // ---- effects -----------------------------------------------------------------

  lemma NoEffect(w: World)
    requires Inv(w)
    ensures forall owned: Option<Id> :: GoodEffect(w, w, owned)
  {}

  lemma ClearEffect(w: World, a: ActorId)
    requires Inv(w)
    ensures GoodEffect(w, Commit(w, a, ClearInbox(w.store)), None)
  {}

  function AfterReserving(w: World, id: Id, s: Store): World {
    w.(store := s, usedIds := w.usedIds + {id}, usedKeys := w.usedKeys + {CandidateObjectKey(id)})
  }

  /** An id that was never drawn, and its row. */
  ghost predicate IsDrawn(w: World, id: Id, now: nat, s: Store) {
    && id !in w.usedIds && CandidateObjectKey(id) !in w.usedKeys
    && ReserveLifecycle(w.store, id, CandidateObjectKey(id), now) == Some(s)
  }

  lemma ReserveKeepsStore(w: World, id: Id, now: nat, s: Store)
    requires StoreInv(w) && IsDrawn(w, id, now, s)
    ensures StoreInv(AfterReserving(w, id, s))
  {
    assert forall i | i in s.lifecycle ::
      if i == id then s.lifecycle[i].objectKey == CandidateObjectKey(id)
      else i in w.store.lifecycle && s.lifecycle[i] == w.store.lifecycle[i];
  }

  lemma ReserveKeepsLog(w: World, id: Id, now: nat, s: Store)
    requires StoreInv(w) && LogInv(w) && IsDrawn(w, id, now, s)
    ensures LogInv(AfterReserving(w, id, s))
    ensures NeverShown(w, id) && id !in w.store.bundles
  {
  }

  lemma ReserveEffect(w: World, id: Id, now: nat, s: Store)
    requires Inv(w) && IsDrawn(w, id, now, s)
    ensures var e := AfterReserving(w, id, s);
            GoodEffect(w, e, None) && Reserved(e, id) && CandidateObjectKey(id) !in e.written
  {
    ReserveKeepsStore(w, id, now, s);
    ReserveKeepsLog(w, id, now, s);
    assert Guarantee(w, AfterReserving(w, id, s), None);
  }

  function AfterPutting(w: World, id: Id, stored: StoredObject): World {
    var key := CandidateObjectKey(id);
    w.(store := PutObject(w.store, key, stored), written := w.written[key := stored])
  }

  lemma PutKeepsStore(w: World, id: Id, stored: StoredObject)
    requires StoreInv(w) && LogInv(w) && Reserved(w, id) && CandidateObjectKey(id) !in w.written
    ensures StoreInv(AfterPutting(w, id, stored)) && LogInv(AfterPutting(w, id, stored))
  {}

  lemma PutEffect(w: World, id: Id, stored: StoredObject)
    requires Inv(w) && Reserved(w, id) && CandidateObjectKey(id) !in w.written
    ensures var e := AfterPutting(w, id, stored);
            GoodEffect(w, e, Some(id)) && Reserved(e, id)
            && IsStored(e, stored.upload, id, stored.etag)
  {
    PutKeepsStore(w, id, stored);
    assert Guarantee(w, AfterPutting(w, id, stored), Some(id));
  }

  lemma DeleteEffect(w: World, key: Key, owned: Option<Id>)
    requires Inv(w) && Doomed(w, key)
    ensures GoodEffect(w, w.(store := DeleteObject(w.store, key)), owned)
  {
    var e := w.(store := DeleteObject(w.store, key));
    assert StoreInv(e);
    assert LogInv(e);
    assert Guarantee(w, e, owned);
  }

  lemma ClaimEffect(w: World, k: Candidate, now: nat)
    requires Inv(w) && CandidateInv(w, k) && Claimable(w.store, k.id, now)
    ensures var e := w.(store := ClaimLifecycle(w.store, k.id, now));
            GoodEffect(w, e, None) && Doomed(e, k.key)
  {
    var s := w.store;
    var e := w.(store := ClaimLifecycle(s, k.id, now));
    assert forall i | i in e.store.lifecycle ::
      && i in s.lifecycle
      && e.store.lifecycle[i].objectKey == s.lifecycle[i].objectKey
      && (if i == k.id then e.store.lifecycle[i].state == CleanupClaimed
          else e.store.lifecycle[i].state == s.lifecycle[i].state);
    assert s.inbox.current.Some? ==>
      s.bundles[s.inbox.current.value].lifecycleId == s.inbox.current.value != k.id;
    assert StoreInv(e);
    assert LogInv(e);
    assert Guarantee(w, e, None);
  }

  /** Finishing a cleanup only removes rows, and neither the current bundle nor a
      lifecycle row that a remaining bundle refers to. */
  ghost predicate Prunes(s: Store, p: Store) {
    && p.inbox == s.inbox && p.objects == s.objects
    && (forall b | b in p.bundles :: b in s.bundles && p.bundles[b] == s.bundles[b])
    && (forall i | i in p.lifecycle :: i in s.lifecycle && p.lifecycle[i] == s.lifecycle[i])
    && (forall b | b in p.bundles :: b in p.lifecycle)
    && Shown(p) == Shown(s)
  }

  lemma FinishPrunes(s: Store, id: Id)
    requires RowsMatchLifecycle(s) && CurrentIsServed(s)
    ensures Prunes(s, FinishLifecycleCleanup(s, id))
  {
    var bundles := BundlesAfterCleanup(s, id);
    forall b | b in bundles
      ensures b in FinishLifecycleCleanup(s, id).lifecycle
    {
      assert bundles[b].lifecycleId == b;
    }
  }

  lemma FinishEffect(w: World, id: Id)
    requires Inv(w)
    ensures GoodEffect(w, w.(store := FinishLifecycleCleanup(w.store, id)), None)
  {
    FinishPrunes(w.store, id);
    PruneEffect(w, FinishLifecycleCleanup(w.store, id));
  }

  lemma PruneEffect(w: World, p: Store)
    requires Inv(w) && Prunes(w.store, p)
    ensures GoodEffect(w, w.(store := p), None)
  {
    var e := w.(store := p);
    assert StoreInv(e);
    assert LogInv(e);
    assert Guarantee(w, e, None);
  }

  /** The one outcome of a committed publication batch. */
  function PublishedStore(s: Store, id: Id, row: BundleRow, now: nat): Store {
    s.(inbox := Inbox(s.inbox.revision + 1, Some(id)),
       bundles := s.bundles[id := row],
       lifecycle := s.lifecycle[id := LifecycleRow(row.objectKey, Published,
                                        SaturatingAdd(now, CLEANUP_RETENTION_SECONDS))])
  }

  /** A publication batch for an id without metadata either aborts without effect
      or publishes a row that was still uploading. */
  lemma PublishCommitsOnlyUploading(s: Store, id: Id, row: BundleRow, now: nat)
    requires KeysAreUnique(s) && RowsMatchLifecycle(s) && id !in s.bundles
    requires id in s.lifecycle ==> s.lifecycle[id].objectKey == row.objectKey
    requires row.lifecycleId == id
    ensures Publish(s, id, row, now)
         == if IsUploading(s, id) then Some((PublishedStore(s, id, row, now), true)) else None
  {
    if IsUploading(s, id) {
      forall b | b in s.bundles
        ensures s.bundles[b].objectKey != row.objectKey && s.bundles[b].lifecycleId != id
      {
        assert s.lifecycle[b].objectKey == s.bundles[b].objectKey;
      }
    }
  }

  /** What a publication starts from. */
  ghost predicate IsPublishable(w: World, upload: Upload, id: Id, etag: string) {
    && StoreInv(w) && LogInv(w)
    && Reserved(w, id) && IsStored(w, upload, id, etag) && upload.manifest.Some?
    && IsUploading(w.store, id)
  }

  function AfterPublishing(w: World, a: ActorId, upload: Upload, id: Id, etag: string, now: nat): World
    requires upload.manifest.Some?
  {
    Commit(w, a, PublishedStore(w.store, id, NewRow(upload, id, etag), now))
  }

  lemma PublishKeepsStore(w: World, a: ActorId, upload: Upload, id: Id, etag: string, now: nat)
    requires IsPublishable(w, upload, id, etag)
    ensures StoreInv(AfterPublishing(w, a, upload, id, etag, now))
    ensures Shown(AfterPublishing(w, a, upload, id, etag, now).store) == Some((id, NewRow(upload, id, etag)))
  {}

  lemma PublishKeepsLog(w: World, a: ActorId, upload: Upload, id: Id, etag: string, now: nat)
    requires IsPublishable(w, upload, id, etag)
    ensures LogInv(AfterPublishing(w, a, upload, id, etag, now))
  {
    PublishKeepsStore(w, a, upload, id, etag, now);
  }

  lemma PublishKeepsGuarantee(w: World, a: ActorId, upload: Upload, id: Id, etag: string, now: nat)
    requires IsPublishable(w, upload, id, etag)
    ensures Guarantee(w, AfterPublishing(w, a, upload, id, etag, now), Some(id))
  {
    var e := AfterPublishing(w, a, upload, id, etag, now);
    PublishKeepsStore(w, a, upload, id, etag, now);
    assert CurrentGuarantee(w, e) by {
      assert w.store.lifecycle[id].objectKey == CandidateObjectKey(id);
    }
  }

  lemma PublishEffect(w: World, a: ActorId, upload: Upload, id: Id, etag: string, now: nat)
    requires Inv(w) && Reserved(w, id) && IsStored(w, upload, id, etag) && upload.manifest.Some?
    requires IsUploading(w.store, id)
    ensures var s := PublishedStore(w.store, id, NewRow(upload, id, etag), now);
            Shown(s) == Some((id, NewRow(upload, id, etag))) && GoodEffect(w, Commit(w, a, s), Some(id))
  {
    PublishKeepsStore(w, a, upload, id, etag, now);
    PublishKeepsLog(w, a, upload, id, etag, now);
    PublishKeepsGuarantee(w, a, upload, id, etag, now);
  }

  // ---- control ------------------------------------------------------------------

  /** The actor may hold id `after`: it did before, or nobody had drawn it yet. */
  ghost predicate MayOwn(w: World, before: Option<Id>, after: Option<Id>) {
    after.None? || after == before || after.value !in w.usedIds
  }

  lemma GuaranteeIgnoresActors(w: World, e: World, w': World, owned: Option<Id>)
    requires Guarantee(w, e, owned)
    requires w' == e.(actors := w'.actors, responses := w'.responses, started := w'.started)
    ensures Guarantee(w, w', owned)
  {}

  lemma OwnersStayDifferent(w: World, w': World, a: ActorId, actor: Actor)
    requires Inv(w) && a in w.actors && w'.actors == w.actors[a := actor]
    requires MayOwn(w, Owned(w.actors[a]), Owned(actor))
    ensures OwnersDiffer(w')
  {
    forall b | b in w.actors ensures Owned(w.actors[b]).Some? ==> Owned(w.actors[b]).value in w.usedIds {
      assert ActorInv(w, b, w.actors[b]);
    }
  }

  /** Knowledge speaks about the store and the history, not about other actors. */
  lemma SameKnowledge(e: World, w': World, a: ActorId, actor: Actor)
    requires ActorInv(e, a, actor)
    requires w' == e.(actors := w'.actors, responses := w'.responses, started := w'.started)
    ensures ActorInv(w', a, actor)
  {
    if actor.ReaderObject? {
      var id :| LogShows(e, actor.revision, id, actor.row);
      assert LogShows(w', actor.revision, id, actor.row);
    }
  }

  lemma SameAnswer(e: World, w': World, a: ActorId, response: Response)
    requires ResponseInv(e, a, response)
    requires w' == e.(actors := w'.actors, responses := w'.responses, started := w'.started)
    ensures ResponseInv(w', a, response)
  {
    if response.Body? {
      var id :| LogShows(e, response.revision, id, response.row);
      assert LogShows(w', response.revision, id, response.row);
    }
  }

  /** `w'` is `e` with a new place or a new answer for one actor. */
  ghost predicate OnlyMoves(w: World, e: World, w': World, a: ActorId) {
    && w' == e.(actors := w'.actors, responses := w'.responses, started := w'.started)
    && (forall b | b in w'.actors && b != a :: b in w.actors && w'.actors[b] == w.actors[b])
    && (forall b | b in w'.responses && b != a :: b in w.responses && w'.responses[b] == w.responses[b])
  }

  lemma OtherActorsStay(w: World, e: World, w': World, a: ActorId)
    requires Inv(w) && a in w.actors && GoodEffect(w, e, Owned(w.actors[a])) && OnlyMoves(w, e, w', a)
    requires a in w'.actors ==> ActorInv(e, a, w'.actors[a])
    ensures forall b | b in w'.actors :: ActorInv(w', b, w'.actors[b])
  {
    forall b | b in w'.actors ensures ActorInv(w', b, w'.actors[b]) {
      if b != a {
        ActorInvStays(w, e, Owned(w.actors[a]), b, w.actors[b]);
      }
      SameKnowledge(e, w', b, w'.actors[b]);
    }
  }

  lemma AnswersStay(w: World, e: World, w': World, a: ActorId)
    requires Inv(w) && a in w.actors && GoodEffect(w, e, Owned(w.actors[a])) && OnlyMoves(w, e, w', a)
    requires a in w'.responses ==> ResponseInv(e, a, w'.responses[a])
    ensures forall b | b in w'.responses :: ResponseInv(w', b, w'.responses[b])
  {
    forall b | b in w'.responses ensures ResponseInv(w', b, w'.responses[b]) {
      if b != a {
        ResponseInvStays(w, e, Owned(w.actors[a]), b, w.responses[b]);
      }
      SameAnswer(e, w', b, w'.responses[b]);
    }
  }

  lemma Moved(w: World, e: World, w': World, a: ActorId)
    requires Inv(w) && a in w.actors && GoodEffect(w, e, Owned(w.actors[a])) && OnlyMoves(w, e, w', a)
    requires a in w'.actors ==> ActorInv(e, a, w'.actors[a])
    requires a in w'.responses ==> ResponseInv(e, a, w'.responses[a])
    requires w'.actors.Keys + w'.responses.Keys <= w'.started && OwnersDiffer(w')
    ensures Kept(w, w')
  {
    GuaranteeIgnoresActors(w, e, w', Owned(w.actors[a]));
    OtherActorsStay(w, e, w', a);
    AnswersStay(w, e, w', a);
  }

  /** An actor goes on from a place that its call has justified. */
  lemma Continue(w: World, e: World, a: ActorId, actor: Actor)
    requires Inv(w) && a in w.actors && GoodEffect(w, e, Owned(w.actors[a]))
    requires ActorInv(e, a, actor) && MayOwn(w, Owned(w.actors[a]), Owned(actor))
    ensures Kept(w, Goto(e, a, actor))
  {
    OwnersStayDifferent(w, Goto(e, a, actor), a, actor);
    AnswerIsOld(w, e, a);
    Moved(w, e, Goto(e, a, actor), a);
  }

  lemma AnswerIsOld(w: World, e: World, a: ActorId)
    requires Inv(w) && a in w.actors && GoodEffect(w, e, Owned(w.actors[a]))
    ensures a in e.responses ==> ResponseInv(e, a, e.responses[a])
  {
    if a in w.responses {
      ResponseInvStays(w, e, Owned(w.actors[a]), a, w.responses[a]);
    }
  }

  lemma Leave(w: World, e: World, a: ActorId)
    requires Inv(w) && a in w.actors && GoodEffect(w, e, Owned(w.actors[a]))
    ensures Kept(w, Halt(e, a))
  {
    AnswerIsOld(w, e, a);
    Moved(w, e, Halt(e, a), a);
  }

  lemma Answer(w: World, e: World, a: ActorId, response: Response)
    requires Inv(w) && a in w.actors && GoodEffect(w, e, Owned(w.actors[a]))
    requires ResponseInv(e, a, response)
    ensures Kept(w, Reply(e, a, response))
  {
    Moved(w, e, Reply(e, a, response), a);
  }

  // ---- pushes and clears ---------------------------------------------------------

  lemma AfterClearingKeepsInv(w: World, e: World, a: ActorId, job: Job, now: nat, revision: nat)
    requires Inv(w) && a in w.actors && Owned(w.actors[a]).None? && GoodEffect(w, e, None)
    requires Wrote(e, a, revision) && e.log[revision].shown.None?
    ensures Kept(w, AfterClearing(e, a, job, now, revision))
  {
    match job
    case ClearJob => Answer(w, e, a, Cleared(revision));
    case PushJob(upload) =>
      if upload.manifest.Some? { Continue(w, e, a, Reserving(upload, now)); } else { Leave(w, e, a); }
  }

  lemma ClearStepKeepsInv(w: World, a: ActorId, job: Job, now: nat, previous: Option<Key>)
    requires Inv(w) && a in w.actors && w.actors[a] == Clearing(job, now, previous)
    ensures Kept(w, ClearStep(w, a, job, now, previous))
  {
    ClearEffect(w, a);
    assert ActorInv(w, a, w.actors[a]);
    var e := Commit(w, a, ClearInbox(w.store));
    if previous.Some? {
      DoomedStays(w, e, None, previous.value);
      Continue(w, e, a, DeletingPrevious(job, now, previous.value, e.store.inbox.revision));
    } else {
      AfterClearingKeepsInv(w, e, a, job, now, e.store.inbox.revision);
    }
  }

  lemma PushPrefixKeepsInv(w: World, a: ActorId, c: Choice)
    requires Inv(w) && Enabled(w, a, c)
    requires var p := w.actors[a]; p.ReadingInbox? || p.ReadingPrevious? || p.DeletingPrevious?
    ensures Kept(w, Run(w, a, c))
  {
    NoEffect(w);
    assert ActorInv(w, a, w.actors[a]);
    match w.actors[a]
    case ReadingInbox(job, now) =>
      match w.store.inbox.current {
        case None => Continue(w, w, a, Clearing(job, now, None));
        case Some(id) => Continue(w, w, a, ReadingPrevious(job, now, id));
      }
    case ReadingPrevious(job, now, id) =>
      if id in w.store.bundles {
        var key := w.store.bundles[id].objectKey;
        assert w.store.lifecycle[id].objectKey == key;
        assert Settled(w, key);
        Continue(w, w, a, Clearing(job, now, Some(key)));
      } else {
        Leave(w, w, a);
      }
    case DeletingPrevious(job, now, key, revision) =>
      DeleteEffect(w, key, None);
      AfterClearingKeepsInv(w, w.(store := DeleteObject(w.store, key)), a, job, now, revision);
    case _ =>
  }

  lemma ReservingKeepsInv(w: World, a: ActorId, c: Choice)
    requires Inv(w) && Enabled(w, a, c) && w.actors[a].Reserving?
    ensures Kept(w, Run(w, a, c))
  {
    var upload, now := w.actors[a].upload, w.actors[a].now;
    var key := CandidateObjectKey(c.id);
    match ReserveLifecycle(w.store, c.id, key, now) {
      case None =>
        NoEffect(w);
        Leave(w, w, a);
      case Some(s) =>
        ReserveEffect(w, c.id, now, s);
        var e := w.(store := s, usedIds := w.usedIds + {c.id}, usedKeys := w.usedKeys + {key});
        assert ActorInv(w, a, w.actors[a]);
        Continue(w, e, a, Putting(upload, now, c.id));
    }
  }

  lemma PuttingKeepsInv(w: World, a: ActorId, c: Choice)
    requires Inv(w) && Enabled(w, a, c) && w.actors[a].Putting?
    ensures Kept(w, Run(w, a, c))
  {
    assert ActorInv(w, a, w.actors[a]);
    var upload, now, id := w.actors[a].upload, w.actors[a].now, w.actors[a].id;
    var key := CandidateObjectKey(id);
    var stored := StoredObject(upload, c.etag, c.uploadedAt);
    PutEffect(w, id, stored);
    var e := w.(store := PutObject(w.store, key, stored), written := w.written[key := stored]);
    Continue(w, e, a, Publishing(upload, now, id, c.etag));
  }

  lemma PublishingKeepsInv(w: World, a: ActorId, c: Choice)
    requires Inv(w) && Enabled(w, a, c) && w.actors[a].Publishing?
    ensures Kept(w, Run(w, a, c))
  {
    assert ActorInv(w, a, w.actors[a]);
    var p := w.actors[a];
    var row := NewRow(p.upload, p.id, p.etag);
    PublishCommitsOnlyUploading(w.store, p.id, row, p.now);
    if IsUploading(w.store, p.id) {
      var s := PublishedStore(w.store, p.id, row, p.now);
      PublishEffect(w, a, p.upload, p.id, p.etag, p.now);
      Answer(w, Commit(w, a, s), a, Pushed(s.inbox.revision, p.id));
    } else {
      NoEffect(w);
      Leave(w, w, a);
    }
  }

  // ---- cleanups --------------------------------------------------------------------

  lemma NextCandidateKeepsInv(w: World, e: World, a: ActorId, now: nat, rest: seq<Candidate>)
    requires Inv(w) && a in w.actors && Owned(w.actors[a]).None? && GoodEffect(w, e, None)
    requires CandidatesInv(w, rest)
    ensures Kept(w, NextCandidate(e, a, now, rest))
  {
    CandidatesStay(w, e, None, rest);
    Continue(w, e, a, if rest == [] then Listing(now) else Claiming(now, rest));
  }

  lemma ClaimingKeepsInv(w: World, a: ActorId, c: Choice)
    requires Inv(w) && Enabled(w, a, c) && w.actors[a].Claiming?
    ensures Kept(w, Run(w, a, c))
  {
    NoEffect(w);
    var p := w.actors[a];
    assert ActorInv(w, a, p);
    var k := p.rest[0];
    if Claimable(w.store, k.id, p.now) {
      ClaimEffect(w, k, p.now);
      var e := w.(store := ClaimLifecycle(w.store, k.id, p.now));
      CandidatesStay(w, e, None, p.rest);
      Continue(w, e, a, DeletingClaimed(p.now, k, p.rest[1..]));
    } else {
      NextCandidateKeepsInv(w, w, a, p.now, p.rest[1..]);
    }
  }

  lemma DeletingClaimedKeepsInv(w: World, a: ActorId, c: Choice)
    requires Inv(w) && Enabled(w, a, c) && w.actors[a].DeletingClaimed?
    ensures Kept(w, Run(w, a, c))
  {
    NoEffect(w);
    var p := w.actors[a];
    assert ActorInv(w, a, p);
    DeleteEffect(w, p.candidate.key, None);
    var e := w.(store := DeleteObject(w.store, p.candidate.key));
    match c.failure
    case NoFailure => Continue(w, e, a, Finishing(p.now, p.candidate, p.rest));
    case FailedBefore => NextCandidateKeepsInv(w, w, a, p.now, p.rest);
    case FailedAfter => NextCandidateKeepsInv(w, e, a, p.now, p.rest);
  }

  lemma LifecycleCleanupKeepsInv(w: World, a: ActorId, c: Choice)
    requires Inv(w) && Enabled(w, a, c)
    requires var p := w.actors[a];
             p.Selecting? || p.Claiming? || p.DeletingClaimed? || p.Finishing?
    ensures Kept(w, Run(w, a, c))
  {
    match w.actors[a]
    case Selecting(now) =>
      NoEffect(w);
      NextCandidateKeepsInv(w, w, a, now, c.candidates);
    case Claiming(_, _) => ClaimingKeepsInv(w, a, c);
    case DeletingClaimed(_, _, _) => DeletingClaimedKeepsInv(w, a, c);
    case Finishing(now, k, rest) =>
      assert ActorInv(w, a, w.actors[a]);
      FinishEffect(w, k.id);
      NextCandidateKeepsInv(w, w.(store := FinishLifecycleCleanup(w.store, k.id)), a, now, rest);
    case _ =>
  }

  lemma NextListedKeepsInv(w: World, e: World, a: ActorId, now: nat, page: seq<Key>)
    requires Inv(w) && a in w.actors && Owned(w.actors[a]).None? && GoodEffect(w, e, None)
    requires forall k | k in page :: k in w.usedKeys
    ensures Kept(w, NextListed(e, a, now, page))
  {
    Continue(w, e, a, if page == [] then Listing(now) else CheckingTracked(now, page));
  }

  lemma UntrackedIsNotCurrent(w: World, key: Key)
    requires Inv(w) && IsCurrentKey(w.store, key)
    ensures ObjectIsTracked(w.store, key)
  {
    var id := w.store.inbox.current.value;
    assert w.store.lifecycle[id].objectKey == key;
  }

  lemma SweepKeepsInv(w: World, a: ActorId, c: Choice)
    requires Inv(w) && Enabled(w, a, c)
    requires var p := w.actors[a];
             p.Listing? || p.CheckingTracked? || p.CheckingCurrent? || p.DeletingUntracked?
    ensures Kept(w, Run(w, a, c))
  {
    NoEffect(w);
    assert ActorInv(w, a, w.actors[a]);
    match w.actors[a]
    case Listing(now) => NextListedKeepsInv(w, w, a, now, c.page);
    case CheckingTracked(now, page) =>
      if ObjectIsTracked(w.store, page[0]) {
        NextListedKeepsInv(w, w, a, now, page[1..]);
      } else {
        assert Settled(w, page[0]);
        if IsCurrentKey(w.store, page[0]) { UntrackedIsNotCurrent(w, page[0]); }
        Continue(w, w, a, CheckingCurrent(now, page[0], page[1..]));
      }
    case CheckingCurrent(now, key, page) =>
      if IsCurrentKey(w.store, key) { NextListedKeepsInv(w, w, a, now, page); }
      else { Continue(w, w, a, DeletingUntracked(now, key, page)); }
    case DeletingUntracked(now, key, page) =>
      DeleteEffect(w, key, None);
      if c.failure == FailedBefore { NextListedKeepsInv(w, w, a, now, page); }
      else { NextListedKeepsInv(w, w.(store := DeleteObject(w.store, key)), a, now, page); }
    case _ =>
  }

  // ---- reads -------------------------------------------------------------------------

  lemma ReadMetadataKeepsInv(w: World, a: ActorId, request: ReadRequest, revision: nat, id: Id)
    requires Inv(w) && a in w.actors && w.actors[a] == ReaderMetadata(request, revision, id)
    ensures forall c | Enabled(w, a, c) :: Kept(w, Run(w, a, c))
  {
    NoEffect(w);
    assert ActorInv(w, a, w.actors[a]);
    if id !in w.store.bundles {
      Leave(w, w, a);
    } else {
      var row := w.store.bundles[id];
      assert LogShows(w, revision, id, row);
      match request {
        case BundleRequest => Continue(w, w, a, ReaderObject(revision, row));
        case ManifestRequest(ifRevision, ifNoneMatch) =>
          if ifRevision == Some(revision) || ifNoneMatch == Some(row.etag) {
            Answer(w, w, a, NotModified(revision, row.etag, ifRevision, ifNoneMatch));
          } else {
            Answer(w, w, a, Manifest(revision, row.etag, row.manifest));
          }
      }
    }
  }

  lemma ReadObjectKeepsInv(w: World, a: ActorId, revision: nat, row: BundleRow)
    requires Inv(w) && a in w.actors && w.actors[a] == ReaderObject(revision, row)
    ensures forall c | Enabled(w, a, c) :: Kept(w, Run(w, a, c))
  {
    NoEffect(w);
    assert ActorInv(w, a, w.actors[a]);
    if row.objectKey in w.store.objects {
      var id :| LogShows(w, revision, id, row);
      Answer(w, w, a, Body(revision, row, w.store.objects[row.objectKey]));
    } else {
      Leave(w, w, a);
    }
  }

  lemma ReaderKeepsInv(w: World, a: ActorId, c: Choice)
    requires Inv(w) && Enabled(w, a, c)
    requires var p := w.actors[a]; p.ReaderInbox? || p.ReaderMetadata? || p.ReaderObject?
    ensures Kept(w, Run(w, a, c))
  {
    match w.actors[a]
    case ReaderInbox(request) =>
      NoEffect(w);
      match w.store.inbox.current {
        case None => Answer(w, w, a, Empty(w.store.inbox.revision));
        case Some(id) => Continue(w, w, a, ReaderMetadata(request, w.store.inbox.revision, id));
      }
    case ReaderMetadata(request, revision, id) => ReadMetadataKeepsInv(w, a, request, revision, id);
    case ReaderObject(revision, row) => ReadObjectKeepsInv(w, a, revision, row);
    case _ =>
  }

  lemma RunKeepsInv(w: World, a: ActorId, c: Choice)
    requires Inv(w) && Enabled(w, a, c)
    ensures Kept(w, Run(w, a, c))
  {
    match w.actors[a]
    case ReadingInbox(_, _) => PushPrefixKeepsInv(w, a, c);
    case ReadingPrevious(_, _, _) => PushPrefixKeepsInv(w, a, c);
    case DeletingPrevious(_, _, _, _) => PushPrefixKeepsInv(w, a, c);
    case Clearing(job, now, previous) => ClearStepKeepsInv(w, a, job, now, previous);
    case Reserving(_, _) => ReservingKeepsInv(w, a, c);
    case Putting(_, _, _) => PuttingKeepsInv(w, a, c);
    case Publishing(_, _, _, _) => PublishingKeepsInv(w, a, c);
    case Selecting(_) => LifecycleCleanupKeepsInv(w, a, c);
    case Claiming(_, _) => LifecycleCleanupKeepsInv(w, a, c);
    case DeletingClaimed(_, _, _) => LifecycleCleanupKeepsInv(w, a, c);
    case Finishing(_, _, _) => LifecycleCleanupKeepsInv(w, a, c);
    case Listing(_) => SweepKeepsInv(w, a, c);
    case CheckingTracked(_, _) => SweepKeepsInv(w, a, c);
    case CheckingCurrent(_, _, _) => SweepKeepsInv(w, a, c);
    case DeletingUntracked(_, _, _) => SweepKeepsInv(w, a, c);
    case ReaderInbox(_) => ReaderKeepsInv(w, a, c);
    case ReaderMetadata(_, _, _) => ReaderKeepsInv(w, a, c);
    case ReaderObject(_, _) => ReaderKeepsInv(w, a, c);
  }

  lemma StartKeepsInv(w: World, a: ActorId, actor: Actor)
    requires Inv(w) && a !in w.started && IsEntryPoint(actor)
    ensures Kept(w, Start(w, a, actor))
  {
    var w' := Start(w, a, actor);
    assert Guarantee(w, w, None);
    GuaranteeIgnoresActors(w, w, w', None);
    StartedActors(w, a, actor);
    assert StoreInv(w') && LogInv(w');
  }

  lemma StartedActors(w: World, a: ActorId, actor: Actor)
    requires ActorsInv(w) && a !in w.started && IsEntryPoint(actor)
    ensures ActorsInv(Start(w, a, actor))
  {
    var w' := Start(w, a, actor);
    forall b | b in w'.actors ensures ActorInv(w', b, w'.actors[b]) {
      if b != a { SameKnowledge(w, w', b, w.actors[b]); }
    }
    forall b | b in w'.responses ensures ResponseInv(w', b, w'.responses[b]) {
      SameAnswer(w, w', b, w.responses[b]);
    }
  }

  lemma StopKeepsInv(w: World, a: ActorId)
    requires Inv(w)
    ensures Kept(w, Halt(w, a))
  {
    NoEffect(w);
    if a in w.actors {
      Leave(w, w, a);
    } else {
      assert Halt(w, a).actors == w.actors;
      assert Halt(w, a) == w;
      assert Guarantee(w, w, None);
    }
  }

  /** The invariant is inductive. */
  lemma NextKeepsInv(w: World, w': World)
    requires Inv(w) && Next(w, w')
    ensures Kept(w, w')
  {
    var move :| Moves(w, w', move);
    match move
    case Starting(a, actor) => StartKeepsInv(w, a, actor);
    case Running(a, c) => RunKeepsInv(w, a, c);
    case Stopping(a) => StopKeepsInv(w, a);
  }

  lemma InitHasInv(w: World)
    requires Init(w)
    ensures Inv(w)
  {}
}
