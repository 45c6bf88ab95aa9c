/** What the inbox protocol promises over whole runs: safety of the current
    bundle, finality of deletions, and what a revision tells a client. */
module InboxTheorems {
  import opened Options
  import opened InboxStore
  import opened InboxProtocol
  import opened InboxInvariant
  import opened InboxSteps

  lemma {:induction false} RunHasInv(run: seq<World>, i: nat)
    requires IsRun(run) && i < |run|
    ensures Inv(run[i])
  {
    if i == 0 {
      InitHasInv(run[0]);
    } else {
      RunHasInv(run, i - 1);
      assert Next(run[i - 1], run[i - 1 + 1]);
      NextKeepsInv(run[i - 1], run[i]);
    }
  }

  /** Whatever pushes, clears and cleanups interleave and fail: if the inbox names
      a bundle, then its metadata row exists, its lifecycle row is `published`,
      and the archive that the metadata describes is still in the bucket. */
  lemma CurrentBundleIsServed(run: seq<World>, i: nat, id: Id)
    requires IsRun(run) && i < |run| && run[i].store.inbox.current == Some(id)
    ensures id in run[i].store.bundles
    ensures var row := run[i].store.bundles[id];
      && row.lifecycleId in run[i].store.lifecycle
      && run[i].store.lifecycle[row.lifecycleId].state == Published
      && row.objectKey in run[i].store.objects
      && Describes(row, run[i].store.objects[row.objectKey])
  {
    RunHasInv(run, i);
  }

  /** The actor has decided to delete this object, or has just deleted it. */
  ghost predicate HasCondemned(actor: Actor, key: Key) {
    match actor
    case DeletingPrevious(_, _, k, _) => k == key
    case DeletingClaimed(_, candidate, _) => candidate.key == key
    case Finishing(_, candidate, _) => candidate.key == key
    case DeletingUntracked(_, k, _) => k == key
    case _ => false
  }

  lemma MoveKeepsDoomed(w: World, w': World, key: Key)
    requires Inv(w) && Next(w, w') && Doomed(w, key)
    ensures Doomed(w', key)
  {
    NextKeepsInv(w, w');
    var owned :| Guarantee(w, w', owned);
    DoomedStays(w, w', owned, key);
  }

  lemma MoveKeepsLog(w: World, w': World, r: nat)
    requires Inv(w) && Next(w, w') && r in w.log
    ensures r in w'.log && w'.log[r] == w.log[r]
  {
    NextKeepsInv(w, w');
    var owned :| Guarantee(w, w', owned);
  }

  lemma RunMove(run: seq<World>, j: nat)
    requires IsRun(run) && 0 < j < |run|
    ensures Inv(run[j - 1]) && Next(run[j - 1], run[j])
  {
    RunHasInv(run, j - 1);
    assert Next(run[j - 1], run[j - 1 + 1]);
  }

  lemma RunMoveKeepsDoomed(run: seq<World>, j: nat, key: Key)
    requires IsRun(run) && 0 < j < |run| && Doomed(run[j - 1], key)
    ensures Doomed(run[j], key)
  {
    RunMove(run, j);
    MoveKeepsDoomed(run[j - 1], run[j], key);
  }

  lemma {:induction false} DoomedForever(run: seq<World>, i: nat, j: nat, key: Key)
    requires IsRun(run) && i <= j < |run| && Doomed(run[i], key)
    ensures Doomed(run[j], key)
  {
    if i < j {
      DoomedForever(run, i, j - 1, key);
      RunMoveKeepsDoomed(run, j, key);
    }
  }

  /** An object that a clear, a claimed cleanup or an untracked sweep is about to
      delete is never current from then on, so no delete hits a served bundle. */
  lemma CondemnedIsNeverCurrent(run: seq<World>, i: nat, j: nat, a: ActorId, key: Key)
    requires IsRun(run) && i <= j < |run|
    requires a in run[i].actors && HasCondemned(run[i].actors[a], key)
    ensures !IsCurrentKey(run[j].store, key)
  {
    RunHasInv(run, i);
    assert ActorInv(run[i], a, run[i].actors[a]);
    DoomedForever(run, i, j, key);
  }

  // ---- revisions ----------------------------------------------------------------

  lemma RunMoveKeepsLog(run: seq<World>, j: nat, r: nat)
    requires IsRun(run) && 0 < j < |run| && r in run[j - 1].log
    ensures r in run[j].log && run[j].log[r] == run[j - 1].log[r]
  {
    RunMove(run, j);
    MoveKeepsLog(run[j - 1], run[j], r);
  }

  lemma {:induction false} LogOnlyGrows(run: seq<World>, i: nat, j: nat, r: nat)
    requires IsRun(run) && i <= j < |run| && r in run[i].log
    ensures r in run[j].log && run[j].log[r] == run[i].log[r]
  {
    if i < j {
      LogOnlyGrows(run, i, j - 1, r);
      RunMoveKeepsLog(run, j, r);
    }
  }

  /** Over a whole run a revision determines the current bundle and its metadata. */
  lemma RevisionDeterminesBundle(run: seq<World>, i: nat, j: nat)
    requires IsRun(run) && i < |run| && j < |run|
    requires run[i].store.inbox.revision == run[j].store.inbox.revision
    ensures Shown(run[i].store) == Shown(run[j].store)
  {
    var lo, hi := if i <= j then i else j, if i <= j then j else i;
    RunHasInv(run, i);
    RunHasInv(run, j);
    LogOnlyGrows(run, lo, hi, run[lo].store.inbox.revision);
  }

  /** A move leaves the inbox alone or is one committed write, which raises the
      revision by exactly one. */
  lemma MovesRaiseRevisionByOne(w: World, w': World)
    requires Inv(w) && Next(w, w')
    ensures || w'.store.inbox == w.store.inbox
            || w'.store.inbox.revision == w.store.inbox.revision + 1
  {
    NextKeepsInv(w, w');
    var owned :| Guarantee(w, w', owned);
  }

  function WriteRevision(response: Response): Option<nat> {
    match response
    case Cleared(revision) => Some(revision)
    case Pushed(revision, _) => Some(revision)
    case _ => None
  }

  /** Each successful push or clear is told a revision of its own. */
  lemma SuccessfulWritesHaveDistinctRevisions(run: seq<World>, i: nat, a: ActorId, b: ActorId)
    requires IsRun(run) && i < |run| && a != b
    requires a in run[i].responses && b in run[i].responses
    requires WriteRevision(run[i].responses[a]).Some?
    ensures WriteRevision(run[i].responses[a]) != WriteRevision(run[i].responses[b])
  {
    RunHasInv(run, i);
    assert ResponseInv(run[i], a, run[i].responses[a]);
    assert ResponseInv(run[i], b, run[i].responses[b]);
  }

  /** What a response says the inbox showed, next to what it did show. */
  ghost predicate Agrees(response: Response, revision: nat, shown: Option<(Id, BundleRow)>) {
    match response
    case Cleared(r) => r == revision ==> shown.None?
    case Pushed(r, id) => r == revision ==> shown.Some? && shown.value.0 == id
    case Empty(r) => r == revision ==> shown.None?
    case Manifest(r, etag, manifest) => r == revision ==>
      shown.Some? && shown.value.1.etag == etag && shown.value.1.manifest == manifest
    case NotModified(r, etag, _, _) => r == revision ==> shown.Some? && shown.value.1.etag == etag
    case Body(r, row, stored) => r == revision ==>
      shown.Some? && shown.value.1 == row && Describes(row, stored)
  }

  /** A response with revision `r` agrees with the inbox at every moment at which
      the revision is `r`. In particular the two queries of one read are consistent
      with the inbox at the first of them, and a downloaded archive is the one that
      the metadata of its revision describes. */
  lemma ResponsesAgreeWithTheirRevision(run: seq<World>, i: nat, j: nat, a: ActorId)
    requires IsRun(run) && i < |run| && j < |run| && a in run[j].responses
    ensures Agrees(run[j].responses[a], run[i].store.inbox.revision, Shown(run[i].store))
  {
    RunHasInv(run, i);
    RunHasInv(run, j);
    var r := run[i].store.inbox.revision;
    assert ResponseInv(run[j], a, run[j].responses[a]);
    if r in run[j].log {
      if i <= j { LogOnlyGrows(run, i, j, r); } else { LogOnlyGrows(run, j, i, r); }
    }
    var response := run[j].responses[a];
    if response.Body? {
      var id :| LogShows(run[j], response.revision, id, response.row);
    }
  }

  /** What R2 promises of entity tags: equal tags, equal archives. */
  ghost predicate EtagsIdentify(log: map<nat, Entry>) {
    forall r, s | r in log && s in log && log[r].shown.Some? && log[s].shown.Some? ::
      log[r].shown.value.1.etag == log[s].shown.value.1.etag ==>
        log[r].shown.value.1.manifest == log[s].shown.value.1.manifest
  }

  /** A reader that asks with the revision or the entity tag of a manifest it got, and is
      told `NotModified`, holds the entity tag and the manifest of the revision it is told.
      Asking by revision needs no promise about entity tags. */
  lemma NotModifiedReaderIsUpToDate(run: seq<World>, i: nat, reader: ActorId, earlier: ActorId)
    requires IsRun(run) && i < |run|
    requires reader in run[i].responses && earlier in run[i].responses
    requires run[i].responses[reader].NotModified? && run[i].responses[earlier].Manifest?
    requires var told, held := run[i].responses[reader], run[i].responses[earlier];
      && (told.ifRevision.Some? ==> told.ifRevision == Some(held.revision))
      && (told.ifNoneMatch.Some? ==> told.ifNoneMatch == Some(held.etag))
      && (told.ifRevision == Some(told.revision) || EtagsIdentify(run[i].log))
    ensures var told, held := run[i].responses[reader], run[i].responses[earlier];
      && held.etag == told.etag
      && told.revision in run[i].log && run[i].log[told.revision].shown.Some?
      && run[i].log[told.revision].shown.value.1.manifest == held.manifest
  {
    RunHasInv(run, i);
    assert ResponseInv(run[i], reader, run[i].responses[reader]);
    assert ResponseInv(run[i], earlier, run[i].responses[earlier]);
  }
}
