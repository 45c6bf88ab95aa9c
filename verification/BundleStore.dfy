/** The Worker's handle on the tables and the bucket: its statements, and the
    operations built from them as they run when nothing else interferes.
    `InboxProtocol` interleaves the same statements. */
module BundleStorage {
  import opened Options
  import opened Counting
  import opened InboxStore
  import opened InboxProtocol
  import opened InboxInvariant
  import opened InboxSteps
  import opened CleanupPass

  /** The awaited calls of a push or a clear. Each can fail before its effect, or take effect
      and then be reported as failed. */
  datatype Fault = D1Clear | R2Delete | D1Reserve | R2Put | D1Publish

  datatype PushError = InvalidBundle | Storage(fault: Fault)

  /** A D1 call of a cleanup pass that fails: the claim or the finish of a selected row. */
  datatype Abort = AtClaim(row: nat) | AtFinish(row: nat)

  /** A call of the sweep that fails: a listing that starts at a position, or a D1 query about
      the object there. */
  datatype SweepFault = AtListing(position: nat) | AtQuery(position: nat)

  /** The query about a stale object fails; no other object is asked about. */
  predicate FailsAtQuery(s: Store, key: Key, now: nat, broken: Option<SweepFault>, position: nat) {
    key in s.objects && ObjectIsStale(s.objects[key], now) && broken == Some(AtQuery(position))
  }

  /** What became of one selected row. */
  datatype CleanOutcome = Stopped | Skipped | NotDeleted | Cleaned

  datatype CleanupReport = CleanupReport(
    lifecycleCandidates: nat, lifecycleClaimed: nat, lifecycleDeleted: nat,
    r2Scanned: nat, r2Deleted: nat, r2Truncated: bool, failures: nat)

  /** The bundle that a successful push leaves behind, in place of the previous one. */
  ghost predicate Replaces(s: Store, p: Store, id: Id, stored: StoredObject, now: nat) {
    var key := CandidateObjectKey(id);
    && stored.upload.manifest.Some?
    && p.inbox == Inbox(s.inbox.revision + 2, Some(id))
    && p.bundles == s.bundles[id := NewRow(stored.upload, id, stored.etag)]
    && p.lifecycle == s.lifecycle[id := LifecycleRow(key, Published,
                                                     SaturatingAdd(now, CLEANUP_RETENTION_SECONDS))]
    && p.objects == (s.objects - CurrentKeys(s))[key := stored]
  }

  function CurrentKeys(s: Store): set<Key> {
    if Shown(s).Some? then {Shown(s).value.1.objectKey} else {}
  }

  /** A failed push has removed what was current and added no metadata. */
  ghost predicate ClearedFor(s: Store, p: Store, id: Id) {
    && p.inbox == Inbox(s.inbox.revision + 1, None)
    && p.bundles == s.bundles
    && p.lifecycle - {id} == s.lifecycle
    && (forall k | k in p.objects :: k in s.objects || k == CandidateObjectKey(id))
  }

  predicate IsFresh(s: Store, id: Id) {
    && id !in s.lifecycle
    && !ObjectIsTracked(s, CandidateObjectKey(id))
    && CandidateObjectKey(id) !in s.objects
  }

  class BundleStore {
    var inbox: Inbox
    var bundles: map<Id, BundleRow>
    var lifecycle: map<Id, LifecycleRow>
    var objects: map<Key, StoredObject>

    function Snapshot(): Store
      reads this
    {
      Store(inbox, bundles, lifecycle, objects)
    }

    constructor (s: Store)
      ensures Snapshot() == s
    {
      inbox, bundles, lifecycle, objects := s.inbox, s.bundles, s.lifecycle, s.objects;
    }

    // ---- statements ---------------------------------------------------------

    /** The object key of the current bundle; an error when its row is missing. */
    method CurrentBundle() returns (r: Result<Option<Key>, Id>)
      ensures inbox.current.None? ==> r == Ok(None)
      ensures inbox.current.Some? && inbox.current.value in bundles ==>
        r == Ok(Some(bundles[inbox.current.value].objectKey))
      ensures r.Err? <==> inbox.current.Some? && inbox.current.value !in bundles
    {
      match inbox.current {
        case None => r := Ok(None);
        case Some(id) => r := if id in bundles then Ok(Some(bundles[id].objectKey)) else Err(id);
      }
    }

    method ClearInboxRow() returns (revision: nat)
      modifies this`inbox
      ensures Snapshot() == ClearInbox(old(Snapshot())) && revision == inbox.revision
    {
      inbox := Inbox(inbox.revision + 1, None);
      revision := inbox.revision;
    }

    method DeleteStored(key: Key)
      modifies this`objects
      ensures Snapshot() == DeleteObject(old(Snapshot()), key)
    {
      objects := objects - {key};
    }

    /** Delete the bundle of a row, unless it is current, and the row if it is claimed and
        no bundle is left that refers to it. */
    method Finish(id: Id)
      modifies this`bundles, this`lifecycle
      ensures forall b :: b in bundles <==>
        b in old(bundles) && (old(bundles)[b].lifecycleId != id || inbox.current == Some(b))
      ensures forall b | b in bundles :: bundles[b] == old(bundles)[b]
      ensures forall i :: i in lifecycle <==>
        && i in old(lifecycle)
        && (i == id && old(lifecycle)[i].state == CleanupClaimed ==> old(IsCurrentLifecycle(Snapshot(), id)))
      ensures forall i | i in lifecycle :: lifecycle[i] == old(lifecycle)[i]
      ensures Snapshot() == FinishLifecycleCleanup(old(Snapshot()), id)
    {
      bundles := BundlesAfterCleanup(Snapshot(), id);
      if && id in lifecycle
         && lifecycle[id].state == CleanupClaimed
         && !exists b | b in bundles :: bundles[b].lifecycleId == id
      {
        lifecycle := lifecycle - {id};
      }
    }

    /** Claim a row for cleanup: exactly when it has expired and the current bundle does not
        belong to it. Its key and deadline stay, and so does every other row. */
    method Claim(id: Id, now: nat) returns (claimed: bool)
      modifies this`lifecycle
      ensures claimed <==>
        && id in old(lifecycle) && old(lifecycle)[id].cleanupAfter <= now
        && !(inbox.current.Some? && inbox.current.value in bundles
             && bundles[inbox.current.value].lifecycleId == id)
      ensures lifecycle.Keys == old(lifecycle).Keys
      ensures forall i | i in lifecycle && !(claimed && i == id) :: lifecycle[i] == old(lifecycle)[i]
      ensures claimed ==>
        && lifecycle[id].state == CleanupClaimed
        && lifecycle[id].objectKey == old(lifecycle)[id].objectKey
        && lifecycle[id].cleanupAfter == old(lifecycle)[id].cleanupAfter
      ensures Snapshot() == ClaimLifecycle(old(Snapshot()), id, now)
      ensures claimed == Claimable(old(Snapshot()), id, now)
    {
      claimed := Claimable(Snapshot(), id, now);
      if claimed {
        lifecycle := lifecycle[id := lifecycle[id].(state := CleanupClaimed)];
      }
    }

    /** The three-statement publication batch. It succeeds exactly for a row that is still
        uploading and collides with no bundle. A batch for an id that already has a bundle
        but is not uploading points the inbox at it, although it is reported as failed. */
    method PublishBatch(id: Id, row: BundleRow, now: nat) returns (revision: Option<nat>)
      modifies this`inbox, this`bundles, this`lifecycle
      ensures revision.Some? <==>
        && IsUploading(old(Snapshot()), id) && id !in old(bundles)
        && forall b | b in old(bundles) ::
             old(bundles)[b].objectKey != row.objectKey && old(bundles)[b].lifecycleId != id
      ensures revision.Some? ==>
        && revision.value == inbox.revision && inbox == Inbox(old(inbox.revision) + 1, Some(id))
        && bundles == old(bundles)[id := row]
        && lifecycle == old(lifecycle)[id := LifecycleRow(old(lifecycle)[id].objectKey, Published,
                                                         SaturatingAdd(now, CLEANUP_RETENTION_SECONDS))]
      ensures revision.None? ==>
        && bundles == old(bundles) && lifecycle == old(lifecycle)
        && inbox == if id in old(bundles) && !IsUploading(old(Snapshot()), id)
                    then Inbox(old(inbox.revision) + 1, Some(id)) else old(inbox)
      ensures match Publish(old(Snapshot()), id, row, now)
        case None => Snapshot() == old(Snapshot()) && revision == None
        case Some((s, marked)) =>
          Snapshot() == s && revision == if marked then Some(s.inbox.revision) else None
    {
      match Publish(Snapshot(), id, row, now)
      case None => revision := None;
      case Some((s, marked)) =>
        inbox, bundles, lifecycle := s.inbox, s.bundles, s.lifecycle;
        revision := if marked then Some(s.inbox.revision) else None;
    }

    // ---- operations ------------------------------------------------------------

    /** Remove the reference, then the object. The calls in `faults` fail before their
        effect, those in `late` after it. */
    method Clear(faults: set<Fault>, late: set<Fault>) returns (r: Result<nat, Fault>)
      requires Healthy(Snapshot())
      modifies this
      ensures Healthy(Snapshot())
      ensures bundles == old(bundles) && lifecycle == old(lifecycle)
      ensures D1Clear in faults ==> r == Err(D1Clear) && Snapshot() == old(Snapshot())
      ensures D1Clear !in faults ==> inbox == Inbox(old(inbox.revision) + 1, None)
      ensures r.Ok? ==> r.value == inbox.revision && objects == old(objects) - CurrentKeys(old(Snapshot()))
      ensures r.Ok? <==> D1Clear !in faults + late && (R2Delete in faults + late ==> old(inbox.current).None?)
      ensures objects == old(objects) || objects == old(objects) - CurrentKeys(old(Snapshot()))
    {
      var previous := CurrentBundle();
      if D1Clear in faults { return Err(D1Clear); }
      var revision := ClearInboxRow();
      if D1Clear in late { return Err(D1Clear); }
      if previous.value.Some? {
        if R2Delete in faults { return Err(R2Delete); }
        DeleteStored(previous.value.value);
        if R2Delete in late { return Err(R2Delete); }
      }
      r := Ok(revision);
    }

    /** Replace the current bundle. It succeeds exactly when the archive is valid and no call
        fails; otherwise nothing new becomes current, unless the publication took effect
        and only its answer was lost. */
    method Push(upload: Upload, now: nat, id: Id, etag: string, faults: set<Fault>, late: set<Fault>)
      returns (r: Result<nat, PushError>)
      requires Healthy(Snapshot()) && IsFresh(Snapshot(), id)
      modifies this
      ensures Healthy(Snapshot())
      ensures r.Ok? ==>
        && r.value == inbox.revision
        && Replaces(old(Snapshot()), Snapshot(), id, StoredObject(upload, etag, now), now)
      ensures r.Err? ==>
        || Snapshot() == old(Snapshot())
        || ClearedFor(old(Snapshot()), Snapshot(), id)
        || (&& r == Err(Storage(D1Publish)) && D1Publish in late - faults
            && Replaces(old(Snapshot()), Snapshot(), id, StoredObject(upload, etag, now), now))
      ensures r == Err(InvalidBundle) ==> objects == old(objects) - CurrentKeys(old(Snapshot()))
      ensures r.Ok? <==>
        && upload.manifest.Some?
        && D1Clear !in faults + late && (R2Delete in faults + late ==> old(inbox.current).None?)
        && D1Reserve !in faults + late && R2Put !in faults + late && D1Publish !in faults + late
    {
      var cleared := Clear(faults, late);
      if cleared.Err? { return Err(Storage(cleared.error)); }
      if upload.manifest.None? { return Err(InvalidBundle); }
      r := StoreAndPublish(upload, now, id, etag, faults, late);
    }

    /** The second half of a push: reserve the key, store the archive, publish it. */
    method StoreAndPublish(
      upload: Upload, now: nat, id: Id, etag: string, faults: set<Fault>, late: set<Fault>)
      returns (r: Result<nat, PushError>)
      requires Healthy(Snapshot()) && IsFresh(Snapshot(), id) && inbox.current.None? && upload.manifest.Some?
      modifies this
      ensures Healthy(Snapshot())
      ensures r.Ok? <==> D1Reserve !in faults + late && R2Put !in faults + late && D1Publish !in faults + late
      ensures r != Err(InvalidBundle)
      ensures r.Ok? || (r == Err(Storage(D1Publish)) && D1Publish !in faults) ==>
        && inbox == Inbox(old(inbox.revision) + 1, Some(id))
        && bundles == old(bundles)[id := NewRow(upload, id, etag)]
        && lifecycle == old(lifecycle)[id := LifecycleRow(CandidateObjectKey(id), Published,
                                                         SaturatingAdd(now, CLEANUP_RETENTION_SECONDS))]
        && objects == old(objects)[CandidateObjectKey(id) := StoredObject(upload, etag, now)]
      ensures r.Ok? ==> r.value == inbox.revision
      ensures r == Err(Storage(D1Publish)) ==> D1Publish in faults + late
      ensures r.Err? && !(r == Err(Storage(D1Publish)) && D1Publish !in faults) ==>
        && inbox == old(inbox) && bundles == old(bundles) && lifecycle - {id} == old(lifecycle)
        && (objects == old(objects) || objects == old(objects)[CandidateObjectKey(id) := StoredObject(upload, etag, now)])
    {
      var key := CandidateObjectKey(id);
      if D1Reserve in faults { return Err(Storage(D1Reserve)); }
      ReserveIsHealthy(Snapshot(), id, now);
      lifecycle := ReserveLifecycle(Snapshot(), id, key, now).value.lifecycle;
      if D1Reserve in late || R2Put in faults {
        return Err(Storage(if D1Reserve in late then D1Reserve else R2Put));
      }
      PutIsHealthy(Snapshot(), id, StoredObject(upload, etag, now));
      objects := objects[key := StoredObject(upload, etag, now)];
      if R2Put in late || D1Publish in faults {
        return Err(Storage(if R2Put in late then R2Put else D1Publish));
      }
      PublishIsHealthy(Snapshot(), id, NewRow(upload, id, etag), now);
      var revision := PublishBatch(id, NewRow(upload, id, etag), now);
      r := if D1Publish in late then Err(Storage(D1Publish)) else Ok(revision.value);
    }

    method Earliest(ids: set<Id>) returns (id: Id)
      requires ids != {} && ids <= lifecycle.Keys
      ensures id in ids && forall j | j in ids :: lifecycle[id].cleanupAfter <= lifecycle[j].cleanupAfter
    {
      EarliestExists(Snapshot(), ids);
      id :| id in ids && forall j | j in ids :: lifecycle[id].cleanupAfter <= lifecycle[j].cleanupAfter;
    }

    /** The expired rows with the earliest deadlines, at most one batch of them. */
    method ExpiredCandidates(now: nat) returns (rows: seq<Candidate>)
      ensures SelectsExpired(Snapshot(), now, rows)
    {
      rows := [];
      var left := ExpiredIds(Snapshot(), now);
      while |rows| < CLEANUP_BATCH_SIZE && left != {}
        invariant |rows| <= CLEANUP_BATCH_SIZE
        invariant SelectedSoFar(Snapshot(), now, rows, left)
        decreases left
      {
        var id := Earliest(left);
        SelectedExtends(Snapshot(), now, rows, left, id);
        rows := rows + [Candidate(id, lifecycle[id].objectKey)];
        left := left - {id};
      }
    }

    /** Clean the selected rows one after another. A failing bucket delete is logged and
        leaves its row claimed for the next pass; a failing D1 call ends the pass where it
        stands. */
    method CleanupLifecycle(now: nat, failing: set<Key>, abort: Option<Abort>)
      returns (report: Option<CleanupReport>, ghost rows: seq<Candidate>)
      requires Healthy(Snapshot())
      modifies this
      ensures Healthy(Snapshot())
      ensures SelectsExpired(old(Snapshot()), now, rows)
      ensures report.None? <==> abort.Some? && Aborts(old(Snapshot()), rows, failing, abort.value)
      ensures report.None? ==> Snapshot() == AbortedPass(old(Snapshot()), rows, now, failing, abort.value)
      ensures report.Some? ==>
        && Snapshot() == CleanAll(old(Snapshot()), rows, now, failing)
        && RemovesExactly(old(Snapshot()), Snapshot(), Removed(old(Snapshot()), rows, failing))
        && report.value.lifecycleCandidates == |rows|
        && report.value.lifecycleDeleted == |Removed(old(Snapshot()), rows, failing)|
        && report.value.lifecycleClaimed == report.value.lifecycleDeleted + report.value.failures
      ensures report.Some? && failing == {} ==>
        && IsPass(old(Snapshot()), Snapshot(), now)
        && report.value.lifecycleDeleted >= Min(|IdleIds(old(Snapshot()), now)|, 99)
    {
      var candidates := ExpiredCandidates(now);
      rows := candidates;
      ghost var before := Snapshot();
      var finished, claimed, deleted, failures := CleanCandidates(now, candidates, failing, abort);
      if !finished {
        AbortedIsHealthy(before, candidates, now, failing, abort.value);
        return None, rows;
      }
      CleanAllEffect(before, candidates, now, failing);
      if failing == {} { PassRemovesAtLeast(before, candidates, now); }
      report := Some(CleanupReport(|candidates|, claimed, deleted, 0, 0, false, failures));
    }

    /** Claim row `i`, delete its object and finish it, unless a D1 call fails. */
    method CleanCandidate(now: nat, k: Candidate, i: nat, failing: set<Key>, abort: Option<Abort>)
      returns (outcome: CleanOutcome)
      modifies this
      ensures Cleans(old(Snapshot()), Snapshot(), k, i, now, failing, abort, outcome)
    {
      if abort == Some(AtClaim(i)) { return Stopped; }
      var claimed := Claim(k.id, now);
      if !claimed { return Skipped; }
      if k.key in failing { return NotDeleted; }
      DeleteStored(k.key);
      if abort == Some(AtFinish(i)) { return Stopped; }
      Finish(k.id);
      outcome := Cleaned;
    }

    /** Clean each row and count, until a D1 call fails. */
    method CleanCandidates(now: nat, rows: seq<Candidate>, failing: set<Key>, abort: Option<Abort>)
      returns (finished: bool, claimed: nat, deleted: nat, failures: nat)
      requires Healthy(Snapshot()) && SelectsExpired(Snapshot(), now, rows)
      modifies this
      ensures !finished <==> abort.Some? && Aborts(old(Snapshot()), rows, failing, abort.value)
      ensures !finished ==> Snapshot() == AbortedPass(old(Snapshot()), rows, now, failing, abort.value)
      ensures finished ==>
        && Snapshot() == CleanAll(old(Snapshot()), rows, now, failing)
        && deleted == |Removed(old(Snapshot()), rows, failing)|
        && claimed == deleted + failures
    {
      ghost var before := Snapshot();
      claimed, deleted, failures := 0, 0, 0;
      for i := 0 to |rows|
        invariant Snapshot() == CleanAll(before, rows[..i], now, failing)
        invariant deleted == |Removed(before, rows[..i], failing)|
        invariant claimed == deleted + failures
        invariant abort.Some? && abort.value.row < i ==> !Aborts(before, rows, failing, abort.value)
      {
        var outcome := CleanCandidate(now, rows[i], i, failing, abort);
        PassAdvances(before, Snapshot(), rows, i, now, failing, abort, outcome);
        match outcome
        case Stopped => return false, claimed, deleted, failures;
        case Skipped =>
        case NotDeleted => claimed, failures := claimed + 1, failures + 1;
        case Cleaned => claimed, deleted := claimed + 1, deleted + 1;
      }
      finished := true;
      assert rows[..|rows|] == rows;
    }

    /** Check and delete the objects of one listed page, `listing[from..to]`. */
    method SweepPage(
      now: nat, listing: seq<Key>, from: nat, to: nat, failing: set<Key>, broken: Option<SweepFault>, ghost s: Store)
      returns (at: nat, deleted: nat, failures: nat)
      requires from <= to <= |listing| && IsListing(s, listing)
      requires Snapshot() == s.(objects := s.objects - Swept(s, listing[..from], now, failing))
      modifies this`objects
      ensures from <= at <= to
      ensures forall j | from <= j <= at && j < to :: j == at <==> FailsAtQuery(s, listing[j], now, broken, j)
      ensures objects == s.objects - Swept(s, listing[..at], now, failing)
      ensures |Swept(s, listing[..at], now, failing)| == |Swept(s, listing[..from], now, failing)| + deleted
    {
      deleted, failures := 0, 0;
      for j := from to to
        invariant Snapshot() == s.(objects := s.objects - Swept(s, listing[..j], now, failing))
        invariant |Swept(s, listing[..j], now, failing)|
               == |Swept(s, listing[..from], now, failing)| + deleted
        invariant forall i | from <= i < j :: !FailsAtQuery(s, listing[i], now, broken, i)
      {
        var key := listing[j];
        SweepDecision(s, Snapshot(), listing, j, now, failing);
        if ObjectIsStale(objects[key], now) && broken == Some(AtQuery(j)) {
          return j, deleted, failures;
        }
        if IsSweepable(Snapshot(), key, now) {
          if key in failing {
            failures := failures + 1;
          } else {
            DeleteStored(key);
            deleted := deleted + 1;
          }
        }
      }
      at := to;
    }

    /** List at most a hundred bundle objects, page by page, and delete those that
        are stale, untracked and not current. `listing` is the order in which the bucket
        lists them and `pageSize` the service's own page limit; after the positions in
        `cursorless` it promises more but gives no cursor. A listing or query that fails
        ends the sweep without a report. */
    method CleanupUntrackedObjects(
      now: nat, listing: seq<Key>, pageSize: nat, failing: set<Key>, cursorless: set<nat>,
      broken: Option<SweepFault>, before: CleanupReport)
      returns (report: Option<CleanupReport>, ghost swept: nat)
      requires pageSize > 0 && before.r2Scanned == 0 && before.r2Deleted == 0
      requires IsListing(Snapshot(), listing) && ListsAll(Snapshot(), listing)
      modifies this`objects
      ensures swept <= |listing| && swept <= CLEANUP_MAX_R2_OBJECTS
      ensures objects == old(objects) - Swept(old(Snapshot()), listing[..swept], now, failing)
      ensures old(Healthy(Snapshot())) ==> Healthy(Snapshot())
      ensures report.None? ==>
        || broken == Some(AtListing(swept))
        || (swept < |listing| && FailsAtQuery(old(Snapshot()), listing[swept], now, broken, swept))
      ensures forall j | 0 <= j < swept :: !FailsAtQuery(old(Snapshot()), listing[j], now, broken, j)
      ensures report.Some? ==> broken != Some(AtListing(0))
      ensures report.Some? ==>
        && report.value.r2Scanned == swept
        && report.value.r2Deleted == |Swept(old(Snapshot()), listing[..swept], now, failing)|
        && (report.value.r2Truncated ==> |BundleObjects(old(Snapshot()))| > CLEANUP_MAX_R2_OBJECTS == swept)
      ensures report.Some? && cursorless == {} ==>
        && swept == Min(|BundleObjects(old(Snapshot()))|, CLEANUP_MAX_R2_OBJECTS)
        && (report.value.r2Truncated <==> |BundleObjects(old(Snapshot()))| > CLEANUP_MAX_R2_OBJECTS)
    {
      ghost var s := Snapshot();
      ListingCount(s, listing);
      swept := 0;
      var scanned, deleted, failures := 0, 0, before.failures;
      var truncated, finished := false, false;
      while scanned < CLEANUP_MAX_R2_OBJECTS && !finished
        invariant scanned == swept && scanned <= Min(|listing|, CLEANUP_MAX_R2_OBJECTS)
        invariant finished && cursorless == {} ==> scanned == Min(|listing|, CLEANUP_MAX_R2_OBJECTS)
        invariant truncated ==> |listing| > CLEANUP_MAX_R2_OBJECTS == scanned
        invariant finished && cursorless == {} ==> truncated == (|listing| > CLEANUP_MAX_R2_OBJECTS)
        invariant scanned == CLEANUP_MAX_R2_OBJECTS ==> finished
        invariant objects == s.objects - Swept(s, listing[..scanned], now, failing)
        invariant forall j | 0 <= j < scanned :: !FailsAtQuery(s, listing[j], now, broken, j)
        invariant scanned == 0 && broken == Some(AtListing(0)) ==> !finished
        invariant scanned > 0 ==> broken != Some(AtListing(0))
        invariant deleted == |Swept(s, listing[..scanned], now, failing)|
        decreases |listing| - scanned, !finished
      {
        SweepSparesTracked(s, listing[..scanned], now, failing);
        if broken == Some(AtListing(scanned)) { return None, swept; }
        var limit := Min(CLEANUP_MAX_R2_OBJECTS - scanned, Min(CLEANUP_BATCH_SIZE, pageSize));
        var next := Min(scanned + limit, |listing|);
        var more := next < |listing|;
        var at, removed, failed := SweepPage(now, listing, scanned, next, failing, broken, s);
        swept := at;
        if at < next {
          SweepSparesTracked(s, listing[..at], now, failing);
          return None, swept;
        }
        scanned, deleted, failures := next, deleted + removed, failures + failed;
        if !more || scanned >= CLEANUP_MAX_R2_OBJECTS {
          truncated := more && scanned >= CLEANUP_MAX_R2_OBJECTS;
          finished := true;
        } else if scanned in cursorless {
          finished := true;
        }
      }
      SweepSparesTracked(s, listing[..scanned], now, failing);
      report := Some(before.(r2Scanned := scanned, r2Deleted := deleted, r2Truncated := truncated,
                             failures := failures));
    }
  }

  /** Stored bundle objects, each listed once. */
  ghost predicate IsListing(s: Store, listing: seq<Key>) {
    && (forall k | k in listing :: k in s.objects && HasBundlePrefix(k))
    && forall i, j | 0 <= i < j < |listing| :: listing[i] != listing[j]
  }

  function BundleObjects(s: Store): set<Key> {
    set k | k in s.objects && HasBundlePrefix(k)
  }

  ghost predicate ListsAll(s: Store, listing: seq<Key>) {
    forall k | k in BundleObjects(s) :: k in listing
  }

  /** Such a listing is as long as the bucket has bundle objects. */
  lemma ListingCount(s: Store, listing: seq<Key>)
    requires IsListing(s, listing) && ListsAll(s, listing)
    ensures |listing| == |BundleObjects(s)|
  {
    KeysCount(listing);
    assert BundleObjects(s) == set k | k in listing;
  }

  lemma {:induction false} KeysCount(keys: seq<Key>)
    requires forall i, j | 0 <= i < j < |keys| :: keys[i] != keys[j]
    ensures |keys| == |set k | k in keys|
  {
    if keys != [] {
      var n := |keys| - 1;
      KeysCount(keys[..n]);
      assert (set k | k in keys) == (set k | k in keys[..n]) + {keys[n]};
    }
  }

  /** The D1 call is made: its row is claimed and, for a finish, its object is deleted. */
  predicate Aborts(s: Store, rows: seq<Candidate>, failing: set<Key>, abort: Abort) {
    && abort.row < |rows|
    && (abort.AtFinish? ==>
          !IsCurrentLifecycle(s, rows[abort.row].id) && rows[abort.row].key !in failing)
  }

  /** What a pass leaves whose D1 call fails. */
  function AbortedPass(s: Store, rows: seq<Candidate>, now: nat, failing: set<Key>, abort: Abort): Store
    requires abort.row < |rows|
  {
    Stop(CleanAll(s, rows[..abort.row], now, failing), rows[abort.row], now, abort)
  }

  /** The failing call comes before the claim, or after the object is deleted. */
  function Stop(s: Store, k: Candidate, now: nat, abort: Abort): Store {
    match abort
    case AtClaim(_) => s
    case AtFinish(_) => DeleteObject(ClaimLifecycle(s, k.id, now), k.key)
  }

  /** What one iteration does to the store, and when a D1 call stops it. */
  predicate Cleans(
    s: Store, p: Store, k: Candidate, i: nat, now: nat, failing: set<Key>, abort: Option<Abort>,
    outcome: CleanOutcome)
  {
    match outcome
    case Stopped =>
      && abort.Some? && abort.value.row == i && p == Stop(s, k, now, abort.value)
      && (abort.value.AtFinish? ==> Claimable(s, k.id, now) && k.key !in failing)
    case _ =>
      && p == CleanOne(s, k, now, failing)
      && abort != Some(AtClaim(i)) && (abort == Some(AtFinish(i)) ==> !outcome.Cleaned?)
      && (outcome.Skipped? <==> !Claimable(s, k.id, now))
      && (outcome.NotDeleted? ==> k.key in failing) && (outcome.Cleaned? ==> k.key !in failing)
  }

  lemma PassAdvances(
    s: Store, p: Store, rows: seq<Candidate>, i: nat, now: nat, failing: set<Key>, abort: Option<Abort>,
    outcome: CleanOutcome)
    requires Healthy(s) && SelectsExpired(s, now, rows) && i < |rows|
    requires Cleans(CleanAll(s, rows[..i], now, failing), p, rows[i], i, now, failing, abort, outcome)
    ensures outcome.Stopped? <==> abort.Some? && abort.value.row == i && Aborts(s, rows, failing, abort.value)
    ensures outcome.Stopped? ==> p == AbortedPass(s, rows, now, failing, abort.value)
    ensures !outcome.Stopped? ==>
      && p == CleanAll(s, rows[..i + 1], now, failing)
      && |Removed(s, rows[..i + 1], failing)| == |Removed(s, rows[..i], failing)| + if outcome.Cleaned? then 1 else 0
  {
    CleanupPrefix(s, rows, i, now, failing);
  }

  /** A row that is claimed and whose object is gone waits for the next pass. */
  lemma HalfCleanedIsHealthy(s: Store, k: Candidate, now: nat)
    requires Healthy(s) && k.id in s.lifecycle && s.lifecycle[k.id].objectKey == k.key
    requires !IsCurrentLifecycle(s, k.id)
    ensures Healthy(DeleteObject(ClaimLifecycle(s, k.id, now), k.key))
  {
    if s.inbox.current.Some? {
      CurrentKeyDiffers(s, k.id, k.key);
    }
  }

  lemma AbortedIsHealthy(s: Store, rows: seq<Candidate>, now: nat, failing: set<Key>, abort: Abort)
    requires Healthy(s) && SelectsExpired(s, now, rows) && Aborts(s, rows, failing, abort)
    ensures Healthy(AbortedPass(s, rows, now, failing, abort))
  {
    CleanedPrefix(s, rows, abort.row, now, failing);
    if abort.AtFinish? {
      HalfCleanedIsHealthy(CleanAll(s, rows[..abort.row], now, failing), rows[abort.row], now);
    }
  }

  lemma CleanedPrefix(s: Store, rows: seq<Candidate>, i: nat, now: nat, failing: set<Key>)
    requires Healthy(s) && SelectsExpired(s, now, rows) && i < |rows|
    ensures var mid, k := CleanAll(s, rows[..i], now, failing), rows[i];
      && Healthy(mid) && Shown(mid) == Shown(s)
      && k.id in mid.lifecycle && mid.lifecycle[k.id].objectKey == k.key
  {
    NextCandidate(s, rows, i, now);
    CleanAllEffect(s, rows[..i], now, failing);
    CurrentIsUntouched(s, CleanAll(s, rows[..i], now, failing), Removed(s, rows[..i], failing));
    assert rows[i] in rows;
  }

  /** Stale, without a lifecycle row, and not what the inbox serves. */
  predicate IsSweepable(s: Store, key: Key, now: nat) {
    && key in s.objects && ObjectIsStale(s.objects[key], now)
    && !ObjectIsTracked(s, key) && !IsCurrentKey(s, key)
  }

  /** The listed objects that the untracked sweep removes. */
  function Swept(s: Store, listed: seq<Key>, now: nat, failing: set<Key>): set<Key> {
    set k | k in listed && k !in failing && IsSweepable(s, k, now)
  }

  lemma SweptExtends(s: Store, listing: seq<Key>, n: nat, now: nat, failing: set<Key>)
    requires n < |listing| && IsListing(s, listing)
    ensures var before, after := Swept(s, listing[..n], now, failing), Swept(s, listing[..n + 1], now, failing);
      && listing[n] !in before
      && after == before + if IsSweepable(s, listing[n], now) && listing[n] !in failing then {listing[n]} else {}
  {
    assert listing[..n + 1] == listing[..n] + [listing[n]];
  }

  lemma SweepableElsewhere(s: Store, gone: set<Key>, key: Key, now: nat)
    requires key in s.objects && key !in gone
    ensures var p := s.(objects := s.objects - gone);
      key in p.objects && IsSweepable(p, key, now) == IsSweepable(s, key, now)
  {
    var p := s.(objects := s.objects - gone);
    assert Shown(p) == Shown(s);
  }

  /** Earlier deletions of a sweep do not change what it decides for the next key. */
  lemma SweepDecision(s: Store, p: Store, listing: seq<Key>, n: nat, now: nat, failing: set<Key>)
    requires n < |listing| && IsListing(s, listing)
    requires p == s.(objects := s.objects - Swept(s, listing[..n], now, failing))
    ensures listing[n] in p.objects
    ensures IsSweepable(p, listing[n], now) == IsSweepable(s, listing[n], now)
    ensures var before, after := Swept(s, listing[..n], now, failing), Swept(s, listing[..n + 1], now, failing);
      if IsSweepable(p, listing[n], now) && listing[n] !in failing then
        |after| == |before| + 1 && s.objects - after == p.objects - {listing[n]}
      else after == before
  {
    SweptExtends(s, listing, n, now, failing);
    assert listing[n] in listing;
    SweepableElsewhere(s, Swept(s, listing[..n], now, failing), listing[n], now);
  }

  lemma SweepSparesTracked(s: Store, listed: seq<Key>, now: nat, failing: set<Key>)
    ensures Healthy(s) ==> Healthy(s.(objects := s.objects - Swept(s, listed, now, failing)))
  {
    if Healthy(s) && s.inbox.current.Some? {
      var row := s.bundles[s.inbox.current.value];
      assert IsCurrentKey(s, row.objectKey);
    }
  }

  /** `rows` are the first of the expired rows by deadline. */
  ghost predicate SelectedSoFar(s: Store, now: nat, rows: seq<Candidate>, left: set<Id>) {
    && left == ExpiredIds(s, now) - Ids(rows) && |rows| + |left| == |ExpiredIds(s, now)|
    && Distinct(rows) && AreRowsOf(s, rows) && Ids(rows) <= ExpiredIds(s, now)
    && IsOrdered(s, rows)
    && forall k, i | k in rows && i in left :: s.lifecycle[k.id].cleanupAfter <= s.lifecycle[i].cleanupAfter
  }

  lemma SelectedExtends(s: Store, now: nat, rows: seq<Candidate>, left: set<Id>, id: Id)
    requires SelectedSoFar(s, now, rows, left) && id in left
    requires forall j | j in left :: s.lifecycle[id].cleanupAfter <= s.lifecycle[j].cleanupAfter
    ensures SelectedSoFar(s, now, rows + [Candidate(id, s.lifecycle[id].objectKey)], left - {id})
  {
    var k := Candidate(id, s.lifecycle[id].objectKey);
    AppendedIds(rows, k);
    StaysDistinct(rows, k);
    StaysOrdered(s, rows, k);
  }

  lemma StaysOrdered(s: Store, rows: seq<Candidate>, k: Candidate)
    requires AreRowsOf(s, rows) && IsOrdered(s, rows) && k.id in s.lifecycle
    requires forall r | r in rows :: s.lifecycle[r.id].cleanupAfter <= s.lifecycle[k.id].cleanupAfter
    ensures IsOrdered(s, rows + [k])
  {
    var more := rows + [k];
    forall i, j | 0 <= i < j < |more| && more[i].id in s.lifecycle && more[j].id in s.lifecycle
      ensures s.lifecycle[more[i].id].cleanupAfter <= s.lifecycle[more[j].id].cleanupAfter
    {
      assert more[i] == rows[i] && rows[i] in rows;
    }
  }

  lemma AppendedIds(rows: seq<Candidate>, k: Candidate)
    ensures Ids(rows + [k]) == Ids(rows) + {k.id}
    ensures forall c :: c in rows + [k] <==> c in rows || c == k
    ensures forall c | c in rows :: c.id in Ids(rows)
  {
    assert forall c | c in rows :: c in rows + [k];
    assert k in rows + [k];
  }

  lemma StaysDistinct(rows: seq<Candidate>, k: Candidate)
    requires Distinct(rows) && k.id !in Ids(rows)
    ensures Distinct(rows + [k])
  {
    forall i | 0 <= i < |rows| ensures rows[i].id != k.id {
      assert rows[i] in rows;
    }
  }

  lemma EarliestExists(s: Store, ids: set<Id>)
    requires ids != {} && ids <= s.lifecycle.Keys
    ensures exists i :: i in ids && forall j | j in ids ::
      s.lifecycle[i].cleanupAfter <= s.lifecycle[j].cleanupAfter
  {
    SmallestExists(map i | i in s.lifecycle :: s.lifecycle[i].cleanupAfter, ids);
  }

  lemma ReserveIsHealthy(s: Store, id: Id, now: nat)
    requires Healthy(s) && IsFresh(s, id)
    ensures var r := ReserveLifecycle(s, id, CandidateObjectKey(id), now);
      && r.Some? && Healthy(r.value)
      && r.value == s.(lifecycle := r.value.lifecycle) && r.value.lifecycle - {id} == s.lifecycle
      && IsUploading(r.value, id) && r.value.lifecycle[id].objectKey == CandidateObjectKey(id)
  {}

  lemma PutIsHealthy(s: Store, id: Id, stored: StoredObject)
    requires Healthy(s) && IsUploading(s, id)
    ensures Healthy(PutObject(s, s.lifecycle[id].objectKey, stored))
  {
    if s.inbox.current.Some? {
      assert s.bundles[s.inbox.current.value].objectKey != s.lifecycle[id].objectKey;
    }
  }

  lemma PublishIsHealthy(s: Store, id: Id, row: BundleRow, now: nat)
    requires Healthy(s) && IsUploading(s, id)
    requires row.objectKey == s.lifecycle[id].objectKey && row.lifecycleId == id
    requires row.objectKey in s.objects && Describes(row, s.objects[row.objectKey])
    ensures Healthy(PublishedStore(s, id, row, now))
    ensures Publish(s, id, row, now) == Some((PublishedStore(s, id, row, now), true))
  {
    PublishCommitsOnlyUploading(s, id, row, now);
  }

  lemma RemovedExtends(s: Store, head: seq<Candidate>, k: Candidate, failing: set<Key>)
    requires k.id !in Ids(head)
    ensures var last := if IsCurrentLifecycle(s, k.id) || k.key in failing then {} else {k.id};
      && k.id !in Removed(s, head, failing)
      && Removed(s, head + [k], failing) == Removed(s, head, failing) + last
      && |Removed(s, head + [k], failing)| == |Removed(s, head, failing)| + |last|
  {
    assert forall j :: j in head + [k] <==> j in head || j == k;
    assert forall j | j in head :: j.id in Ids(head);
  }

  lemma NextCandidate(s: Store, rows: seq<Candidate>, i: nat, now: nat)
    requires SelectsExpired(s, now, rows) && i < |rows|
    ensures rows[..i + 1] == rows[..i] + [rows[i]] && (rows[..i] + [rows[i]])[..i] == rows[..i]
    ensures rows[i].id !in Ids(rows[..i]) && Expired(s, rows[i].id, now)
    ensures forall j | j in rows[..i] :: j in rows
  {
    assert rows[i] in rows && rows[i].id in Ids(rows);
  }

  /** What the next iteration of the cleanup loop finds and leaves. */
  lemma CleanupPrefix(s: Store, rows: seq<Candidate>, i: nat, now: nat, failing: set<Key>)
    requires Healthy(s) && SelectsExpired(s, now, rows) && i < |rows|
    ensures var mid, k := CleanAll(s, rows[..i], now, failing), rows[i];
      && CleanAll(s, rows[..i + 1], now, failing) == CleanOne(mid, k, now, failing)
      && (Claimable(mid, k.id, now) <==> !IsCurrentLifecycle(s, k.id))
      && |Removed(s, rows[..i + 1], failing)| == |Removed(s, rows[..i], failing)|
           + if IsCurrentLifecycle(s, k.id) || k.key in failing then 0 else 1
  {
    var head, k := rows[..i], rows[i];
    NextCandidate(s, rows, i, now);
    CleanAllEffect(s, head, now, failing);
    RemovedExtends(s, head, k, failing);
    var mid := CleanAll(s, head, now, failing);
    CurrentIsUntouched(s, mid, Removed(s, head, failing));
    assert Expired(mid, k.id, now);
  }
}
