/** The pushes, clears, cleanups and reads that share one store, as a transition
    system. Every awaited D1 or R2 call of the Worker is one step of an actor;
    steps of different actors interleave freely, and an actor may stop at any
    point, before or after the effect of its latest call.

    Assumptions: a D1 batch is atomic, `crypto.randomUUID` never repeats an id
    (nor collides with a stored key), and the inbox foreign key is enforced. */
module InboxProtocol {
  import opened Options
  import opened InboxStore

  type ActorId = nat

  datatype Job = ClearJob | PushJob(upload: Upload)

  datatype ReadRequest = ManifestRequest(ifRevision: Option<nat>, ifNoneMatch: Option<string>) | BundleRequest

  datatype Candidate = Candidate(id: Id, key: Key)

  /** Where an actor stands: its next call, with the local variables it needs. */
  datatype Actor =
    | ReadingInbox(job: Job, now: nat)
    | ReadingPrevious(job: Job, now: nat, id: Id)
    | Clearing(job: Job, now: nat, previous: Option<Key>)
    | DeletingPrevious(job: Job, now: nat, key: Key, revision: nat)
    | Reserving(upload: Upload, now: nat)
    | Putting(upload: Upload, now: nat, id: Id)
    | Publishing(upload: Upload, now: nat, id: Id, etag: string)
    | Selecting(now: nat)
    | Claiming(now: nat, rest: seq<Candidate>)
    | DeletingClaimed(now: nat, candidate: Candidate, rest: seq<Candidate>)
    | Finishing(now: nat, candidate: Candidate, rest: seq<Candidate>)
    | Listing(now: nat)
    | CheckingTracked(now: nat, page: seq<Key>)
    | CheckingCurrent(now: nat, key: Key, page: seq<Key>)
    | DeletingUntracked(now: nat, key: Key, page: seq<Key>)
    | ReaderInbox(request: ReadRequest)
    | ReaderMetadata(request: ReadRequest, revision: nat, id: Id)
    | ReaderObject(revision: nat, row: BundleRow)

  datatype Response =
    | Cleared(revision: nat)
    | Pushed(revision: nat, id: Id)
    | Empty(revision: nat)
    | Manifest(revision: nat, etag: string, manifest: string)
    | NotModified(revision: nat, etag: string, ifRevision: Option<nat>, ifNoneMatch: Option<string>)
    | Body(revision: nat, row: BundleRow, stored: StoredObject)

  /** One committed inbox write: who made it and what the inbox showed after it. */
  datatype Entry = Entry(writer: Option<ActorId>, shown: Option<(Id, BundleRow)>)

  /** The store and the actors, with the history the properties speak about:
      ids and keys ever reserved, what was ever written under a key, the entry of
      every revision, and the response of every finished actor. */
  datatype World = World(
    store: Store,
    actors: map<ActorId, Actor>,
    started: set<ActorId>,
    usedIds: set<Id>,
    usedKeys: set<Key>,
    written: map<Key, StoredObject>,
    log: map<nat, Entry>,
    responses: map<ActorId, Response>)

  // ---- what the environment decides ---------------------------------------

  /** How a bucket delete whose error the cleanup logs and survives turned out. */
  datatype Failure = NoFailure | FailedBefore | FailedAfter

  datatype Choice = Choice(
    id: Id, etag: string, uploadedAt: nat,
    candidates: seq<Candidate>, page: seq<Key>, failure: Failure)

  // ---- local moves -----------------------------------------------------------

  function Goto(w: World, a: ActorId, actor: Actor): World {
    w.(actors := w.actors[a := actor])
  }

  function Halt(w: World, a: ActorId): World {
    w.(actors := w.actors - {a})
  }

  function Reply(w: World, a: ActorId, response: Response): World {
    Halt(w, a).(responses := w.responses[a := response])
  }

  /** Record the committed inbox write of actor `a` that led to store `s`. */
  function Commit(w: World, a: ActorId, s: Store): World {
    w.(store := s, log := w.log[s.inbox.revision := Entry(Some(a), Shown(s))])
  }

  /** What follows the removal of the previous object: `clear` is done, `push`
      validates the archive before it touches anything else. */
  function AfterClearing(w: World, a: ActorId, job: Job, now: nat, revision: nat): World {
    match job
    case ClearJob => Reply(w, a, Cleared(revision))
    case PushJob(upload) =>
      if upload.manifest.Some? then Goto(w, a, Reserving(upload, now)) else Halt(w, a)
  }

  function NextCandidate(w: World, a: ActorId, now: nat, rest: seq<Candidate>): World {
    Goto(w, a, if rest == [] then Listing(now) else Claiming(now, rest))
  }

  function NextListed(w: World, a: ActorId, now: nat, page: seq<Key>): World {
    Goto(w, a, if page == [] then Listing(now) else CheckingTracked(now, page))
  }

  function NewRow(upload: Upload, id: Id, etag: string): BundleRow
    requires upload.manifest.Some?
  {
    BundleRow(CandidateObjectKey(id), etag, upload.manifest.value, |upload.bytes|, id)
  }

  // ---- one step ---------------------------------------------------------------

  /** Which choices the environment may make for the next call of actor `a`. */
  predicate Enabled(w: World, a: ActorId, c: Choice) {
    && a in w.actors
    && match w.actors[a]
       case Reserving(_, _) => c.id !in w.usedIds && CandidateObjectKey(c.id) !in w.usedKeys
       case Selecting(now) =>
         && |c.candidates| <= CLEANUP_BATCH_SIZE
         && forall k | k in c.candidates ::
              Expired(w.store, k.id, now) && w.store.lifecycle[k.id].objectKey == k.key
       case Listing(now) =>
         && |c.page| <= CLEANUP_MAX_R2_OBJECTS
         && forall k | k in c.page ::
              k in w.store.objects && HasBundlePrefix(k) && ObjectIsStale(w.store.objects[k], now)
       case Claiming(_, rest) => rest != []
       case CheckingTracked(_, page) => page != []
       case _ => true
  }

  function ClearStep(w: World, a: ActorId, job: Job, now: nat, previous: Option<Key>): World {
    var s := ClearInbox(w.store);
    var committed := Commit(w, a, s);
    match previous
    case Some(key) => Goto(committed, a, DeletingPrevious(job, now, key, s.inbox.revision))
    case None => AfterClearing(committed, a, job, now, s.inbox.revision)
  }

  function ReserveStep(w: World, a: ActorId, upload: Upload, now: nat, id: Id): World {
    var key := CandidateObjectKey(id);
    match ReserveLifecycle(w.store, id, key, now)
    case None => Halt(w, a)
    case Some(s) =>
      Goto(w.(store := s, usedIds := w.usedIds + {id}, usedKeys := w.usedKeys + {key}),
           a, Putting(upload, now, id))
  }

  function PutStep(w: World, a: ActorId, upload: Upload, now: nat, id: Id, c: Choice): World {
    var key := CandidateObjectKey(id);
    var stored := StoredObject(upload, c.etag, c.uploadedAt);
    Goto(w.(store := PutObject(w.store, key, stored), written := w.written[key := stored]),
         a, Publishing(upload, now, id, c.etag))
  }

  /** A batch that marks no row is reported as an error although it committed. */
  function PublishStep(w: World, a: ActorId, upload: Upload, now: nat, id: Id, etag: string): World
  {
    if upload.manifest.None? then Halt(w, a) else
    match Publish(w.store, id, NewRow(upload, id, etag), now)
    case None => Halt(w, a)
    case Some((s, marked)) =>
      if marked then Reply(Commit(w, a, s), a, Pushed(s.inbox.revision, id))
      else Halt(Commit(w, a, s), a)
  }

  function DeleteClaimedStep(
    w: World, a: ActorId, now: nat, k: Candidate, rest: seq<Candidate>, failure: Failure): World
  {
    var deleted := w.(store := DeleteObject(w.store, k.key));
    match failure
    case NoFailure => Goto(deleted, a, Finishing(now, k, rest))
    case FailedBefore => NextCandidate(w, a, now, rest)
    case FailedAfter => NextCandidate(deleted, a, now, rest)
  }

  function MetadataStep(w: World, a: ActorId, request: ReadRequest, revision: nat, id: Id): World {
    if id !in w.store.bundles then Halt(w, a) else
    var row := w.store.bundles[id];
    match request
    case BundleRequest => Goto(w, a, ReaderObject(revision, row))
    case ManifestRequest(ifRevision, ifNoneMatch) =>
      if ifRevision == Some(revision) || ifNoneMatch == Some(row.etag) then
        Reply(w, a, NotModified(revision, row.etag, ifRevision, ifNoneMatch))
      else Reply(w, a, Manifest(revision, row.etag, row.manifest))
  }

  /** The next call of actor `a`, with everything the environment decides in `c`. */
  function Run(w: World, a: ActorId, c: Choice): World
    requires Enabled(w, a, c)
  {
    var s := w.store;
    match w.actors[a]
    case ReadingInbox(job, now) =>
      (match s.inbox.current
       case None => Goto(w, a, Clearing(job, now, None))
       case Some(id) => Goto(w, a, ReadingPrevious(job, now, id)))
    case ReadingPrevious(job, now, id) =>
      if id in s.bundles then Goto(w, a, Clearing(job, now, Some(s.bundles[id].objectKey)))
      else Halt(w, a)
    case Clearing(job, now, previous) => ClearStep(w, a, job, now, previous)
    case DeletingPrevious(job, now, key, revision) =>
      AfterClearing(w.(store := DeleteObject(s, key)), a, job, now, revision)
    case Reserving(upload, now) => ReserveStep(w, a, upload, now, c.id)
    case Putting(upload, now, id) => PutStep(w, a, upload, now, id, c)
    case Publishing(upload, now, id, etag) => PublishStep(w, a, upload, now, id, etag)
    case Selecting(now) => NextCandidate(w, a, now, c.candidates)
    case Claiming(now, rest) =>
      var k := rest[0];
      if Claimable(s, k.id, now) then
        Goto(w.(store := ClaimLifecycle(s, k.id, now)), a, DeletingClaimed(now, k, rest[1..]))
      else NextCandidate(w, a, now, rest[1..])
    case DeletingClaimed(now, k, rest) => DeleteClaimedStep(w, a, now, k, rest, c.failure)
    case Finishing(now, k, rest) =>
      NextCandidate(w.(store := FinishLifecycleCleanup(s, k.id)), a, now, rest)
    case Listing(now) => NextListed(w, a, now, c.page)
    case CheckingTracked(now, page) =>
      if ObjectIsTracked(s, page[0]) then NextListed(w, a, now, page[1..])
      else Goto(w, a, CheckingCurrent(now, page[0], page[1..]))
    case CheckingCurrent(now, key, page) =>
      if IsCurrentKey(s, key) then NextListed(w, a, now, page)
      else Goto(w, a, DeletingUntracked(now, key, page))
    case DeletingUntracked(now, key, page) =>
      if c.failure == FailedBefore then NextListed(w, a, now, page)
      else NextListed(w.(store := DeleteObject(s, key)), a, now, page)
    case ReaderInbox(request) =>
      (match s.inbox.current
       case None => Reply(w, a, Empty(s.inbox.revision))
       case Some(id) => Goto(w, a, ReaderMetadata(request, s.inbox.revision, id)))
    case ReaderMetadata(request, revision, id) => MetadataStep(w, a, request, revision, id)
    case ReaderObject(revision, row) =>
      if row.objectKey in s.objects then
        Reply(w, a, Body(revision, row, s.objects[row.objectKey]))
      else Halt(w, a)
  }

  predicate IsEntryPoint(actor: Actor) {
    actor.ReadingInbox? || actor.Selecting? || actor.ReaderInbox?
  }

  function Start(w: World, a: ActorId, actor: Actor): World {
    Goto(w, a, actor).(started := w.started + {a})
  }

  datatype Move = Starting(a: ActorId, actor: Actor) | Running(a: ActorId, c: Choice) | Stopping(a: ActorId)

  ghost predicate Moves(w: World, w': World, move: Move) {
    match move
    case Starting(a, actor) => a !in w.started && IsEntryPoint(actor) && w' == Start(w, a, actor)
    case Running(a, c) => Enabled(w, a, c) && w' == Run(w, a, c)
    case Stopping(a) => w' == Halt(w, a)
  }

  ghost predicate Next(w: World, w': World) {
    exists move :: Moves(w, w', move)
  }

  /** A migrated database before any request: every metadata row has its own
      `published` lifecycle row, and the current object is in the bucket. */
  ghost predicate Init(w: World) {
    var s := w.store;
    && w.actors == map[] && w.started == {} && w.responses == map[]
    && w.written == s.objects
    && w.log == map[s.inbox.revision := Entry(None, Shown(s))]
    && s.bundles.Keys <= s.lifecycle.Keys <= w.usedIds
    && s.objects.Keys <= w.usedKeys
    && (forall i | i in s.lifecycle ::
          s.lifecycle[i].state == Published && s.lifecycle[i].objectKey in w.usedKeys)
    && (forall i, j | i in s.lifecycle && j in s.lifecycle ::
          s.lifecycle[i].objectKey == s.lifecycle[j].objectKey ==> i == j)
    && (forall b | b in s.bundles ::
          && s.bundles[b].lifecycleId == b
          && s.bundles[b].objectKey == s.lifecycle[b].objectKey)
    && (s.inbox.current.Some? ==>
          && s.inbox.current.value in s.bundles
          && var row := s.bundles[s.inbox.current.value];
             row.objectKey in s.objects && Describes(row, s.objects[row.objectKey]))
  }

  /** A finite history of the whole system. */
  ghost predicate IsRun(run: seq<World>) {
    && run != []
    && Init(run[0])
    && forall i :: 0 <= i < |run| - 1 ==> Next(run[i], run[i + 1])
  }
}
