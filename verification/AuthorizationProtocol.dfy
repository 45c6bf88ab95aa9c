/** Requests, decisions, claims, revocations and maintenance running beside one
    another, one D1 statement or batch per step; any actor may stop at any point.

    A time that does not fit a signed 32-bit integer is a Worker error before any
    statement that stores or compares it.

    Assumptions: a D1 batch is atomic, and random request ids and token ids never
    repeat. The clocks of different actors are unrelated. */
module AuthorizationProtocol {
  import opened Options
  import opened AuthorizationStore

  type ActorId = nat

  /** Where an actor stands. `blocker` is history: the active credential, if any,
      that held the wanted name when the claim batch ran. */
  datatype Actor =
    | CheckingName(name: Name, now: nat)
    | Inserting(kind: Kind, wanted: Option<Name>, now: nat)
    | Deciding(id: RequestId, kind: Kind, approve: bool, now: nat)
    | ExplainingDecision(id: RequestId, kind: Kind, now: nat)
    | Expiring(id: RequestId, now: nat, answer: Response)
    | Loading(id: RequestId, kind: Kind, secretHash: seq<int>, now: nat)
    | Claiming(id: RequestId, kind: Kind, wanted: Option<Name>, now: nat)
    | Rechecking(id: RequestId, kind: Kind, wanted: Option<Name>, now: nat, blocker: Option<string>)
    | CheckingClaimName(id: RequestId, name: Name, blocker: Option<string>)
    | Revoking(name: Name, now: nat)
    | Maintaining(now: nat)

  datatype Failure =
    | NotFound | CredentialAlreadyExists | WrongAuthorizationKind | InvalidPollingSecret
    | FailedExpired | FailedDenied | FailedAlreadyClaimed | InvalidState

  datatype Response =
    | Done
    | Created(id: RequestId)
    | ClaimPending
    | ClaimDenied
    | ClaimExpired
    | AlreadyClaimed
    | Granted(token: Token)
    | Refused(failure: Failure)

  /** A token row, the request it was inserted for with its name, and by whom and when. */
  datatype Minting = Minting(
    request: RequestId, name: Option<Name>, actor: ActorId, at: nat, expiresAt: nat)

  datatype World = World(
    db: Database,
    actors: map<ActorId, Actor>,
    started: set<ActorId>,
    usedRequests: set<RequestId>,
    usedTokens: set<Token>,
    consumedBefore: set<RequestId>,
    minted: map<Token, Minting>,
    responses: map<ActorId, Response>)

  /** What the environment decides: fresh ids, stored hashes, configured lifetimes
      and the rows that a bounded maintenance pass reaches. */
  datatype Choice = Choice(
    request: RequestId, secretHash: seq<int>, requestTtl: nat,
    token: string, sessionTtl: nat, picks: Picks)

  function Goto(w: World, a: ActorId, actor: Actor): World {
    w.(actors := w.actors[a := actor])
  }

  function Halt(w: World, a: ActorId): World {
    w.(actors := w.actors - {a})
  }

  function Reply(w: World, a: ActorId, response: Response): World {
    Halt(w, a).(responses := w.responses[a := response])
  }

  function FreshToken(kind: Kind, token: string): Token {
    match kind
    case Sender => Credential(token)
    case Reader => Session(token)
  }

  predicate Enabled(w: World, a: ActorId, c: Choice) {
    && a in w.actors
    && match w.actors[a]
       case Inserting(_, _, _) => c.request !in w.usedRequests
       case Claiming(_, kind, _, _) => FreshToken(kind, c.token) !in w.usedTokens
       case _ => true
  }

  ghost predicate MaintenanceEnabled(w: World, a: ActorId, c: Choice) {
    a in w.actors && w.actors[a].Maintaining? ==> MayPick(w.db, w.actors[a].now, c.picks)
  }

  function InsertStep(w: World, a: ActorId, kind: Kind, name: Option<Name>, now: nat, c: Choice): World
  {
    var expiresAt := now + c.requestTtl;
    var row := Request(kind, name, c.secretHash, Pending, now, expiresAt, None, None);
    if expiresAt > I32_MAX then Halt(w, a) else
    match InsertRequest(w.db, c.request, row)
    case None => Halt(w, a)
    case Some(d) =>
      Reply(w.(db := d, usedRequests := w.usedRequests + {c.request}), a, Created(c.request))
  }

  function DecisionFailure(state: State): Failure {
    match state
    case Denied => FailedDenied
    case Expired => FailedExpired
    case Consumed => FailedAlreadyClaimed
    case Approved => InvalidState
    case Pending => InvalidState
  }

  function ExplainStep(w: World, a: ActorId, id: RequestId, kind: Kind, now: nat): World {
    if id !in w.db.requests then Reply(w, a, Refused(NotFound)) else
    var r := w.db.requests[id];
    if r.kind != kind then Reply(w, a, Refused(WrongAuthorizationKind))
    else if r.state == Pending && r.expiresAt <= now then
      Goto(w, a, Expiring(id, now, Refused(FailedExpired)))
    else Reply(w, a, Refused(DecisionFailure(r.state)))
  }

  /** The first read of a claim, and the answers it can give without a batch. */
  function LoadStep(w: World, a: ActorId, id: RequestId, kind: Kind, secretHash: seq<int>, now: nat)
    : World
  {
    if id !in w.db.requests then Reply(w, a, Refused(NotFound)) else
    var r := w.db.requests[id];
    if r.kind != kind then Reply(w, a, Refused(WrongAuthorizationKind))
    else if r.secretHash != secretHash then Reply(w, a, Refused(InvalidPollingSecret))
    else match r.state
      case Denied => Reply(w, a, ClaimDenied)
      case Expired => Reply(w, a, ClaimExpired)
      case Consumed => Reply(w, a, AlreadyClaimed)
      case Pending =>
        if now >= r.expiresAt then Goto(w, a, Expiring(id, now, ClaimExpired))
        else Reply(w, a, ClaimPending)
      case Approved =>
        if now >= r.expiresAt then Goto(w, a, Expiring(id, now, ClaimExpired))
        else if kind == Sender && r.name.None? then Reply(w, a, Refused(InvalidState))
        else Goto(w, a, Claiming(id, kind, r.name, now))
  }

  ghost function Blocker(d: Database, name: Option<Name>): Option<string> {
    if name.Some? && NameIsActive(d, name.value) then
      var c :| c in d.credentials && d.credentials[c].name == name.value && !d.credentials[c].revoked;
      Some(c)
    else None
  }

  /** The two-statement batch: both statements see the same request row. */
  function Batch(d: Database, id: RequestId, kind: Kind, name: Option<Name>, now: nat, c: Choice)
    : Option<(Database, bool)>
  {
    match kind
    case Sender => if name.None? then None else Some(SenderBatch(d, id, c.token, name.value, now))
    case Reader => ReaderBatch(d, id, c.token, now, now + c.sessionTtl)
  }

  ghost function ClaimStep(w: World, a: ActorId, id: RequestId, kind: Kind, name: Option<Name>, now: nat,
                     c: Choice): World
  {
    var token := FreshToken(kind, c.token);
    if now > I32_MAX || (kind == Reader && now + c.sessionTtl > I32_MAX) then Halt(w, a) else
    match Batch(w.db, id, kind, name, now, c)
    case None => Halt(w, a)
    case Some((d, consumed)) =>
      var after := w.(db := d, usedTokens := w.usedTokens + {token});
      if consumed then
        Reply(after.(minted := after.minted[token := Minting(id, name, a, now, d.requests[id].expiresAt)]),
              a, Granted(token))
      else Goto(after, a, Rechecking(id, kind, name, now, Blocker(w.db, name)))
  }

  function RecheckStep(w: World, a: ActorId, actor: Actor): World
    requires actor.Rechecking?
  {
    if actor.id !in w.db.requests then Reply(w, a, Refused(NotFound)) else
    var r := w.db.requests[actor.id];
    if r.state == Expired then Reply(w, a, ClaimExpired)
    else if r.state == Approved && r.expiresAt <= actor.now then
      Goto(w, a, Expiring(actor.id, actor.now, ClaimExpired))
    else if actor.kind == Sender && actor.wanted.Some? && r.state != Consumed then
      Goto(w, a, CheckingClaimName(actor.id, actor.wanted.value, actor.blocker))
    else Reply(w, a, AlreadyClaimed)
  }

  ghost function Run(w: World, a: ActorId, c: Choice): World
    requires Enabled(w, a, c)
  {
    var d := w.db;
    match w.actors[a]
    case CheckingName(name, now) =>
      if NameIsActive(d, name) then Reply(w, a, Refused(CredentialAlreadyExists))
      else Goto(w, a, Inserting(Sender, Some(name), now))
    case Inserting(kind, name, now) => InsertStep(w, a, kind, name, now, c)
    case Deciding(id, kind, approve, now) =>
      if now > I32_MAX then Halt(w, a)
      else if CanDecide(d, id, kind, now) then Reply(w.(db := Decide(d, id, kind, approve, now)), a, Done)
      else Goto(w, a, ExplainingDecision(id, kind, now))
    case ExplainingDecision(id, kind, now) => ExplainStep(w, a, id, kind, now)
    case Expiring(id, now, answer) =>
      if now > I32_MAX then Halt(w, a) else Reply(w.(db := ExpireIfNeeded(d, id, now)), a, answer)
    case Loading(id, kind, secretHash, now) => LoadStep(w, a, id, kind, secretHash, now)
    case Claiming(id, kind, name, now) => ClaimStep(w, a, id, kind, name, now, c)
    case Rechecking(_, _, _, _, _) => RecheckStep(w, a, w.actors[a])
    case CheckingClaimName(_, name, _) =>
      if NameIsActive(d, name) then Reply(w, a, Refused(CredentialAlreadyExists))
      else Reply(w, a, AlreadyClaimed)
    case Revoking(name, now) =>
      if now > I32_MAX || !CanRevoke(d, name, now) then Halt(w, a)
      else Reply(w.(db := RevokeName(d, name)), a, Done)
    case Maintaining(now) =>
      if now > I32_MAX then Halt(w, a) else Reply(w.(db := Maintain(d, c.picks)), a, Done)
  }

  predicate IsEntryPoint(actor: Actor) {
    match actor
    case CheckingName(_, _) => true
    case Inserting(kind, _, _) => kind == Reader
    case Deciding(_, _, _, _) => true
    case Expiring(_, _, answer) => answer == Done
    case Loading(_, _, _, _) => true
    case Revoking(_, _) => true
    case Maintaining(_) => true
    case _ => false
  }

  function Start(w: World, a: ActorId, actor: Actor): World {
    Goto(w, a, actor).(started := w.started + {a})
  }

  datatype Move = Starting(a: ActorId, actor: Actor) | Running(a: ActorId, c: Choice) | Stopping(a: ActorId)

  ghost predicate Moves(w: World, w': World, move: Move) {
    match move
    case Starting(a, actor) => a !in w.started && IsEntryPoint(actor) && w' == Start(w, a, actor)
    case Running(a, c) => Enabled(w, a, c) && MaintenanceEnabled(w, a, c) && w' == Run(w, a, c)
    case Stopping(a) => w' == Halt(w, a)
  }

  ghost predicate Next(w: World, w': World) {
    exists move :: Moves(w, w', move)
  }

  predicate ActiveNamesDiffer(d: Database) {
    forall b, c | b in d.credentials && c in d.credentials ::
      (d.credentials[b].name == d.credentials[c].name
       && !d.credentials[b].revoked && !d.credentials[c].revoked) ==> b == c
  }

  /** Any database that satisfies the schema, before the first actor starts. */
  ghost predicate Init(w: World) {
    && w.actors == map[] && w.started == {} && w.responses == map[] && w.minted == map[]
    && w.db.requests.Keys <= w.usedRequests
    && w.consumedBefore == (set i | i in w.db.requests && w.db.requests[i].state == Consumed)
    && ActiveNamesDiffer(w.db) && RequestsAreTyped(w.db)
    && (forall c | c in w.db.credentials :: Credential(c) in w.usedTokens)
    && (forall s | s in w.db.sessions :: Session(s) in w.usedTokens)
  }

  ghost predicate MovesAt(run: seq<World>, j: nat)
    requires 0 < j < |run|
  {
    Next(run[j - 1], run[j])
  }

  ghost predicate IsRun(run: seq<World>) {
    && run != []
    && Init(run[0])
    && forall j | 0 < j < |run| :: MovesAt(run, j)
  }
}
