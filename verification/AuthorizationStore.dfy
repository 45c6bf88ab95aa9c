/** Authorization requests, sender credentials and reader sessions, and the effect
    of every statement or batch on them. Hashes, tokens and ids are abstract. */
module AuthorizationStore {
  import opened Options

  type RequestId = string
  type Name = string

  const I32_MAX: nat := 0x7fff_ffff
  const TERMINAL_REQUEST_RETENTION_SECONDS: nat := 24 * 60 * 60
  const MAINTENANCE_BATCH_LIMIT: nat := 100

  datatype Kind = Sender | Reader

  datatype State = Pending | Approved | Denied | Expired | Consumed

  /** A bearer token, named by the row that stores its hash. */
  datatype Token = Credential(id: string) | Session(id: string)

  datatype Request = Request(
    kind: Kind, name: Option<Name>, secretHash: seq<int>, state: State,
    createdAt: nat, expiresAt: nat, settledAt: Option<nat>, token: Option<Token>)

  datatype CredentialRow = CredentialRow(name: Name, createdAt: nat, revoked: bool)

  datatype SessionRow = SessionRow(issuedAt: nat, expiresAt: nat)

  datatype Database = Database(
    requests: map<RequestId, Request>,
    credentials: map<string, CredentialRow>,
    sessions: map<string, SessionRow>)

  /** The moves of the request life cycle. */
  predicate MayBecome(from: State, to: State) {
    || from == to
    || (from == Pending && to != Consumed)
    || (from == Approved && (to == Consumed || to == Expired))
  }

  /** Any number of moves. */
  predicate MayReach(from: State, to: State) {
    from == to || from == Pending || (from == Approved && (to == Consumed || to == Expired))
  }

  predicate IsTerminal(state: State) {
    state == Denied || state == Expired || state == Consumed
  }

  /** Sender requests, and only they, have a name. */
  ghost predicate RequestsAreTyped(d: Database) {
    forall i | i in d.requests :: d.requests[i].kind == Sender <==> d.requests[i].name.Some?
  }

  // ---- single statements ------------------------------------------------------

  function InsertRequest(d: Database, id: RequestId, r: Request): Option<Database> {
    if id in d.requests || r.expiresAt <= r.createdAt || (r.kind == Sender) != r.name.Some? then None
    else Some(d.(requests := d.requests[id := r]))
  }

  /** `kind`, `pending` and not yet expired. */
  predicate CanDecide(d: Database, id: RequestId, kind: Kind, now: nat) {
    && id in d.requests
    && d.requests[id].kind == kind
    && d.requests[id].state == Pending
    && d.requests[id].expiresAt > now
  }

  function Decide(d: Database, id: RequestId, kind: Kind, approve: bool, now: nat): Database {
    if CanDecide(d, id, kind, now) then
      var r := d.requests[id].(
        state := if approve then Approved else Denied,
        settledAt := if approve then d.requests[id].settledAt else Some(now));
      d.(requests := d.requests[id := r])
    else d
  }

  predicate IsOverdue(d: Database, id: RequestId, now: nat) {
    && id in d.requests
    && (d.requests[id].state == Pending || d.requests[id].state == Approved)
    && d.requests[id].expiresAt <= now
  }

  function ExpireIfNeeded(d: Database, id: RequestId, now: nat): Database {
    if IsOverdue(d, id, now) then
      d.(requests := d.requests[id := d.requests[id].(state := Expired, settledAt := Some(now))])
    else d
  }

  predicate NameIsActive(d: Database, name: Name) {
    exists c | c in d.credentials :: d.credentials[c].name == name && !d.credentials[c].revoked
  }

  /** A row cannot be revoked before it was created. */
  predicate CanRevoke(d: Database, name: Name, now: nat) {
    forall c | c in d.credentials :: d.credentials[c].name == name && !d.credentials[c].revoked ==>
      d.credentials[c].createdAt <= now
  }

  function RevokeName(d: Database, name: Name): Database {
    d.(credentials := map c | c in d.credentials ::
         if d.credentials[c].name == name then d.credentials[c].(revoked := true)
         else d.credentials[c])
  }

  // ---- the claim batches -----------------------------------------------------

  predicate Claimable(d: Database, id: RequestId, kind: Kind, now: nat) {
    && id in d.requests
    && d.requests[id].kind == kind
    && d.requests[id].state == Approved
    && d.requests[id].expiresAt > now
  }

  /** `INSERT OR IGNORE`: a taken id or an active name leaves the table alone. */
  function InsertCredential(d: Database, id: RequestId, credential: string, name: Name, now: nat)
    : Database
  {
    if Claimable(d, id, Sender, now) && credential !in d.credentials && !NameIsActive(d, name) then
      d.(credentials := d.credentials[credential := CredentialRow(name, now, false)])
    else d
  }

  /** `INSERT`: a taken id, or a session that does not end after it begins, aborts the
      batch. */
  function InsertSession(d: Database, id: RequestId, session: string, now: nat, expiresAt: nat)
    : Option<Database>
  {
    if !Claimable(d, id, Reader, now) then Some(d)
    else if session in d.sessions || expiresAt <= now then None
    else Some(d.(sessions := d.sessions[session := SessionRow(now, expiresAt)]))
  }

  predicate TokenExists(d: Database, token: Token) {
    match token
    case Credential(c) => c in d.credentials
    case Session(s) => s in d.sessions
  }

  predicate CanConsume(d: Database, id: RequestId, kind: Kind, token: Token, now: nat) {
    Claimable(d, id, kind, now) && TokenExists(d, token)
  }

  function Consume(d: Database, id: RequestId, kind: Kind, token: Token, now: nat): Database {
    if CanConsume(d, id, kind, token, now) then
      d.(requests := d.requests[id := d.requests[id].(
           state := Consumed, settledAt := Some(now), token := Some(token))])
    else d
  }

  /** Both batches: insert the token row, then consume the request. The flag is
      whether the second statement changed a row. */
  function SenderBatch(d: Database, id: RequestId, credential: string, name: Name, now: nat)
    : (Database, bool)
  {
    var inserted := InsertCredential(d, id, credential, name, now);
    (Consume(inserted, id, Sender, Credential(credential), now),
     CanConsume(inserted, id, Sender, Credential(credential), now))
  }

  function ReaderBatch(d: Database, id: RequestId, session: string, now: nat, expiresAt: nat)
    : Option<(Database, bool)>
  {
    match InsertSession(d, id, session, now, expiresAt)
    case None => None
    case Some(inserted) =>
      Some((Consume(inserted, id, Reader, Session(session), now),
            CanConsume(inserted, id, Reader, Session(session), now)))
  }

  // ---- maintenance ------------------------------------------------------------

  /** `saturating_sub` on a signed 32-bit integer followed by a cast to an unsigned
      one: before the second day of 1970 the cutoff wraps to a huge value. */
  function RetentionCutoff(now: nat): nat {
    if now >= TERMINAL_REQUEST_RETENTION_SECONDS then now - TERMINAL_REQUEST_RETENTION_SECONDS
    else 0x1_0000_0000_0000_0000 + now - TERMINAL_REQUEST_RETENTION_SECONDS
  }

  function Overdue(d: Database, now: nat): set<RequestId> {
    set i | i in d.requests && IsOverdue(d, i, now)
  }

  predicate IsReferenced(d: Database, session: string) {
    exists i | i in d.requests :: d.requests[i].token == Some(Session(session))
  }

  function StaleSessions(d: Database, cutoff: nat): set<string> {
    set x | x in d.sessions && d.sessions[x].expiresAt <= cutoff && !IsReferenced(d, x)
  }

  function StaleRequests(d: Database, cutoff: nat): set<RequestId> {
    set i | i in d.requests && IsTerminal(d.requests[i].state)
            && d.requests[i].settledAt.Some? && d.requests[i].settledAt.value <= cutoff
  }

  function ExpireAll(d: Database, ids: set<RequestId>): Database {
    d.(requests := map i | i in d.requests ::
         if i in ids then d.requests[i].(state := Expired, settledAt := Some(d.requests[i].expiresAt))
         else d.requests[i])
  }

  /** What the three bounded statements of one pass pick; how they order rows is
      left open. */
  datatype Picks = Picks(expire: set<RequestId>, sessions: set<string>, requests: set<RequestId>)

  function AfterSessions(d: Database, p: Picks): Database {
    var e := ExpireAll(d, p.expire);
    e.(sessions := e.sessions - p.sessions)
  }

  ghost predicate MayPick(d: Database, now: nat, p: Picks) {
    && p.expire <= Overdue(d, now) && |p.expire| <= MAINTENANCE_BATCH_LIMIT
    && p.sessions <= StaleSessions(ExpireAll(d, p.expire), RetentionCutoff(now))
    && |p.sessions| <= MAINTENANCE_BATCH_LIMIT
    && p.requests <= StaleRequests(AfterSessions(d, p), RetentionCutoff(now))
    && |p.requests| <= MAINTENANCE_BATCH_LIMIT
  }

  function Maintain(d: Database, p: Picks): Database {
    var e := AfterSessions(d, p);
    e.(requests := e.requests - p.requests)
  }
}
