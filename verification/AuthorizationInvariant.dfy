/** The inductive invariant of the authorization protocol, by rely and guarantee
    as for the inbox. */
module AuthorizationInvariant {
  import opened Options
  import opened AuthorizationStore
  import opened AuthorizationProtocol

  // ---- the database and its history ------------------------------------------

  ghost predicate RowsAreKnown(w: World) {
    && w.db.requests.Keys <= w.usedRequests
    && (forall c | c in w.db.credentials :: Credential(c) in w.usedTokens)
    && (forall s | s in w.db.sessions :: Session(s) in w.usedTokens)
    && (forall t | t in w.minted :: t in w.usedTokens)
  }

  /** A consumed request has its one token, minted before its deadline. */
  ghost predicate ConsumedHasToken(w: World) {
    forall i | i in w.db.requests && w.db.requests[i].state == Consumed && i !in w.consumedBefore ::
      var r := w.db.requests[i];
      && r.token.Some? && r.token.value in w.minted
      && w.minted[r.token.value].request == i
      && r.settledAt == Some(w.minted[r.token.value].at)
      && w.minted[r.token.value].expiresAt == r.expiresAt
  }

  /** A credential keeps the name that its request asked for; sessions have none. */
  ghost predicate NamesItsCredential(d: Database, t: Token, name: Option<Name>) {
    match t
    case Credential(c) => name.Some? && c in d.credentials && d.credentials[c].name == name.value
    case Session(_) => name.None?
  }

  ghost predicate MintingHolds(w: World, t: Token)
    requires t in w.minted
  {
    var m := w.minted[t];
    && m.request in w.usedRequests
    && m.at < m.expiresAt
    && (m.request in w.db.requests ==>
          && w.db.requests[m.request].state == Consumed
          && w.db.requests[m.request].token == Some(t)
          && w.db.requests[m.request].name == m.name)
    && NamesItsCredential(w.db, t, m.name)
    && m.actor in w.responses && w.responses[m.actor] == Granted(t)
  }

  /** Every token was minted for one request, in time, and told to its claimer. */
  ghost predicate MintedInv(w: World) {
    && (forall t | t in w.minted :: MintingHolds(w, t))
    && (forall t, u | t in w.minted && u in w.minted ::
          w.minted[t].request == w.minted[u].request ==> t == u)
  }

  ghost predicate DatabaseInv(w: World) {
    && RowsAreKnown(w)
    && ActiveNamesDiffer(w.db) && RequestsAreTyped(w.db)
    && ConsumedHasToken(w)
    && MintedInv(w)
  }

  // ---- the actors ----------------------------------------------------------------

  /** The request was approved when the claim read it. */
  ghost predicate WasApproved(w: World, id: RequestId, kind: Kind, wanted: Option<Name>) {
    && id in w.usedRequests
    && (kind == Sender <==> wanted.Some?)
    && (id in w.db.requests ==>
          && w.db.requests[id].kind == kind
          && w.db.requests[id].name == wanted
          && MayReach(Approved, w.db.requests[id].state))
  }

  ghost predicate HeldName(d: Database, blocker: Option<string>, name: Name) {
    blocker.Some? && blocker.value in d.credentials && d.credentials[blocker.value].name == name
  }

  ghost predicate ActorInv(w: World, actor: Actor) {
    match actor
    case Claiming(id, kind, wanted, _) => WasApproved(w, id, kind, wanted)
    case Rechecking(id, kind, wanted, now, blocker) =>
      && WasApproved(w, id, kind, wanted)
      && (Claimable(w.db, id, kind, now) ==>
            kind == Sender && HeldName(w.db, blocker, wanted.value))
    case CheckingClaimName(id, name, blocker) =>
      && WasApproved(w, id, Sender, Some(name))
      && HeldName(w.db, blocker, name)
    case Expiring(_, _, answer) => !answer.Granted? && answer != AlreadyClaimed
    case _ => true
  }

  ghost predicate ResponseInv(w: World, a: ActorId, response: Response) {
    response.Granted? ==>
      response.token in w.minted && w.minted[response.token].actor == a
  }

  ghost predicate ActorsInv(w: World) {
    && w.actors.Keys + w.responses.Keys <= w.started
    && w.actors.Keys !! w.responses.Keys
    && (forall a | a in w.actors :: ActorInv(w, w.actors[a]))
    && forall a | a in w.responses :: ResponseInv(w, a, w.responses[a])
  }

  ghost predicate Inv(w: World) {
    DatabaseInv(w) && ActorsInv(w)
  }

  // ---- the guarantee of one call -------------------------------------------------

  ghost predicate SameTerms(r: Request, r': Request) {
    && r'.kind == r.kind && r'.name == r.name && r'.secretHash == r.secretHash
    && r'.createdAt == r.createdAt && r'.expiresAt == r.expiresAt
  }

  ghost predicate RequestsGuarantee(w: World, w': World) {
    && w.usedRequests <= w'.usedRequests
    && forall i | i in w'.db.requests ::
         || i !in w.usedRequests
         || (&& i in w.db.requests
             && SameTerms(w.db.requests[i], w'.db.requests[i])
             && MayBecome(w.db.requests[i].state, w'.db.requests[i].state))
  }

  ghost predicate CredentialsGuarantee(w: World, w': World) {
    forall c | c in w.db.credentials ::
      && c in w'.db.credentials
      && w'.db.credentials[c].name == w.db.credentials[c].name
      && (w.db.credentials[c].revoked ==> w'.db.credentials[c].revoked)
  }

  ghost predicate MintedGrows(w: World, w': World) {
    forall t | t in w.minted :: t in w'.minted && w'.minted[t] == w.minted[t]
  }

  /** A new token row and the consumption of its request are one step. */
  ghost predicate MintsWhatItInserts(w: World, w': World) {
    && (forall c | c in w'.db.credentials && c !in w.db.credentials :: MintedNow(w, w', Credential(c)))
    && (forall s | s in w'.db.sessions && s !in w.db.sessions :: MintedNow(w, w', Session(s)))
    && (forall t | t in w'.minted && t !in w.minted :: MintedNow(w, w', t))
  }

  ghost predicate MintedNow(w: World, w': World, t: Token) {
    && t in w'.minted && t !in w.minted
    && !TokenExists(w.db, t) && TokenExists(w'.db, t)
    && var i := w'.minted[t].request;
    && i in w.db.requests && w.db.requests[i].state == Approved
    && i in w'.db.requests && w'.db.requests[i].state == Consumed
    && (w.db.requests[i].kind == Sender ==>
          w.db.requests[i].name.Some? && !NameIsActive(w.db, w.db.requests[i].name.value))
  }

  ghost predicate Guarantee(w: World, w': World) {
    && RequestsGuarantee(w, w')
    && CredentialsGuarantee(w, w')
    && MintedGrows(w, w')
    && MintsWhatItInserts(w, w')
  }

  lemma ActorInvStays(w: World, w': World, actor: Actor)
    requires Guarantee(w, w') && ActorInv(w, actor)
    ensures ActorInv(w', actor)
  {}

  // ---- effects ---------------------------------------------------------------------

  ghost predicate SameActors(w: World, e: World) {
    && e.actors == w.actors && e.responses == w.responses && e.started == w.started
    && e.consumedBefore == w.consumedBefore
  }

  ghost predicate GoodEffect(w: World, e: World) {
    SameActors(w, e) && DatabaseInv(e) && Guarantee(w, e)
  }

  lemma NoEffect(w: World)
    requires Inv(w)
    ensures GoodEffect(w, w)
  {}

  /** A statement that moves some requests along, or deletes them, and mints nothing. */
  ghost predicate MovesRequests(d: Database, e: Database) {
    && e.credentials == d.credentials
    && e.sessions.Keys <= d.sessions.Keys
    && forall i | i in e.requests ::
         && i in d.requests
         && (e.requests[i] == d.requests[i]
             || (&& SameTerms(d.requests[i], e.requests[i])
                 && d.requests[i].token == e.requests[i].token
                 && MayBecome(d.requests[i].state, e.requests[i].state)
                 && d.requests[i].state != Consumed && e.requests[i].state != Consumed))
  }

  lemma MovingRequests(w: World, e: Database)
    requires Inv(w) && MovesRequests(w.db, e)
    ensures GoodEffect(w, w.(db := e))
  {
    var w' := w.(db := e);
    assert RowsAreKnown(w');
    assert ConsumedHasToken(w');
    assert MintedInv(w');
    assert Guarantee(w, w');
  }

  lemma InsertingRequest(w: World, id: RequestId, r: Request, d: Database)
    requires Inv(w) && id !in w.usedRequests && r.state == Pending
    requires InsertRequest(w.db, id, r) == Some(d)
    ensures GoodEffect(w, w.(db := d, usedRequests := w.usedRequests + {id}))
  {
    var w' := w.(db := d, usedRequests := w.usedRequests + {id});
    assert ConsumedHasToken(w');
    assert MintedInv(w');
    assert Guarantee(w, w');
  }

  lemma RevokingName(w: World, name: Name)
    requires Inv(w)
    ensures GoodEffect(w, w.(db := RevokeName(w.db, name)))
  {
    var w' := w.(db := RevokeName(w.db, name));
    assert ActiveNamesDiffer(w'.db);
    assert ConsumedHasToken(w');
    assert MintedInv(w') by {
      assert forall t | t in w.minted :: MintingHolds(w, t) ==> MintingHolds(w', t);
    }
    assert Guarantee(w, w');
  }

  lemma MaintenanceMovesRequests(d: Database, now: nat, p: Picks)
    requires MayPick(d, now, p)
    ensures MovesRequests(d, Maintain(d, p))
  {
    var e := Maintain(d, p);
    forall i | i in e.requests
      ensures i in d.requests
      ensures i in p.expire ==> IsOverdue(d, i, now) && e.requests[i].state == Expired
      ensures i !in p.expire ==> e.requests[i] == d.requests[i]
    {}
  }

  // ---- the claim batch ---------------------------------------------------------------

  /** The batch as one step: either the token row appears and the request is
      consumed, or the database is unchanged. */
  ghost predicate Consumes(d: Database, e: Database, id: RequestId, kind: Kind, token: Token, now: nat) {
    && Claimable(d, id, kind, now)
    && !TokenExists(d, token) && TokenExists(e, token)
    && e.requests == d.requests[id := d.requests[id].(
         state := Consumed, settledAt := Some(now), token := Some(token))]
    && (kind == Sender ==>
          && token.Credential? && d.requests[id].name.Some?
          && !NameIsActive(d, d.requests[id].name.value)
          && e.sessions == d.sessions
          && e.credentials == d.credentials[token.id := CredentialRow(d.requests[id].name.value, now, false)])
    && (kind == Reader ==>
          && token.Session? && d.requests[id].name.None?
          && e.credentials == d.credentials
          && e.sessions.Keys == d.sessions.Keys + {token.id})
  }

  lemma BatchIsAllOrNothing(
    d: Database, id: RequestId, kind: Kind, wanted: Option<Name>, now: nat, c: Choice)
    requires !TokenExists(d, FreshToken(kind, c.token))
    requires kind == Sender ==> wanted.Some?
    requires kind == Reader ==> wanted.None?
    requires id in d.requests ==> d.requests[id].kind == kind && d.requests[id].name == wanted
    ensures Batch(d, id, kind, wanted, now, c).None?
        <==> kind == Reader && Claimable(d, id, kind, now) && c.sessionTtl == 0
    ensures Batch(d, id, kind, wanted, now, c).Some? ==>
      var (e, consumed) := Batch(d, id, kind, wanted, now, c).value;
      if consumed then Consumes(d, e, id, kind, FreshToken(kind, c.token), now)
      else e == d && !(Claimable(d, id, kind, now)
                       && (kind == Sender ==> !NameIsActive(d, wanted.value)))
  {}

  lemma ActivatingName(d: Database, c: string, name: Name, now: nat)
    requires ActiveNamesDiffer(d) && !NameIsActive(d, name) && c !in d.credentials
    ensures ActiveNamesDiffer(d.(credentials := d.credentials[c := CredentialRow(name, now, false)]))
  {}

  function GrantedWorld(w: World, a: ActorId, e: Database, id: RequestId, token: Token, now: nat): World
    requires id in e.requests
  {
    Reply(w.(db := e, usedTokens := w.usedTokens + {token},
             minted := w.minted[token := Minting(id, e.requests[id].name, a, now, e.requests[id].expiresAt)]),
          a, Granted(token))
  }

  lemma GrantKeepsRows(
    w: World, a: ActorId, e: Database, id: RequestId, kind: Kind, token: Token, now: nat)
    requires Inv(w) && a in w.actors
    requires token !in w.usedTokens && Consumes(w.db, e, id, kind, token, now)
    ensures RowsAreKnown(GrantedWorld(w, a, e, id, token, now))
    ensures ActiveNamesDiffer(e)
  {
    if kind == Sender {
      ActivatingName(w.db, token.id, w.db.requests[id].name.value, now);
    }
  }

  lemma NothingMintedYet(w: World, a: ActorId, id: RequestId)
    requires Inv(w) && a in w.actors && id in w.db.requests && w.db.requests[id].state == Approved
    ensures forall t | t in w.minted :: w.minted[t].request != id && w.minted[t].actor != a
  {
    assert forall t | t in w.minted :: MintingHolds(w, t);
  }

  lemma OtherMintingHolds(
    w: World, a: ActorId, e: Database, id: RequestId, kind: Kind, token: Token, now: nat, t: Token)
    requires t in w.minted && MintingHolds(w, t) && t != token
    requires w.minted[t].request != id && w.minted[t].actor != a
    requires Consumes(w.db, e, id, kind, token, now)
    ensures MintingHolds(GrantedWorld(w, a, e, id, token, now), t)
  {}

  lemma GrantKeepsMinted(
    w: World, a: ActorId, e: Database, id: RequestId, kind: Kind, token: Token, now: nat)
    requires MintedInv(w) && RequestsAreTyped(w.db) && token !in w.minted && id in w.usedRequests
    requires forall t | t in w.minted :: w.minted[t].request != id && w.minted[t].actor != a
    requires Consumes(w.db, e, id, kind, token, now)
    ensures MintedInv(GrantedWorld(w, a, e, id, token, now))
  {
    var w' := GrantedWorld(w, a, e, id, token, now);
    assert MintingHolds(w', token);
    forall t | t in w'.minted && t != token
      ensures t in w.minted && w'.minted[t] == w.minted[t] && w'.minted[t].request != id
      ensures MintingHolds(w', t)
    {
      OtherMintingHolds(w, a, e, id, kind, token, now, t);
    }
  }

  lemma GrantKeepsConsumed(
    w: World, a: ActorId, e: Database, id: RequestId, kind: Kind, token: Token, now: nat)
    requires ConsumedHasToken(w) && token !in w.minted && Consumes(w.db, e, id, kind, token, now)
    ensures ConsumedHasToken(GrantedWorld(w, a, e, id, token, now))
  {}

  lemma GrantingToken(
    w: World, a: ActorId, e: Database, id: RequestId, kind: Kind, token: Token, now: nat)
    requires Inv(w) && a in w.actors
    requires token !in w.usedTokens && Consumes(w.db, e, id, kind, token, now)
    ensures DatabaseInv(GrantedWorld(w, a, e, id, token, now))
    ensures Guarantee(w, GrantedWorld(w, a, e, id, token, now))
  {
    GrantKeepsRows(w, a, e, id, kind, token, now);
    NothingMintedYet(w, a, id);
    GrantKeepsMinted(w, a, e, id, kind, token, now);
    GrantKeepsConsumed(w, a, e, id, kind, token, now);
    GrantGuarantee(w, a, e, id, kind, token, now);
  }

  lemma GrantGuarantee(
    w: World, a: ActorId, e: Database, id: RequestId, kind: Kind, token: Token, now: nat)
    requires RowsAreKnown(w)
    requires token !in w.usedTokens && Consumes(w.db, e, id, kind, token, now)
    ensures Guarantee(w, GrantedWorld(w, a, e, id, token, now))
  {}
}
