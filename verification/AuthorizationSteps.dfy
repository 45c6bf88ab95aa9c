/** Every move of the authorization protocol keeps its invariant. */
module AuthorizationSteps {
  import opened Options
  import opened AuthorizationStore
  import opened AuthorizationProtocol
  import opened AuthorizationInvariant

  ghost predicate Kept(w: World, w': World) {
    Inv(w') && Guarantee(w, w')
  }

  lemma OthersStay(w: World, w': World, a: ActorId)
    requires Inv(w) && Guarantee(w, w')
    requires forall b | b in w'.actors && b != a :: b in w.actors && w'.actors[b] == w.actors[b]
    requires forall b | b in w'.responses && b != a :: b in w.responses && w'.responses[b] == w.responses[b]
    ensures forall b | b in w'.actors && b != a :: ActorInv(w', w'.actors[b])
    ensures forall b | b in w'.responses && b != a :: ResponseInv(w', b, w'.responses[b])
  {
    forall b | b in w'.actors && b != a ensures ActorInv(w', w'.actors[b]) {
      ActorInvStays(w, w', w.actors[b]);
    }
  }

  lemma IgnoresActors(w: World, e: World, w': World)
    requires GoodEffect(w, e)
    requires w' == e.(actors := w'.actors, responses := w'.responses, started := w'.started)
    requires forall b | b in w.responses :: b in w'.responses && w'.responses[b] == w.responses[b]
    ensures DatabaseInv(w') && Guarantee(w, w')
  {
    assert MintedInv(w');
    assert ConsumedHasToken(w');
  }

  lemma Continue(w: World, e: World, a: ActorId, actor: Actor)
    requires Inv(w) && a in w.actors && GoodEffect(w, e) && ActorInv(e, actor)
    ensures Kept(w, Goto(e, a, actor))
  {
    var w' := Goto(e, a, actor);
    IgnoresActors(w, e, w');
    OthersStay(w, w', a);
    assert ActorInv(w', actor);
  }

  lemma Answer(w: World, e: World, a: ActorId, response: Response)
    requires Inv(w) && a in w.actors && GoodEffect(w, e) && !response.Granted?
    ensures Kept(w, Reply(e, a, response))
  {
    var w' := Reply(e, a, response);
    IgnoresActors(w, e, w');
    OthersStay(w, w', a);
  }

  lemma Leave(w: World, e: World, a: ActorId)
    requires Inv(w) && a in w.actors && GoodEffect(w, e)
    ensures Kept(w, Halt(e, a))
  {
    var w' := Halt(e, a);
    IgnoresActors(w, e, w');
    OthersStay(w, w', a);
  }

  // ---- steps -----------------------------------------------------------------------

  lemma InsertedKeepsInv(w: World, a: ActorId, id: RequestId, row: Request, d: Database)
    requires Inv(w) && a in w.actors && id !in w.usedRequests && row.state == Pending
    requires InsertRequest(w.db, id, row) == Some(d)
    ensures Kept(w, Reply(w.(db := d, usedRequests := w.usedRequests + {id}), a, Created(id)))
  {
    InsertingRequest(w, id, row, d);
    Answer(w, w.(db := d, usedRequests := w.usedRequests + {id}), a, Created(id));
  }

  lemma InsertOutcomes(w: World, a: ActorId, kind: Kind, name: Option<Name>, now: nat, c: Choice)
    ensures var row := Request(kind, name, c.secretHash, Pending, now, now + c.requestTtl, None, None);
      var d := InsertRequest(w.db, c.request, row);
      InsertStep(w, a, kind, name, now, c)
        == if now + c.requestTtl > I32_MAX || d.None? then Halt(w, a)
           else Reply(w.(db := d.value, usedRequests := w.usedRequests + {c.request}), a,
                      Created(c.request))
  {}

  lemma InsertKeepsInv(w: World, a: ActorId, kind: Kind, name: Option<Name>, now: nat, c: Choice)
    requires Inv(w) && a in w.actors && c.request !in w.usedRequests
    ensures Kept(w, InsertStep(w, a, kind, name, now, c))
  {
    InsertOutcomes(w, a, kind, name, now, c);
    var row := Request(kind, name, c.secretHash, Pending, now, now + c.requestTtl, None, None);
    var d := InsertRequest(w.db, c.request, row);
    var w' := InsertStep(w, a, kind, name, now, c);
    if now + c.requestTtl > I32_MAX || d.None? {
      assert Kept(w, w') by {
        NoEffect(w);
        Leave(w, w, a);
      }
    } else {
      assert Kept(w, w') by { InsertedKeepsInv(w, a, c.request, row, d.value); }
    }
  }

  lemma DecideKeepsInv(w: World, a: ActorId, c: Choice)
    requires Inv(w) && Enabled(w, a, c)
    requires var p := w.actors[a]; p.Deciding? || p.ExplainingDecision? || p.Expiring?
    ensures Kept(w, Run(w, a, c))
  {
    NoEffect(w);
    match w.actors[a]
    case Deciding(id, kind, approve, now) =>
      if now > I32_MAX {
        Leave(w, w, a);
      } else if CanDecide(w.db, id, kind, now) {
        MovingRequests(w, Decide(w.db, id, kind, approve, now));
        Answer(w, w.(db := Decide(w.db, id, kind, approve, now)), a, Done);
      } else {
        Continue(w, w, a, ExplainingDecision(id, kind, now));
      }
    case ExplainingDecision(id, kind, now) =>
      if id !in w.db.requests {
        Answer(w, w, a, Refused(NotFound));
      } else if w.db.requests[id].kind != kind {
        Answer(w, w, a, Refused(WrongAuthorizationKind));
      } else if w.db.requests[id].state == Pending && w.db.requests[id].expiresAt <= now {
        Continue(w, w, a, Expiring(id, now, Refused(FailedExpired)));
      } else {
        Answer(w, w, a, Refused(DecisionFailure(w.db.requests[id].state)));
      }
    case Expiring(id, now, answer) =>
      if now > I32_MAX {
        Leave(w, w, a);
      } else {
        MovingRequests(w, ExpireIfNeeded(w.db, id, now));
        ExpiringAnswers(w, a);
        Answer(w, w.(db := ExpireIfNeeded(w.db, id, now)), a, answer);
      }
    case _ =>
  }

  /** An actor that is about to expire a request never answers with a token. */
  lemma ExpiringAnswers(w: World, a: ActorId)
    requires Inv(w) && a in w.actors && w.actors[a].Expiring?
    ensures !w.actors[a].answer.Granted?
  {
    assert ActorInv(w, w.actors[a]);
  }

  lemma LoadKeepsInv(w: World, a: ActorId, c: Choice)
    requires Inv(w) && Enabled(w, a, c) && w.actors[a].Loading?
    ensures Kept(w, Run(w, a, c))
  {
    NoEffect(w);
    var p := w.actors[a];
    if p.id !in w.db.requests {
      Answer(w, w, a, Refused(NotFound));
    } else {
      var r := w.db.requests[p.id];
      if r.kind != p.kind {
        Answer(w, w, a, Refused(WrongAuthorizationKind));
      } else if r.secretHash != p.secretHash {
        Answer(w, w, a, Refused(InvalidPollingSecret));
      } else if (r.state == Pending || r.state == Approved) && p.now >= r.expiresAt {
        Continue(w, w, a, Expiring(p.id, p.now, ClaimExpired));
      } else {
        match r.state
        case Denied => Answer(w, w, a, ClaimDenied);
        case Expired => Answer(w, w, a, ClaimExpired);
        case Consumed => Answer(w, w, a, AlreadyClaimed);
        case Pending => Answer(w, w, a, ClaimPending);
        case Approved =>
          if p.kind == Sender && r.name.None? {
            Answer(w, w, a, Refused(InvalidState));
          } else {
            Continue(w, w, a, Claiming(p.id, p.kind, r.name, p.now));
          }
      }
    }
  }

  lemma ClaimKeepsInv(w: World, a: ActorId, c: Choice)
    requires Inv(w) && Enabled(w, a, c) && w.actors[a].Claiming?
    ensures Kept(w, Run(w, a, c))
  {
    var p := w.actors[a];
    assert ActorInv(w, p);
    var token := FreshToken(p.kind, c.token);
    if p.now > I32_MAX || (p.kind == Reader && p.now + c.sessionTtl > I32_MAX) {
      NoEffect(w);
      Leave(w, w, a);
    } else {
      assert !TokenExists(w.db, token);
      BatchIsAllOrNothing(w.db, p.id, p.kind, p.wanted, p.now, c);
      var batch := Batch(w.db, p.id, p.kind, p.wanted, p.now, c);
      if batch.None? {
        NoEffect(w);
        Leave(w, w, a);
      } else if batch.value.1 {
        GrantKeepsInv(w, a, batch.value.0, p.id, p.kind, token, p.now);
      } else {
        BlockedClaim(w, a, p, token);
      }
    }
  }

  lemma GrantKeepsInv(
    w: World, a: ActorId, e: Database, id: RequestId, kind: Kind, token: Token, now: nat)
    requires Inv(w) && a in w.actors
    requires token !in w.usedTokens && Consumes(w.db, e, id, kind, token, now)
    ensures Kept(w, GrantedWorld(w, a, e, id, token, now))
  {
    GrantingToken(w, a, e, id, kind, token, now);
    OthersStay(w, GrantedWorld(w, a, e, id, token, now), a);
  }

  lemma BlockedClaim(w: World, a: ActorId, p: Actor, token: Token)
    requires Inv(w) && a in w.actors && p.Claiming? && ActorInv(w, p)
    requires !(Claimable(w.db, p.id, p.kind, p.now)
               && (p.kind == Sender ==> !NameIsActive(w.db, p.wanted.value)))
    ensures Kept(w, Goto(w.(usedTokens := w.usedTokens + {token}), a,
                         Rechecking(p.id, p.kind, p.wanted, p.now, Blocker(w.db, p.wanted))))
  {
    var e := w.(usedTokens := w.usedTokens + {token});
    assert DatabaseInv(e) && Guarantee(w, e);
    Continue(w, e, a, Rechecking(p.id, p.kind, p.wanted, p.now, Blocker(w.db, p.wanted)));
  }

  lemma RecheckKeepsInv(w: World, a: ActorId, c: Choice)
    requires Inv(w) && Enabled(w, a, c)
    requires var p := w.actors[a]; p.Rechecking? || p.CheckingClaimName?
    ensures Kept(w, Run(w, a, c))
  {
    NoEffect(w);
    var p := w.actors[a];
    assert ActorInv(w, p);
    if p.CheckingClaimName? {
      if NameIsActive(w.db, p.name) { Answer(w, w, a, Refused(CredentialAlreadyExists)); }
      else { Answer(w, w, a, AlreadyClaimed); }
    } else if p.id !in w.db.requests {
      Answer(w, w, a, Refused(NotFound));
    } else if w.db.requests[p.id].state == Expired {
      Answer(w, w, a, ClaimExpired);
    } else if w.db.requests[p.id].state == Approved && w.db.requests[p.id].expiresAt <= p.now {
      Continue(w, w, a, Expiring(p.id, p.now, ClaimExpired));
    } else if p.kind == Sender && p.wanted.Some? && w.db.requests[p.id].state != Consumed {
      Continue(w, w, a, CheckingClaimName(p.id, p.wanted.value, p.blocker));
    } else {
      Answer(w, w, a, AlreadyClaimed);
    }
  }

  lemma OtherStepsKeepInv(w: World, a: ActorId, c: Choice)
    requires Inv(w) && Enabled(w, a, c) && MaintenanceEnabled(w, a, c)
    requires var p := w.actors[a]; p.CheckingName? || p.Revoking? || p.Maintaining?
    ensures Kept(w, Run(w, a, c))
  {
    NoEffect(w);
    match w.actors[a]
    case CheckingName(name, now) =>
      if NameIsActive(w.db, name) { Answer(w, w, a, Refused(CredentialAlreadyExists)); }
      else { Continue(w, w, a, Inserting(Sender, Some(name), now)); }
    case Revoking(name, now) =>
      if now > I32_MAX || !CanRevoke(w.db, name, now) {
        Leave(w, w, a);
      } else {
        RevokingName(w, name);
        Answer(w, w.(db := RevokeName(w.db, name)), a, Done);
      }
    case Maintaining(now) =>
      if now > I32_MAX {
        Leave(w, w, a);
      } else {
        MaintenanceMovesRequests(w.db, now, c.picks);
        MovingRequests(w, Maintain(w.db, c.picks));
        Answer(w, w.(db := Maintain(w.db, c.picks)), a, Done);
      }
    case _ =>
  }

  lemma StartKeepsInv(w: World, a: ActorId, actor: Actor)
    requires Inv(w) && a !in w.started && IsEntryPoint(actor)
    ensures Kept(w, Start(w, a, actor))
  {
    NoEffect(w);
    var w' := Start(w, a, actor);
    IgnoresActors(w, w, w');
    OthersStay(w, w', a);
  }

  /** The invariant is inductive, and every move stays within the guarantee. */
  lemma NextKeepsInv(w: World, w': World)
    requires Inv(w) && Next(w, w')
    ensures Kept(w, w')
  {
    var move :| Moves(w, w', move);
    match move
    case Starting(a, actor) => StartKeepsInv(w, a, actor);
    case Stopping(a) =>
      NoEffect(w);
      if a in w.actors { Leave(w, w, a); } else { assert w'.actors == w.actors; assert w' == w; }
    case Running(a, c) =>
      match w.actors[a] {
        case Inserting(kind, name, now) => InsertKeepsInv(w, a, kind, name, now, c);
        case Deciding(_, _, _, _) => DecideKeepsInv(w, a, c);
        case ExplainingDecision(_, _, _) => DecideKeepsInv(w, a, c);
        case Expiring(_, _, _) => DecideKeepsInv(w, a, c);
        case Loading(_, _, _, _) => LoadKeepsInv(w, a, c);
        case Claiming(_, _, _, _) => ClaimKeepsInv(w, a, c);
        case Rechecking(_, _, _, _, _) => RecheckKeepsInv(w, a, c);
        case CheckingClaimName(_, _, _) => RecheckKeepsInv(w, a, c);
        case _ => OtherStepsKeepInv(w, a, c);
      }
  }

  lemma InitHasInv(w: World)
    requires Init(w)
    ensures Inv(w)
  {}
}
