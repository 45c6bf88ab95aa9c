/** What the authorization protocol promises over whole runs. */
module AuthorizationTheorems {
  import opened Options
  import opened AuthorizationStore
  import opened AuthorizationProtocol
  import opened AuthorizationInvariant
  import opened AuthorizationSteps

  lemma {:induction false} RunHasInv(run: seq<World>, i: nat)
    requires IsRun(run) && i < |run|
    ensures Inv(run[i])
  {
    if i == 0 {
      InitHasInv(run[0]);
    } else {
      RunHasInv(run, i - 1);
      assert MovesAt(run, i);
      NextKeepsInv(run[i - 1], run[i]);
    }
  }

  lemma RunMove(run: seq<World>, j: nat)
    requires IsRun(run) && 0 < j < |run|
    ensures Kept(run[j - 1], run[j])
  {
    RunHasInv(run, j - 1);
    assert MovesAt(run, j);
    NextKeepsInv(run[j - 1], run[j]);
  }

  lemma MoveRequest(w: World, w': World, id: RequestId)
    requires Guarantee(w, w') && id in w.usedRequests
    ensures id in w'.usedRequests
    ensures id in w'.db.requests ==>
      && id in w.db.requests
      && SameTerms(w.db.requests[id], w'.db.requests[id])
      && MayBecome(w.db.requests[id].state, w'.db.requests[id].state)
  {}

  lemma RunMoveRequest(run: seq<World>, j: nat, id: RequestId)
    requires IsRun(run) && 0 < j < |run| && id in run[j - 1].usedRequests
    ensures id in run[j].usedRequests
    ensures id in run[j].db.requests ==>
      && id in run[j - 1].db.requests
      && SameTerms(run[j - 1].db.requests[id], run[j].db.requests[id])
      && MayBecome(run[j - 1].db.requests[id].state, run[j].db.requests[id].state)
  {
    RunMove(run, j);
    MoveRequest(run[j - 1], run[j], id);
  }

  /** A request only moves forward: pending to approved, denied or expired, approved
      to consumed or expired. Its terms never change, and a deleted request never
      comes back. */
  lemma {:induction false} RequestsOnlyMoveForward(run: seq<World>, i: nat, j: nat, id: RequestId)
    requires IsRun(run) && i <= j < |run| && id in run[i].usedRequests
    ensures id in run[j].usedRequests
    ensures id in run[j].db.requests ==>
      && id in run[i].db.requests
      && SameTerms(run[i].db.requests[id], run[j].db.requests[id])
      && MayReach(run[i].db.requests[id].state, run[j].db.requests[id].state)
  {
    if i < j {
      RequestsOnlyMoveForward(run, i, j - 1, id);
      RunMoveRequest(run, j, id);
    }
  }

  /** A request yields at most one credential or session, ever. */
  lemma AtMostOneTokenPerRequest(run: seq<World>, i: nat, t: Token, u: Token)
    requires IsRun(run) && i < |run| && t in run[i].minted && u in run[i].minted
    requires run[i].minted[t].request == run[i].minted[u].request
    ensures t == u
  {
    RunHasInv(run, i);
  }

  lemma RunMoveMinted(run: seq<World>, j: nat, t: Token)
    requires IsRun(run) && 0 < j < |run| && t in run[j - 1].minted
    ensures t in run[j].minted && run[j].minted[t] == run[j - 1].minted[t]
  {
    RunMove(run, j);
  }

  /** No minting is ever forgotten, so the bound above spans the whole run. */
  lemma {:induction false} MintingsAreKept(run: seq<World>, i: nat, j: nat, t: Token)
    requires IsRun(run) && i <= j < |run| && t in run[i].minted
    ensures t in run[j].minted && run[j].minted[t] == run[i].minted[t]
  {
    if i < j {
      MintingsAreKept(run, i, j - 1, t);
      RunMoveMinted(run, j, t);
    }
  }

  /** A claimer is answered with a token exactly when its own batch minted it. */
  lemma TokenIsToldIffMinted(run: seq<World>, i: nat, a: ActorId, t: Token)
    requires IsRun(run) && i < |run|
    ensures (a in run[i].responses && run[i].responses[a] == Granted(t))
       <==> (t in run[i].minted && run[i].minted[t].actor == a)
  {
    RunHasInv(run, i);
    if a in run[i].responses {
      assert ResponseInv(run[i], a, run[i].responses[a]);
    }
  }

  /** Inserting a token row and consuming its approved request are one and the same
      move: no row is inserted without it, and the consumption is in time. */
  lemma TokenRowAppearsWithItsConsumption(run: seq<World>, i: nat, t: Token)
    requires IsRun(run) && i + 1 < |run|
    ensures (TokenExists(run[i + 1].db, t) && !TokenExists(run[i].db, t))
       <==> (t in run[i + 1].minted && t !in run[i].minted)
    ensures t in run[i + 1].minted && t !in run[i].minted ==>
      var m := run[i + 1].minted[t];
      && m.request in run[i].db.requests && m.request in run[i + 1].db.requests
      && run[i].db.requests[m.request].state == Approved
      && run[i + 1].db.requests[m.request].state == Consumed
      && run[i + 1].db.requests[m.request].token == Some(t)
      && run[i + 1].db.requests[m.request].settledAt == Some(m.at)
      && m.at < run[i + 1].db.requests[m.request].expiresAt
  {
    RunMove(run, i + 1);
    var w, w' := run[i], run[i + 1];
    assert MintsWhatItInserts(w, w');
    if t in w'.minted && t !in w.minted {
      assert MintedNow(w, w', t);
      RunHasInv(run, i);
      ConsumedLater(run, i, w'.minted[t].request);
    }
  }

  lemma ConsumedLater(run: seq<World>, i: nat, id: RequestId)
    requires IsRun(run) && i + 1 < |run| && id in run[i].db.requests
    requires run[i].db.requests[id].state == Approved
    ensures id !in run[i + 1].consumedBefore
  {
    ConsumedBeforeIsFixed(run, i + 1);
    if id in run[0].consumedBefore {
      RunHasInv(run, 0);
      RequestsOnlyMoveForward(run, 0, i, id);
    }
  }

  lemma {:induction false} ConsumedBeforeIsFixed(run: seq<World>, i: nat)
    requires IsRun(run) && i < |run|
    ensures run[i].consumedBefore == run[0].consumedBefore
  {
    if i > 0 {
      ConsumedBeforeIsFixed(run, i - 1);
      assert MovesAt(run, i);
      MoveKeepsConsumedBefore(run[i - 1], run[i]);
    }
  }

  lemma ClaimKeepsConsumedBefore(
    w: World, a: ActorId, id: RequestId, kind: Kind, name: Option<Name>, now: nat, c: Choice)
    ensures ClaimStep(w, a, id, kind, name, now, c).consumedBefore == w.consumedBefore
  {
  }

  lemma RunKeepsConsumedBefore(w: World, a: ActorId, c: Choice)
    requires Enabled(w, a, c)
    ensures Run(w, a, c).consumedBefore == w.consumedBefore
  {
    match w.actors[a]
    case Claiming(id, kind, name, now) => ClaimKeepsConsumedBefore(w, a, id, kind, name, now, c);
    case _ =>
  }

  lemma MoveKeepsConsumedBefore(w: World, w': World)
    requires Next(w, w')
    ensures w'.consumedBefore == w.consumedBefore
  {
    var move :| Moves(w, w', move);
    if move.Running? {
      RunKeepsConsumedBefore(w, move.a, move.c);
    }
  }

  /** Every request consumed during the run has its one token and was consumed
      strictly before its deadline. */
  lemma ConsumedInTime(run: seq<World>, i: nat, id: RequestId)
    requires IsRun(run) && i < |run| && id in run[i].db.requests
    requires run[i].db.requests[id].state == Consumed && id !in run[i].consumedBefore
    ensures var r := run[i].db.requests[id];
      && r.token.Some? && r.token.value in run[i].minted
      && run[i].minted[r.token.value].request == id
      && r.settledAt.Some? && r.settledAt.value < r.expiresAt
  {
    RunHasInv(run, i);
  }

  // ---- names -------------------------------------------------------------------

  /** At any time at most one active credential has a given name. */
  lemma ActiveNamesAreUnique(run: seq<World>, i: nat)
    requires IsRun(run) && i < |run|
    ensures ActiveNamesDiffer(run[i].db)
  {
    RunHasInv(run, i);
  }

  lemma RunMoveCredential(run: seq<World>, j: nat, c: string)
    requires IsRun(run) && 0 < j < |run| && c in run[j - 1].db.credentials
    ensures c in run[j].db.credentials
    ensures run[j].db.credentials[c].name == run[j - 1].db.credentials[c].name
    ensures run[j - 1].db.credentials[c].revoked ==> run[j].db.credentials[c].revoked
  {
    RunMove(run, j);
  }

  /** Credentials stay, keep their names, and are never reinstated. */
  lemma {:induction false} CredentialsAreKept(run: seq<World>, i: nat, j: nat, c: string)
    requires IsRun(run) && i <= j < |run| && c in run[i].db.credentials
    ensures c in run[j].db.credentials
    ensures run[j].db.credentials[c].name == run[i].db.credentials[c].name
    ensures run[i].db.credentials[c].revoked ==> run[j].db.credentials[c].revoked
  {
    if i < j {
      CredentialsAreKept(run, i, j - 1, c);
      RunMoveCredential(run, j, c);
    }
  }

  /** A token is minted for an approved request; for a sender only while the name is free. */
  lemma MintingNeedsFreeName(run: seq<World>, j: nat, t: Token)
    requires IsRun(run) && 0 < j < |run| && t in run[j].minted && t !in run[j - 1].minted
    ensures var d, id := run[j - 1].db, run[j].minted[t].request;
      && id in d.requests && d.requests[id].state == Approved
      && (d.requests[id].kind == Sender ==>
            d.requests[id].name.Some? && !NameIsActive(d, d.requests[id].name.value))
  {
    RunMove(run, j);
    assert MintedNow(run[j - 1], run[j], t);
  }

  lemma ApprovedHasNoToken(w: World, id: RequestId)
    requires Inv(w) && id in w.db.requests && w.db.requests[id].state == Approved
    ensures forall t | t in w.minted :: w.minted[t].request != id
  {
    assert forall t | t in w.minted :: MintingHolds(w, t);
  }

  /** An approved sender request whose name an active credential holds. */
  ghost predicate NameIsHeld(d: Database, id: RequestId, c: string) {
    && id in d.requests && d.requests[id].kind == Sender && d.requests[id].state == Approved
    && c in d.credentials && Some(d.credentials[c].name) == d.requests[id].name
  }

  /** It is still the request of these terms, if it is there at all, and the credential is
      still active. */
  ghost predicate NameStaysHeld(d: Database, e: Database, id: RequestId, c: string) {
    && NameIsHeld(d, id, c)
    && (id in e.requests ==> SameTerms(d.requests[id], e.requests[id]))
    && c in e.credentials && e.credentials[c].name == d.credentials[c].name && !e.credentials[c].revoked
  }

  lemma NameIsHeldLater(run: seq<World>, i: nat, j: nat, id: RequestId, c: string)
    requires IsRun(run) && i <= j < |run| && NameIsHeld(run[i].db, id, c)
    requires c in run[j].db.credentials && !run[j].db.credentials[c].revoked
    ensures NameStaysHeld(run[i].db, run[j].db, id, c)
  {
    CredentialsAreKept(run, i, j, c);
    RequestIsKnown(run, i, id);
    RequestsOnlyMoveForward(run, i, j, id);
  }

  lemma RequestIsKnown(run: seq<World>, i: nat, id: RequestId)
    requires IsRun(run) && i < |run| && id in run[i].db.requests
    ensures id in run[i].usedRequests
  {
    RunHasInv(run, i);
  }

  /** The next move mints nothing for such a request. */
  lemma NothingIsMintedNext(run: seq<World>, d: Database, j: nat, id: RequestId, c: string, t: Token)
    requires IsRun(run) && 0 < j < |run| && NameStaysHeld(d, run[j - 1].db, id, c)
    requires t in run[j].minted && t !in run[j - 1].minted
    ensures run[j].minted[t].request != id
  {
    assert NameIsActive(run[j - 1].db, d.requests[id].name.value);
    MintingNeedsFreeName(run, j, t);
  }

  lemma NothingIsMintedYet(run: seq<World>, i: nat, id: RequestId, t: Token)
    requires IsRun(run) && i < |run| && t in run[i].minted
    requires id in run[i].db.requests && run[i].db.requests[id].state == Approved
    ensures run[i].minted[t].request != id
  {
    RunHasInv(run, i);
    ApprovedHasNoToken(run[i], id);
  }

  /** The move that minted a token. */
  lemma {:induction false} BirthOf(run: seq<World>, i: nat, j: nat, t: Token) returns (k: nat)
    requires IsRun(run) && i <= j < |run| && t !in run[i].minted && t in run[j].minted
    ensures i < k <= j && t !in run[k - 1].minted && t in run[k].minted
    ensures run[k].minted[t] == run[j].minted[t]
  {
    k := j;
    if t in run[j - 1].minted {
      RunMoveMinted(run, j, t);
      k := BirthOf(run, i, j - 1, t);
    }
  }

  /** While a name is active, nothing is minted for another approved request for it. */
  lemma NothingIsMintedWhileActive(run: seq<World>, i: nat, j: nat, id: RequestId, c: string, t: Token)
    requires IsRun(run) && i <= j < |run| && NameIsHeld(run[i].db, id, c)
    requires c in run[j].db.credentials && !run[j].db.credentials[c].revoked
    requires t in run[j].minted
    ensures run[j].minted[t].request != id
  {
    if t in run[i].minted {
      NothingIsMintedYet(run, i, id, t);
      MintingsAreKept(run, i, j, t);
    } else {
      var k := BirthOf(run, i, j, t);
      CredentialsAreKept(run, i, k - 1, c);
      CredentialsAreKept(run, k - 1, j, c);
      NameIsHeldLater(run, i, k - 1, id, c);
      NothingIsMintedNext(run, run[i].db, k, id, c, t);
    }
  }

  lemma NotConsumedBefore(run: seq<World>, i: nat, id: RequestId)
    requires IsRun(run) && i < |run|
    requires id in run[i].db.requests && run[i].db.requests[id].state == Approved
    ensures id !in run[0].consumedBefore
  {
    if id in run[0].consumedBefore {
      RunHasInv(run, 0);
      RequestsOnlyMoveForward(run, 0, i, id);
    }
  }

  /** An approved sender request stays approved, or expires, for as long as its name is held
      by an active credential, whatever is claimed meanwhile. */
  lemma ApprovedStaysWhileNameIsActive(run: seq<World>, i: nat, j: nat, id: RequestId, c: string)
    requires IsRun(run) && i <= j < |run| && NameIsHeld(run[i].db, id, c)
    requires c in run[j].db.credentials && !run[j].db.credentials[c].revoked
    ensures id in run[j].db.requests ==>
      run[j].db.requests[id].state == Approved || run[j].db.requests[id].state == Expired
  {
    RunHasInv(run, i);
    RequestsOnlyMoveForward(run, i, j, id);
    if id in run[j].db.requests && run[j].db.requests[id].state == Consumed {
      NotConsumedBefore(run, i, id);
      ConsumedBeforeIsFixed(run, j);
      ConsumedInTime(run, j, id);
      NothingIsMintedWhileActive(run, i, j, id, c, run[j].db.requests[id].token.value);
    }
  }

  /** Two sender requests for one name that were both consumed hold different credentials
      of that name, and at most one of them is still active. */
  lemma OneActiveCredentialAmongConsumed(run: seq<World>, i: nat, p: RequestId, q: RequestId)
    requires IsRun(run) && i < |run| && p != q
    requires forall id | id in {p, q} ::
      && id in run[i].db.requests && run[i].db.requests[id].kind == Sender
      && run[i].db.requests[id].state == Consumed && id !in run[i].consumedBefore
    requires run[i].db.requests[p].name == run[i].db.requests[q].name
    ensures var d := run[i].db;
      var t, u := d.requests[p].token, d.requests[q].token;
      && t.Some? && u.Some? && t.value.Credential? && u.value.Credential?
      && var c, e := t.value.id, u.value.id;
         && c != e && c in d.credentials && e in d.credentials
         && Some(d.credentials[c].name) == d.requests[p].name == Some(d.credentials[e].name)
         && (d.credentials[c].revoked || d.credentials[e].revoked)
  {
    RunHasInv(run, i);
    var d, m := run[i].db, run[i].minted;
    assert p in {p, q} && q in {p, q};
    assert MintingHolds(run[i], d.requests[p].token.value);
    assert MintingHolds(run[i], d.requests[q].token.value);
  }

  // ---- AlreadyClaimed ------------------------------------------------------------

  /** The request is not consumed: it is in another state, or has been deleted. */
  predicate IsUnconsumed(d: Database, id: RequestId) {
    id in d.requests ==> d.requests[id].state != Consumed
  }

  /** Exactly when a claimer is told `AlreadyClaimed` although its request is not consumed:
      its name check no longer finds an active credential. Then the credential that
      blocked the batch has been revoked in between, so without such a revocation the
      answer means what it says. */
  lemma AlreadyClaimedUnconsumed(w: World, a: ActorId, c: Choice)
    requires Inv(w) && Enabled(w, a, c)
    requires var p := w.actors[a]; p.Loading? || p.Rechecking? || p.CheckingClaimName?
    requires IsUnconsumed(w.db, w.actors[a].id)
    ensures var p, w' := w.actors[a], Run(w, a, c);
      && w'.db == w.db
      && ((a in w'.responses && w'.responses[a] == AlreadyClaimed)
          <==> (p.CheckingClaimName? && !NameIsActive(w.db, p.name)))
    ensures var p, w' := w.actors[a], Run(w, a, c);
      a in w'.responses && w'.responses[a] == AlreadyClaimed ==>
        && HeldName(w.db, p.blocker, p.name)
        && w.db.credentials[p.blocker.value].revoked
  {
    assert ActorInv(w, w.actors[a]);
    assert a !in w.responses;
  }

  /** Nobody else is told `AlreadyClaimed`. */
  lemma OnlyClaimersAreToldAlreadyClaimed(w: World, a: ActorId, c: Choice)
    requires Inv(w) && Enabled(w, a, c)
    requires var p := w.actors[a]; !p.Loading? && !p.Rechecking? && !p.CheckingClaimName?
    ensures var w' := Run(w, a, c); !(a in w'.responses && w'.responses[a] == AlreadyClaimed)
  {
    assert ActorInv(w, w.actors[a]);
    assert a !in w.responses;
  }

  const REQUEST: RequestId := "auth-1"
  const NAME: Name := "laptop"
  const HOLDER := "cred-1"

  function WitnessStart(): World {
    var request := Request(Sender, Some(NAME), [], Approved, 0, 900, None, None);
    var holder := CredentialRow(NAME, 0, false);
    World(Database(map[REQUEST := request], map[HOLDER := holder], map[]),
          map[], {}, {REQUEST}, {Credential(HOLDER)}, {}, map[], map[])
  }

  const WITNESS_CHOICE := Choice("", [], 0, "cred-2", 0, Picks({}, {}, {}))

  lemma RunsStep(w: World, a: ActorId)
    requires Enabled(w, a, WITNESS_CHOICE) && !w.actors[a].Maintaining?
    ensures Next(w, Run(w, a, WITNESS_CHOICE))
  {
    assert Moves(w, Run(w, a, WITNESS_CHOICE), Running(a, WITNESS_CHOICE));
  }

  lemma StartsStep(w: World, a: ActorId, actor: Actor)
    requires a !in w.started && IsEntryPoint(actor)
    ensures Next(w, Start(w, a, actor))
  {
    assert Moves(w, Start(w, a, actor), Starting(a, actor));
  }

  /** The first half of the witness: the claim is blocked by the active name. */
  lemma BlockedClaimWitness() returns (run: seq<World>)
    ensures IsRun(run)
    ensures var w := run[|run| - 1];
      && w.db == WitnessStart().db && w.started == {0} && w.responses == map[]
      && w.actors == map[0 := Rechecking(REQUEST, Sender, Some(NAME), 1, Some(HOLDER))]
  {
    var w0 := WitnessStart();
    assert Init(w0);
    var w1 := Start(w0, 0, Loading(REQUEST, Sender, [], 1));
    StartsStep(w0, 0, Loading(REQUEST, Sender, [], 1));
    var w2 := Run(w1, 0, WITNESS_CHOICE);
    RunsStep(w1, 0);
    assert w2.actors[0] == Claiming(REQUEST, Sender, Some(NAME), 1);
    assert NameIsActive(w2.db, NAME) by { assert HOLDER in w2.db.credentials; }
    var w3 := Run(w2, 0, WITNESS_CHOICE);
    RunsStep(w2, 0);
    assert Blocker(w2.db, Some(NAME)) == Some(HOLDER);
    run := [w0, w1, w2, w3];
  }

  lemma Extend(run: seq<World>, w: World)
    requires IsRun(run) && Next(run[|run| - 1], w)
    ensures IsRun(run + [w])
  {
    forall j | 0 < j < |run + [w]| ensures MovesAt(run + [w], j) {
      if j < |run| {
        assert MovesAt(run, j);
      }
    }
  }

  /** Then somebody asks to revoke the name. */
  lemma RevocationStartsWitness() returns (run: seq<World>)
    ensures IsRun(run)
    ensures var w := run[|run| - 1];
      && w.db == WitnessStart().db && w.started == {0, 1} && w.responses == map[]
      && w.actors == map[0 := Rechecking(REQUEST, Sender, Some(NAME), 1, Some(HOLDER)), 1 := Revoking(NAME, 1)]
  {
    var blocked := BlockedClaimWitness();
    var w3 := blocked[|blocked| - 1];
    var w4 := Start(w3, 1, Revoking(NAME, 1));
    StartsStep(w3, 1, Revoking(NAME, 1));
    Extend(blocked, w4);
    run := blocked + [w4];
  }

  /** The second half: the blocking credential is revoked before the recheck. */
  lemma RevokedBlockerWitness() returns (run: seq<World>)
    ensures IsRun(run)
    ensures var w := run[|run| - 1];
      && w.db.requests == WitnessStart().db.requests && !NameIsActive(w.db, NAME)
      && w.started == {0, 1} && 0 !in w.responses
      && 0 in w.actors && w.actors[0] == Rechecking(REQUEST, Sender, Some(NAME), 1, Some(HOLDER))
  {
    var started := RevocationStartsWitness();
    var w4 := started[|started| - 1];
    var w5 := Run(w4, 1, WITNESS_CHOICE);
    RunsStep(w4, 1);
    Extend(started, w5);
    run := started + [w5];
  }

  /** The claimer finds the request still approved, and goes on to check the name. */
  lemma RecheckedClaimWitness() returns (run: seq<World>)
    ensures IsRun(run)
    ensures var w := run[|run| - 1];
      && w.db.requests == WitnessStart().db.requests && !NameIsActive(w.db, NAME)
      && w.started == {0, 1} && 0 !in w.responses
      && 0 in w.actors && w.actors[0] == CheckingClaimName(REQUEST, NAME, Some(HOLDER))
  {
    var revoked := RevokedBlockerWitness();
    var w5 := revoked[|revoked| - 1];
    var w6 := Run(w5, 0, WITNESS_CHOICE);
    RunsStep(w5, 0);
    Extend(revoked, w6);
    run := revoked + [w6];
  }

  /** A run that ends with a claim told `AlreadyClaimed` although its request is
      still approved: "already claimed implies consumed" does not hold. */
  lemma AlreadyClaimedWitness() returns (run: seq<World>)
    ensures IsRun(run)
    ensures var w := run[|run| - 1];
      && 0 in w.responses && w.responses[0] == AlreadyClaimed
      && REQUEST in w.db.requests && w.db.requests[REQUEST].state == Approved
  {
    var checked := RecheckedClaimWitness();
    var w6 := checked[|checked| - 1];
    var w7 := Run(w6, 0, WITNESS_CHOICE);
    RunsStep(w6, 0);
    Extend(checked, w7);
    run := checked + [w7];
  }

  /** A run that ends with the same answer for a request that has expired: another actor
      with a later clock expires it before the last check of the name. */
  lemma AlreadyClaimedAfterExpiryWitness() returns (run: seq<World>)
    ensures IsRun(run)
    ensures var w := run[|run| - 1];
      && 0 in w.responses && w.responses[0] == AlreadyClaimed
      && REQUEST in w.db.requests && w.db.requests[REQUEST].state == Expired
  {
    var checked := RecheckedClaimWitness();
    var w6 := checked[|checked| - 1];
    var w7 := Start(w6, 2, Expiring(REQUEST, 900, Done));
    StartsStep(w6, 2, Expiring(REQUEST, 900, Done));
    Extend(checked, w7);
    var w8 := Run(w7, 2, WITNESS_CHOICE);
    RunsStep(w7, 2);
    Extend(checked + [w7], w8);
    var w9 := Run(w8, 0, WITNESS_CHOICE);
    RunsStep(w8, 0);
    Extend(checked + [w7] + [w8], w9);
    run := checked + [w7] + [w8] + [w9];
  }
}
