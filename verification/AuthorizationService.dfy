/** The authorization service over its database, each operation running without
    interference. `AuthorizationProtocol` interleaves the same statements. */
module AuthorizationServices {
  import opened Options
  import opened Counting
  import opened AuthorizationStore
  import opened AuthorizationProtocol
  import opened AuthorizationInvariant
  import opened Retention

  /** The claim that an undisturbed service grants. */
  predicate Grantable(d: Database, id: RequestId, kind: Kind, secretHash: seq<int>, now: nat) {
    && Claimable(d, id, kind, now)
    && d.requests[id].secretHash == secretHash
    && (kind == Sender ==>
          d.requests[id].name.Some? && !NameIsActive(d, d.requests[id].name.value))
  }

  /** The timestamps that the claim stores fit a signed 32-bit integer, and a session ends
      after it begins. */
  predicate Fits(kind: Kind, now: nat, sessionTtl: nat) {
    now <= I32_MAX && (kind == Reader ==> now + sessionTtl <= I32_MAX && sessionTtl > 0)
  }

  class AuthorizationService {
    var requests: map<RequestId, Request>
    var credentials: map<string, CredentialRow>
    var sessions: map<string, SessionRow>

    function Rows(): Database
      reads this
    {
      Database(requests, credentials, sessions)
    }

    constructor (d: Database)
      ensures Rows() == d
    {
      requests, credentials, sessions := d.requests, d.credentials, d.sessions;
    }

    /** Expire an overdue request: whether it was one. Nothing else changes. `None` is a
        Worker error: a time that does not fit the database. */
    method ExpireOverdue(id: RequestId, now: nat) returns (changed: Option<bool>)
      modifies this`requests
      ensures changed == None <==> now > I32_MAX
      ensures changed == Some(true) <==>
        && now <= I32_MAX && id in old(requests)
        && (old(requests)[id].state == Pending || old(requests)[id].state == Approved)
        && old(requests)[id].expiresAt <= now
      ensures changed != Some(true) ==> requests == old(requests)
      ensures changed == Some(true) ==>
        && requests.Keys == old(requests).Keys
        && requests[id].state == Expired && requests[id].settledAt == Some(now)
        && SameTerms(old(requests)[id], requests[id]) && requests[id].token == old(requests)[id].token
        && forall i | i in requests && i != id :: requests[i] == old(requests)[i]
      ensures changed.Some? ==> Rows() == ExpireIfNeeded(old(Rows()), id, now)
    {
      if now > I32_MAX { return None; }
      var overdue := IsOverdue(Rows(), id, now);
      if overdue {
        requests := requests[id := requests[id].(state := Expired, settledAt := Some(now))];
      }
      changed := Some(overdue);
    }

    /** Approve or deny. A refusal leaves the request alone, except that an overdue
        pending request expires. `None` is a Worker error: a time that does not fit. */
    method Transition(id: RequestId, kind: Kind, approve: bool, now: nat) returns (r: Option<Response>)
      modifies this`requests
      ensures r == None <==> now > I32_MAX
      ensures r == Some(Done) <==> now <= I32_MAX && CanDecide(old(Rows()), id, kind, now)
      ensures r == Some(Done) ==>
        && requests.Keys == old(requests).Keys
        && requests[id].state == (if approve then Approved else Denied)
        && SameTerms(old(requests)[id], requests[id])
        && forall i | i in requests && i != id :: requests[i] == old(requests)[i]
      ensures r != Some(Done) ==>
        Rows() == if r == Some(Refused(FailedExpired)) then ExpireIfNeeded(old(Rows()), id, now) else old(Rows())
      ensures r == None || r == Some(Done) || r.value.Refused?
      ensures now <= I32_MAX ==>
        && (r == Some(Refused(NotFound)) <==> id !in old(requests))
        && (r == Some(Refused(WrongAuthorizationKind)) <==> id in old(requests) && old(requests)[id].kind != kind)
      ensures now <= I32_MAX && id in old(requests) && old(requests)[id].kind == kind ==>
        && (r == Some(Refused(FailedExpired)) <==> requests[id].state == Expired)
        && (r == Some(Refused(FailedDenied)) <==> old(requests)[id].state == Denied)
        && (r == Some(Refused(FailedAlreadyClaimed)) <==> old(requests)[id].state == Consumed)
        && (r == Some(Refused(InvalidState)) <==> old(requests)[id].state == Approved)
    {
      if now > I32_MAX { return None; }
      if CanDecide(Rows(), id, kind, now) {
        requests := Decide(Rows(), id, kind, approve, now).requests;
        return Some(Done);
      }
      if id !in requests { return Some(Refused(NotFound)); }
      var row := requests[id];
      if row.kind != kind { return Some(Refused(WrongAuthorizationKind)); }
      if row.state == Pending && row.expiresAt <= now {
        var _ := ExpireOverdue(id, now);
        return Some(Refused(FailedExpired));
      }
      r := Some(Refused(DecisionFailure(row.state)));
    }

    /** Claim with the polling secret. A token is granted exactly to an approved
        request in time, with the right secret, storable timestamps and, for a
        sender, a free name; the token row and the consumption come together.
        `None` is a Worker error: a timestamp that the database does not take. */
    method Claim(id: RequestId, kind: Kind, secretHash: seq<int>, now: nat, tokenId: string, sessionTtl: nat)
      returns (r: Option<Response>)
      requires !TokenExists(Rows(), FreshToken(kind, tokenId)) && RequestsAreTyped(Rows())
      modifies this
      ensures (r.Some? && r.value.Granted?)
         <==> Grantable(old(Rows()), id, kind, secretHash, now) && Fits(kind, now, sessionTtl)
      ensures r.Some? && r.value.Granted? ==>
        && r.value.token == FreshToken(kind, tokenId)
        && Consumes(old(Rows()), Rows(), id, kind, r.value.token, now)
      ensures !(r.Some? && r.value.Granted?) ==>
        Rows() == if r == Some(ClaimExpired) then ExpireIfNeeded(old(Rows()), id, now) else old(Rows())
      ensures r == Some(Refused(NotFound)) <==> id !in old(requests)
      ensures r == Some(Refused(WrongAuthorizationKind)) <==> id in old(requests) && old(requests)[id].kind != kind
      ensures r == Some(Refused(InvalidPollingSecret)) <==>
        id in old(requests) && old(requests)[id].kind == kind && old(requests)[id].secretHash != secretHash
      ensures id in old(requests) && old(requests)[id].kind == kind && old(requests)[id].secretHash == secretHash ==>
        && (r == Some(ClaimDenied) <==> old(requests)[id].state == Denied)
        && (r == Some(AlreadyClaimed) <==> old(requests)[id].state == Consumed)
        && (r == Some(ClaimExpired) <==> requests[id].state == Expired)
        && (r == Some(ClaimPending) <==>
              old(requests)[id].state == Pending && now < old(requests)[id].expiresAt)
        && (r == None <==>
              || (Claimable(old(Rows()), id, kind, now) && !Fits(kind, now, sessionTtl))
              || (IsOverdue(old(Rows()), id, now) && now > I32_MAX))
      ensures r == Some(Refused(CredentialAlreadyExists)) ==>
        && Claimable(Rows(), id, Sender, now)
        && requests[id].name.Some? && NameIsActive(Rows(), requests[id].name.value)
    {
      if id !in requests { return Some(Refused(NotFound)); }
      var row := requests[id];
      if row.kind != kind { return Some(Refused(WrongAuthorizationKind)); }
      if row.secretHash != secretHash { return Some(Refused(InvalidPollingSecret)); }
      match row.state {
        case Denied => return Some(ClaimDenied);
        case Expired => return Some(ClaimExpired);
        case Consumed => return Some(AlreadyClaimed);
        case Pending =>
          if now < row.expiresAt { return Some(ClaimPending); }
        case Approved =>
          if now < row.expiresAt {
            r := ClaimApproved(id, kind, now, tokenId, sessionTtl);
            return;
          }
      }
      var expired := ExpireOverdue(id, now);
      r := if expired.Some? then Some(ClaimExpired) else None;
    }

    /** The batch of `claim_sender_row` or `claim_reader_row` and its aftermath. */
    method ClaimApproved(id: RequestId, kind: Kind, now: nat, tokenId: string, sessionTtl: nat)
      returns (r: Option<Response>)
      requires Claimable(Rows(), id, kind, now) && RequestsAreTyped(Rows())
      requires !TokenExists(Rows(), FreshToken(kind, tokenId))
      modifies this
      ensures (r.Some? && r.value.Granted?)
         <==> Grantable(old(Rows()), id, kind, old(requests[id].secretHash), now)
              && Fits(kind, now, sessionTtl)
      ensures r.Some? && r.value.Granted? ==>
        && r.value.token == FreshToken(kind, tokenId)
        && Consumes(old(Rows()), Rows(), id, kind, r.value.token, now)
      ensures !(r.Some? && r.value.Granted?) ==> Rows() == old(Rows())
      ensures r == None <==> !Fits(kind, now, sessionTtl)
      ensures r.Some? && !r.value.Granted? ==> r.value == Refused(CredentialAlreadyExists)
      ensures r == Some(Refused(CredentialAlreadyExists)) ==>
        kind == Sender && requests[id].name.Some? && NameIsActive(Rows(), requests[id].name.value)
    {
      var name := requests[id].name;
      if kind == Sender && name.None? { return Some(Refused(InvalidState)); }
      if now > I32_MAX || (kind == Reader && now + sessionTtl > I32_MAX) { return None; }
      var choice := Choice("", [], 0, tokenId, sessionTtl, Picks({}, {}, {}));
      BatchIsAllOrNothing(Rows(), id, kind, name, now, choice);
      var batch := Batch(Rows(), id, kind, name, now, choice);
      if batch.None? { return None; }
      var (d, consumed) := batch.value;
      requests, credentials, sessions := d.requests, d.credentials, d.sessions;
      r := Some(if consumed then Granted(FreshToken(kind, tokenId)) else Refused(CredentialAlreadyExists));
    }

    /** At most one batch of rows per statement, the oldest first; a smaller backlog is done
        at once. From the second day of 1970 on, only rows that have been settled for a day
        are deleted. `None` is a Worker error: a time that does not fit. */
    method Cleanup(now: nat) returns (p: Option<Picks>)
      modifies this
      ensures p == None <==> now > I32_MAX
      ensures p.None? ==> Rows() == old(Rows())
      ensures p.Some? ==> MayPick(old(Rows()), now, p.value) && Rows() == Maintain(old(Rows()), p.value)
      ensures p.Some? && now >= TERMINAL_REQUEST_RETENTION_SECONDS ==>
        RespectsRetention(old(Rows()), now, p.value)
      ensures p.Some? ==> OldestFirst(p.value.expire, Overdue(old(Rows()), now), RequestDeadlines(old(Rows())))
      ensures p.Some? ==>
        var expired := ExpireAll(old(Rows()), p.value.expire);
        OldestFirst(p.value.sessions, StaleSessions(expired, RetentionCutoff(now)), SessionDeadlines(expired))
      ensures p.Some? ==>
        var cleared := AfterSessions(old(Rows()), p.value);
        OldestFirst(p.value.requests, StaleRequests(cleared, RetentionCutoff(now)), Settlements(cleared))
      ensures p.Some? && |Overdue(old(Rows()), now)| <= MAINTENANCE_BATCH_LIMIT ==> Overdue(Rows(), now) == {}
      ensures p.Some? ==>
        var stale := StaleSessions(ExpireAll(old(Rows()), p.value.expire), RetentionCutoff(now));
        |stale| <= MAINTENANCE_BATCH_LIMIT ==> sessions == old(sessions) - stale
      ensures p.Some? ==>
        var settled := StaleRequests(AfterSessions(old(Rows()), p.value), RetentionCutoff(now));
        |settled| <= MAINTENANCE_BATCH_LIMIT ==> StaleRequests(Rows(), RetentionCutoff(now)) == {}
    {
      if now > I32_MAX { return None; }
      ghost var before := Rows();
      var expire := PickOldest(Overdue(Rows(), now), RequestDeadlines(Rows()));
      var expired := ExpireAll(Rows(), expire);
      var stale := PickOldest(StaleSessions(expired, RetentionCutoff(now)), SessionDeadlines(expired));
      var cleared := AfterSessions(Rows(), Picks(expire, stale, {}));
      var settled := PickOldest(StaleRequests(cleared, RetentionCutoff(now)), Settlements(cleared));
      p := Some(Picks(expire, stale, settled));
      requests, sessions := cleared.requests - settled, cleared.sessions;
      assert AfterSessions(before, p.value) == cleared;
      if now >= TERMINAL_REQUEST_RETENTION_SECONDS {
        PassRespectsRetention(before, now, p.value);
      }
      NothingIsLeft(expire, Overdue(before, now));
      NothingIsLeft(stale, StaleSessions(expired, RetentionCutoff(now)));
      NothingIsLeft(settled, StaleRequests(cleared, RetentionCutoff(now)));
    }
  }

  lemma NothingIsLeft<T>(picked: set<T>, rows: set<T>)
    requires picked <= rows
    requires |picked| == if |rows| <= MAINTENANCE_BATCH_LIMIT then |rows| else MAINTENANCE_BATCH_LIMIT
    ensures |rows| <= MAINTENANCE_BATCH_LIMIT ==> picked == rows
  {
    if |rows| <= MAINTENANCE_BATCH_LIMIT {
      FullPart(picked, rows);
    }
  }

  /** No row that is left is older than one that was picked. */
  ghost predicate OldestFirst(picked: set<string>, rows: set<string>, age: map<string, nat>)
    requires picked + rows <= age.Keys
  {
    forall p, r | p in picked && r in rows - picked :: age[p] <= age[r]
  }

  /** The rows that `ORDER BY ... LIMIT 100` reaches, equal ones in whatever order. */
  method PickOldest(rows: set<string>, age: map<string, nat>) returns (picked: set<string>)
    requires rows <= age.Keys
    ensures picked <= rows && OldestFirst(picked, rows, age)
    ensures |picked| == if |rows| <= MAINTENANCE_BATCH_LIMIT then |rows| else MAINTENANCE_BATCH_LIMIT
  {
    picked := {};
    var left := rows;
    while left != {} && |picked| < MAINTENANCE_BATCH_LIMIT
      invariant picked + left == rows && picked !! left
      invariant |picked| + |left| == |rows|
      invariant |picked| <= MAINTENANCE_BATCH_LIMIT
      invariant forall p, r | p in picked && r in left :: age[p] <= age[r]
      decreases left
    {
      SmallestExists(age, left);
      var row :| row in left && forall r | r in left :: age[row] <= age[r];
      picked, left := picked + {row}, left - {row};
    }
  }

  function RequestDeadlines(d: Database): map<string, nat> {
    map i | i in d.requests :: d.requests[i].expiresAt
  }

  function SessionDeadlines(d: Database): map<string, nat> {
    map x | x in d.sessions :: d.sessions[x].expiresAt
  }

  /** When terminal requests were settled. */
  function Settlements(d: Database): map<string, nat> {
    map i | i in d.requests && d.requests[i].settledAt.Some? :: d.requests[i].settledAt.value
  }
}
