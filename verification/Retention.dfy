/** How long maintenance keeps what has ended: sessions that have expired and requests that
    have been settled. */
module Retention {
  import opened Options
  import opened AuthorizationStore

  predicate IsKeptLongEnough(settled: nat, now: nat) {
    settled + TERMINAL_REQUEST_RETENTION_SECONDS <= now
  }

  ghost predicate CutoffIsRight(now: nat) {
    forall t: nat | t <= RetentionCutoff(now) :: IsKeptLongEnough(t, now)
  }

  /** The cutoff lies a day back exactly from the second day of 1970 on; before, it wraps. */
  lemma CutoffIsRightIff(now: nat)
    ensures CutoffIsRight(now) <==> now >= TERMINAL_REQUEST_RETENTION_SECONDS
  {
    if now < TERMINAL_REQUEST_RETENTION_SECONDS {
      assert now <= RetentionCutoff(now) && !IsKeptLongEnough(now, now);
    }
  }

  /** Every session and request that a pass deletes ended at least a day ago. */
  ghost predicate RespectsRetention(d: Database, now: nat, p: Picks) {
    && (forall x | x in p.sessions && x in d.sessions :: IsKeptLongEnough(d.sessions[x].expiresAt, now))
    && var cleared := AfterSessions(d, p);
       forall i | i in p.requests && i in cleared.requests && cleared.requests[i].settledAt.Some? ::
         IsKeptLongEnough(cleared.requests[i].settledAt.value, now)
  }

  lemma PassRespectsRetention(d: Database, now: nat, p: Picks)
    requires MayPick(d, now, p) && now >= TERMINAL_REQUEST_RETENTION_SECONDS
    ensures RespectsRetention(d, now, p)
  {
    CutoffIsRightIff(now);
    assert ExpireAll(d, p.expire).sessions == d.sessions;
  }

  const FRESH: RequestId := "auth-1"

  /** One request, denied at this very moment. */
  function FreshlyDenied(now: nat): Database {
    Database(map[FRESH := Request(Reader, None, [], Denied, 0, now + 900, Some(now), None)], map[], map[])
  }

  /** On the first day of 1970 a pass deletes a request that has just been settled. */
  lemma EarlyPassDeletesFreshRequest(now: nat)
    requires now < TERMINAL_REQUEST_RETENTION_SECONDS
    ensures var d, p := FreshlyDenied(now), Picks({}, {}, {FRESH});
      && MayPick(d, now, p) && FRESH !in Maintain(d, p).requests
      && !RespectsRetention(d, now, p)
  {
    var d, p := FreshlyDenied(now), Picks({}, {}, {FRESH});
    var cleared := AfterSessions(d, p);
    assert FRESH in d.requests && cleared.requests[FRESH] == d.requests[FRESH];
    assert FRESH in StaleRequests(cleared, RetentionCutoff(now));
    assert !IsKeptLongEnough(cleared.requests[FRESH].settledAt.value, now);
  }

  ghost predicate EveryPassRespectsRetention(now: nat) {
    forall d, p | MayPick(d, now, p) :: RespectsRetention(d, now, p)
  }

  /** Exactly when no pass deletes anything that ended less than a day ago. */
  lemma RetentionIsRespectedIff(now: nat)
    ensures EveryPassRespectsRetention(now) <==> now >= TERMINAL_REQUEST_RETENTION_SECONDS
  {
    if now < TERMINAL_REQUEST_RETENTION_SECONDS {
      EarlyPassDeletesFreshRequest(now);
    } else {
      forall d, p | MayPick(d, now, p) ensures RespectsRetention(d, now, p) {
        PassRespectsRetention(d, now, p);
      }
    }
  }
}
