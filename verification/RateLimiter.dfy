/** The public rate limits: one fixed-window counter per bucket, updated by a single
    upsert, and the maintenance statement that drops obsolete buckets. */
module RateLimiting {
  import opened Options
  import opened Counting

  const CREATION_RATE_LIMIT: nat := 10
  const POLL_RATE_LIMIT: nat := 60
  const RATE_LIMIT_WINDOW_SECONDS: nat := 60
  const MAINTENANCE_BATCH_LIMIT: nat := 100
  const COUNT_MAX: nat := 2147483647

  datatype Client = Creation(address: string) | Poll(address: string)

  function BucketKey(client: Client): string {
    match client
    case Creation(address) => "create:" + address
    case Poll(address) => "poll:" + address
  }

  function Limit(client: Client): (limit: nat)
    ensures 0 < limit < COUNT_MAX
  {
    match client
    case Creation(_) => CREATION_RATE_LIMIT
    case Poll(_) => POLL_RATE_LIMIT
  }

  datatype Window = Window(startedAt: nat, count: nat)

  type Buckets = map<string, Window>

  datatype Decision = Allowed | Limited(retryAfterSeconds: nat)

  predicate IsObsolete(window: Window, now: nat) {
    window.startedAt + RATE_LIMIT_WINDOW_SECONDS <= now
  }

  /** `INSERT ... ON CONFLICT DO UPDATE ... RETURNING`. */
  function Upserted(b: Buckets, key: string, now: nat): Window {
    if key !in b then Window(now, 1)
    else if IsObsolete(b[key], now) then Window(now, 1)
    else Window(b[key].startedAt, if b[key].count + 1 <= COUNT_MAX then b[key].count + 1 else COUNT_MAX)
  }

  function Decide(window: Window, limit: nat, now: nat): Decision {
    if window.count <= limit then Allowed
    else
      var wait := window.startedAt + RATE_LIMIT_WINDOW_SECONDS - now;
      Limited(if wait < 1 then 1 else wait)
  }

  function DecisionFor(b: Buckets, client: Client, now: nat): Decision {
    Decide(Upserted(b, BucketKey(client), now), Limit(client), now)
  }

  function Obsolete(b: Buckets, now: nat): set<string> {
    set k | k in b && IsObsolete(b[k], now)
  }

  class RateLimiter {
    var buckets: Buckets

    constructor ()
      ensures buckets == map[]
    {
      buckets := map[];
    }

    /** Count a request. It is allowed exactly when the client has no live window, which it
        then opens, or its window has counted fewer requests than the limit; a refusal names
        the seconds until that window ends. `None` is a Worker error: a time that does not
        fit a signed 32-bit integer. */
    method Check(client: Client, now: nat) returns (decision: Option<Decision>)
      modifies this
      ensures decision == None <==> now > COUNT_MAX
      ensures decision.None? ==> buckets == old(buckets)
      ensures decision == Some(Allowed) <==>
        && now <= COUNT_MAX
        && var live := Live(old(buckets), BucketKey(client), now);
           live.None? || live.value.count < Limit(client)
      ensures decision.Some? && decision.value.Limited? ==>
        var live := Live(old(buckets), BucketKey(client), now);
        && live.Some? && decision.value.retryAfterSeconds >= 1
        && now + decision.value.retryAfterSeconds == live.value.startedAt + RATE_LIMIT_WINDOW_SECONDS
      ensures decision.Some? ==>
        && buckets.Keys == old(buckets).Keys + {BucketKey(client)}
        && (forall k | k in old(buckets) && k != BucketKey(client) :: buckets[k] == old(buckets)[k])
        && buckets[BucketKey(client)]
           == match Live(old(buckets), BucketKey(client), now)
              case None => Window(now, 1)
              case Some(live) => live.(count := if live.count < COUNT_MAX then live.count + 1 else COUNT_MAX)
      ensures decision.Some? ==>
        && decision.value == DecisionFor(old(buckets), client, now)
        && buckets == After(old(buckets), Request(client, now))
    {
      if now > COUNT_MAX { return None; }
      var key := BucketKey(client);
      var window := Upserted(buckets, key, now);
      buckets := buckets[key := window];
      if window.count <= Limit(client) { return Some(Allowed); }
      var retryAfter := window.startedAt + RATE_LIMIT_WINDOW_SECONDS - now;
      decision := Some(Limited(if retryAfter < 1 then 1 else retryAfter));
    }

    /** Drop at most a hundred obsolete buckets, oldest windows first. A time that does not
        fit is a Worker error, and drops nothing. */
    method Cleanup(now: nat) returns (removed: set<string>)
      modifies this
      ensures now > COUNT_MAX ==> removed == {}
      ensures removed <= Obsolete(old(buckets), now) && |removed| <= MAINTENANCE_BATCH_LIMIT
      ensures buckets == After(old(buckets), Maintenance(now, removed))
      ensures now <= COUNT_MAX && |removed| < MAINTENANCE_BATCH_LIMIT ==> Obsolete(buckets, now) == {}
      ensures forall r, k | r in removed && k in Obsolete(old(buckets), now) - removed ::
        old(buckets)[r].startedAt <= old(buckets)[k].startedAt
    {
      removed := {};
      if now > COUNT_MAX { return; }
      removed := OldestObsolete(buckets, now);
      buckets := buckets - removed;
    }
  }

  /** The rows that `ORDER BY window_started_at LIMIT 100` reaches. */
  method OldestObsolete(b: Buckets, now: nat) returns (oldest: set<string>)
    ensures oldest <= Obsolete(b, now) && |oldest| <= MAINTENANCE_BATCH_LIMIT
    ensures |oldest| < MAINTENANCE_BATCH_LIMIT ==> oldest == Obsolete(b, now)
    ensures forall r, k | r in oldest && k in Obsolete(b, now) - oldest :: b[r].startedAt <= b[k].startedAt
  {
    oldest := {};
    var left := Obsolete(b, now);
    while left != {} && |oldest| < MAINTENANCE_BATCH_LIMIT
      invariant left == Obsolete(b, now) - oldest && oldest <= Obsolete(b, now)
      invariant |oldest| <= MAINTENANCE_BATCH_LIMIT
      invariant forall r, k | r in oldest && k in left :: b[r].startedAt <= b[k].startedAt
      decreases left
    {
      SmallestExists(map k | k in b :: b[k].startedAt, left);
      var key :| key in left && forall k | k in left :: b[key].startedAt <= b[k].startedAt;
      oldest, left := oldest + {key}, left - {key};
    }
  }

  // ---- schedules ----------------------------------------------------------------

  datatype Event = Request(client: Client, at: nat) | Maintenance(at: nat, removed: set<string>)

  function After(b: Buckets, e: Event): Buckets {
    match e
    case Request(client, now) => b[BucketKey(client) := Upserted(b, BucketKey(client), now)]
    case Maintenance(_, removed) => b - removed
  }

  function AfterAll(b: Buckets, events: seq<Event>): Buckets
    decreases |events|
  {
    if events == [] then b else AfterAll(After(b, events[0]), events[1..])
  }

  /** A schedule under a nondecreasing clock that starts at `since`, in which
      maintenance removes only buckets that are obsolete when it runs. */
  ghost predicate IsSchedule(b: Buckets, since: nat, events: seq<Event>)
    decreases |events|
  {
    events == [] ||
    (&& since <= events[0].at
     && (events[0].Maintenance? ==> events[0].removed <= Obsolete(b, events[0].at))
     && IsSchedule(After(b, events[0]), events[0].at, events[1..]))
  }

  /** The decisions of a schedule, in order. */
  function Decisions(b: Buckets, events: seq<Event>): seq<Decision>
    decreases |events|
  {
    if events == [] then []
    else
      var rest := Decisions(After(b, events[0]), events[1..]);
      match events[0]
      case Request(client, now) => [DecisionFor(b, client, now)] + rest
      case Maintenance(_, _) => rest
  }

  function Requests(events: seq<Event>): seq<Event>
    decreases |events|
  {
    if events == [] then []
    else (if events[0].Request? then [events[0]] else []) + Requests(events[1..])
  }

  // ---- maintenance is invisible ------------------------------------------------------

  /** The row of a bucket while it still counts. */
  function Live(b: Buckets, key: string, now: nat): Option<Window> {
    if key in b && !IsObsolete(b[key], now) then Some(b[key]) else None
  }

  ghost predicate SameLive(a: Buckets, b: Buckets, now: nat) {
    forall key :: Live(a, key, now) == Live(b, key, now)
  }

  lemma {:induction false} SameLiveDecidesAlike(a: Buckets, b: Buckets, since: nat, events: seq<Event>)
    requires IsSchedule(a, since, events) && SameLive(a, b, since)
    ensures Decisions(a, events) == Decisions(b, Requests(events))
    decreases |events|
  {
    if events != [] {
      var e := events[0];
      assert SameLive(a, b, e.at) by {
        forall key ensures Live(a, key, e.at) == Live(b, key, e.at) {
          assert Live(a, key, since) == Live(b, key, since);
        }
      }
      match e
      case Maintenance(now, removed) =>
        assert SameLive(After(a, e), b, now) by {
          forall key ensures Live(a - removed, key, now) == Live(b, key, now) {
            assert Live(a, key, now) == Live(b, key, now);
          }
        }
        SameLiveDecidesAlike(After(a, e), b, now, events[1..]);
        assert Requests(events) == Requests(events[1..]);
      case Request(client, now) =>
        var key := BucketKey(client);
        assert Live(a, key, now) == Live(b, key, now);
        assert Upserted(a, key, now) == Upserted(b, key, now);
        assert SameLive(After(a, e), After(b, e), now) by {
          forall k ensures Live(After(a, e), k, now) == Live(After(b, e), k, now) {
            assert Live(a, k, now) == Live(b, k, now);
          }
        }
        SameLiveDecidesAlike(After(a, e), After(b, e), now, events[1..]);
        assert Requests(events) == [e] + Requests(events[1..]);
        assert ([e] + Requests(events[1..]))[1..] == Requests(events[1..]);
    }
  }

  /** Whatever maintenance runs in between, and whatever it removes, the requests are
      decided as if it had never run. */
  lemma MaintenanceIsInvisible(b: Buckets, since: nat, events: seq<Event>)
    requires IsSchedule(b, since, events)
    ensures Decisions(b, events) == Decisions(b, Requests(events))
  {
    SameLiveDecidesAlike(b, b, since, events);
  }

  // ---- the sliding bound --------------------------------------------------------------

  /** How many requests of a client in [from, to) a schedule allows. */
  function AllowedIn(b: Buckets, events: seq<Event>, client: Client, from: nat, to: nat): nat
    decreases |events|
  {
    if events == [] then 0
    else
      var e := events[0];
      (if e.Request? && e.client == client && from <= e.at < to
          && DecisionFor(b, client, e.at) == Allowed then 1 else 0)
      + AllowedIn(After(b, e), events[1..], client, from, to)
  }

  lemma KeysIdentifyClients(c: Client, d: Client)
    requires BucketKey(c) == BucketKey(d)
    ensures c == d
  {
    assert c.Creation? <==> BucketKey(c)[0] == 'c';
    assert d.Creation? <==> BucketKey(d)[0] == 'c';
    var prefix := if c.Creation? then 7 else 5;
    assert c.address == BucketKey(c)[prefix..] && d.address == BucketKey(d)[prefix..];
  }

  lemma {:induction false} NoneAllowedLater(
    b: Buckets, since: nat, events: seq<Event>, client: Client, from: nat, to: nat)
    requires IsSchedule(b, since, events) && to <= since
    ensures AllowedIn(b, events, client, from, to) == 0
    decreases |events|
  {
    if events != [] {
      NoneAllowedLater(After(b, events[0]), events[0].at, events[1..], client, from, to);
    }
  }

  function Remaining(b: Buckets, client: Client): nat {
    var key := BucketKey(client);
    if key in b && b[key].count <= Limit(client) then Limit(client) - b[key].count else 0
  }

  /** Until a live window ends, it allows no more than what it has left. */
  lemma {:induction false} WindowBound(
    b: Buckets, since: nat, events: seq<Event>, client: Client, from: nat, to: nat)
    requires IsSchedule(b, since, events)
    requires var key := BucketKey(client);
             key in b && to <= b[key].startedAt + RATE_LIMIT_WINDOW_SECONDS
    ensures AllowedIn(b, events, client, from, to) <= Remaining(b, client)
    decreases |events|
  {
    if events != [] {
      var e := events[0];
      if e.at >= to {
        NoneAllowedLater(After(b, e), e.at, events[1..], client, from, to);
      } else {
        if e.Request? && e.client != client && BucketKey(e.client) == BucketKey(client) {
          KeysIdentifyClients(e.client, client);
        }
        WindowBound(After(b, e), e.at, events[1..], client, from, to);
      }
    }
  }

  /** From the start of the interval on: what the open window has left, and one more
      window. */
  lemma {:induction false} IntervalBound(
    b: Buckets, since: nat, events: seq<Event>, client: Client, from: nat)
    requires IsSchedule(b, since, events) && from <= since
    ensures AllowedIn(b, events, client, from, from + RATE_LIMIT_WINDOW_SECONDS)
         <= Remaining(b, client) + Limit(client)
    decreases |events|
  {
    if events != [] {
      var e, to := events[0], from + RATE_LIMIT_WINDOW_SECONDS;
      var key := BucketKey(client);
      if e.at >= to {
        NoneAllowedLater(After(b, e), e.at, events[1..], client, from, to);
      } else if e.Request? && e.client == client && Live(b, key, e.at).None? {
        WindowBound(After(b, e), e.at, events[1..], client, from, to);
      } else {
        if e.Request? && e.client != client && BucketKey(e.client) == key {
          KeysIdentifyClients(e.client, client);
        }
        IntervalBound(After(b, e), e.at, events[1..], client, from);
      }
    }
  }

  /** Rows that the limiter itself wrote: each has counted at least one request. */
  ghost predicate Counted(b: Buckets) {
    forall key | key in b :: b[key].count >= 1
  }

  /** Over any schedule, any half-open interval of 60 seconds contains fewer than
      twice the limit of allowed requests of one client: of two windows that reach
      into it, the first was opened by a request before it. */
  lemma {:induction false} SlidingWindowBound(
    b: Buckets, since: nat, events: seq<Event>, client: Client, from: nat)
    requires IsSchedule(b, since, events) && Counted(b)
    ensures AllowedIn(b, events, client, from, from + RATE_LIMIT_WINDOW_SECONDS) <= 2 * Limit(client) - 1
    decreases |events|
  {
    if events != [] {
      var e := events[0];
      if e.at < from {
        SlidingWindowBound(After(b, e), e.at, events[1..], client, from);
      } else {
        assert IsSchedule(b, e.at, events);
        IntervalBound(b, e.at, events, client, from);
      }
    }
  }

  function Burst(client: Client, t: nat, n: nat): seq<Event> {
    if n == 0 then [] else [Request(client, t)] + Burst(client, t, n - 1)
  }

  lemma {:induction false} BurstIsAllowed(
    b: Buckets, since: nat, client: Client, t: nat, n: nat, rest: seq<Event>, from: nat, to: nat)
    requires since <= t && from <= t < to
    requires var key := BucketKey(client);
             key in b && !IsObsolete(b[key], t) && b[key].count + n <= Limit(client)
    requires var key := BucketKey(client);
             IsSchedule(b[key := b[key].(count := b[key].count + n)], t, rest)
    ensures var key := BucketKey(client);
      && IsSchedule(b, since, Burst(client, t, n) + rest)
      && AllowedIn(b, Burst(client, t, n) + rest, client, from, to)
         == n + AllowedIn(b[key := b[key].(count := b[key].count + n)], rest, client, from, to)
    decreases n
  {
    var key := BucketKey(client);
    var all := Burst(client, t, n) + rest;
    if n == 0 {
      assert all == rest;
      assert b[key := b[key]] == b;
    } else {
      var b' := After(b, Request(client, t));
      assert all[0] == Request(client, t) && all[1..] == Burst(client, t, n - 1) + rest;
      assert b'[key := b'[key].(count := b'[key].count + (n - 1))]
          == b[key := b[key].(count := b[key].count + n)];
      BurstIsAllowed(b', t, client, t, n - 1, rest, from, to);
    }
  }

  /** The bound is tight: a window filled in its last second, and the next one. */
  lemma SlidingWindowBoundIsTight(client: Client)
    ensures exists events ::
      && IsSchedule(map[], 0, events)
      && AllowedIn(map[], events, client, 59, 119) == 2 * Limit(client) - 1
  {
    var key, limit := BucketKey(client), Limit(client);
    var full: Buckets := map[key := Window(0, limit)];
    var last := Burst(client, 60, limit - 1);
    var reopened := After(full, Request(client, 60));
    BurstIsAllowed(reopened, 60, client, 60, limit - 1, [], 59, 119);
    assert last + [] == last;
    var next := [Request(client, 60)] + last;
    assert next[1..] == last;
    var first: Buckets := After(map[], Request(client, 0));
    assert first[key := Window(0, limit)] == full;
    BurstIsAllowed(first, 0, client, 59, limit - 1, next, 59, 119);
    var events := [Request(client, 0)] + (Burst(client, 59, limit - 1) + next);
    assert events[1..] == Burst(client, 59, limit - 1) + next;
    assert IsSchedule(map[], 0, events);
  }

  // ---- retry-after ------------------------------------------------------------------------

  /** The client's counter is full in a window that ends at `until`. */
  ghost predicate FullUntil(b: Buckets, client: Client, until: nat) {
    var key := BucketKey(client);
    && key in b
    && b[key].count > Limit(client)
    && b[key].startedAt + RATE_LIMIT_WINDOW_SECONDS == until
  }

  /** Nothing at or after `until` has asked for this client yet. */
  ghost predicate AsksOnlyBefore(events: seq<Event>, client: Client, until: nat) {
    forall e | e in events && e.Request? && e.client == client :: e.at < until
  }

  lemma {:induction false} StaysFull(
    b: Buckets, since: nat, events: seq<Event>, client: Client, until: nat, t: nat)
    requires IsSchedule(b, since, events + [Request(client, t)])
    requires AsksOnlyBefore(events, client, until)
    requires FullUntil(b, client, until)
          || (until <= since && Live(b, BucketKey(client), since).None?)
    ensures var after := AfterAll(b, events);
      DecisionFor(after, client, t)
        == if t < until then Limited(until - t) else Allowed
    decreases |events|
  {
    var all := events + [Request(client, t)];
    if events == [] {
      assert all[0] == Request(client, t);
    } else {
      var e := events[0];
      assert all[0] == e && all[1..] == events[1..] + [Request(client, t)];
      assert e in events;
      if e.Request? && e.client != client && BucketKey(e.client) == BucketKey(client) {
        KeysIdentifyClients(e.client, client);
      }
      assert forall x | x in events[1..] :: x in events;
      StaysFull(After(b, e), e.at, events[1..], client, until, t);
    }
  }

  /** The retry delay is exact. After a refusal at `now` with delay `d`, whatever else
      happens, a request before `now + d` is refused with the delay that is left, and
      the first one at or after `now + d` is allowed. */
  lemma RetryAfterIsExact(
    b: Buckets, client: Client, now: nat, d: nat, events: seq<Event>, t: nat)
    requires DecisionFor(b, client, now) == Limited(d)
    requires var b' := After(b, Request(client, now));
             IsSchedule(b', now, events + [Request(client, t)])
    requires AsksOnlyBefore(events, client, now + d)
    ensures var after := AfterAll(After(b, Request(client, now)), events);
      DecisionFor(after, client, t)
        == if t < now + d then Limited(now + d - t) else Allowed
  {
    StaysFull(After(b, Request(client, now)), now, events, client, now + d, t);
  }
}
