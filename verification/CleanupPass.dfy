/** One cleanup pass as a function of the store it starts from, and the progress
    that a pass makes when nothing runs beside it. */
module CleanupPass {
  import opened Options
  import opened Counting
  import opened InboxStore
  import opened InboxProtocol
  import opened InboxInvariant

  /** The store-level half of the protocol invariant. */
  ghost predicate Healthy(s: Store) {
    KeysAreUnique(s) && RowsMatchLifecycle(s) && CurrentIsServed(s)
  }

  function ExpiredIds(s: Store, now: nat): set<Id> {
    set i | i in s.lifecycle && s.lifecycle[i].cleanupAfter <= now
  }

  /** The rows a pass is for: expired, and not those of the current bundle. */
  function IdleIds(s: Store, now: nat): set<Id> {
    set i | i in s.lifecycle && s.lifecycle[i].cleanupAfter <= now && !IsCurrentLifecycle(s, i)
  }

  function Min(a: nat, b: nat): nat {
    if a <= b then a else b
  }

  function Ids(rows: seq<Candidate>): set<Id> {
    set k | k in rows :: k.id
  }

  ghost predicate Distinct(rows: seq<Candidate>) {
    forall i, j | 0 <= i < j < |rows| :: rows[i].id != rows[j].id
  }

  ghost predicate AreRowsOf(s: Store, rows: seq<Candidate>) {
    forall k | k in rows :: k.id in s.lifecycle && s.lifecycle[k.id].objectKey == k.key
  }

  ghost predicate IsOrdered(s: Store, rows: seq<Candidate>) {
    forall i, j | 0 <= i < j < |rows| && rows[i].id in s.lifecycle && rows[j].id in s.lifecycle ::
      s.lifecycle[rows[i].id].cleanupAfter <= s.lifecycle[rows[j].id].cleanupAfter
  }

  /** `ORDER BY cleanup_after LIMIT 100` over the expired rows; how equal deadlines
      are ordered is left open. */
  ghost predicate SelectsExpired(s: Store, now: nat, rows: seq<Candidate>) {
    && |rows| == Min(CLEANUP_BATCH_SIZE, |ExpiredIds(s, now)|)
    && Distinct(rows)
    && AreRowsOf(s, rows)
    && Ids(rows) <= ExpiredIds(s, now)
    && IsOrdered(s, rows)
    && forall k, i | k in rows && i in ExpiredIds(s, now) - Ids(rows) ::
         s.lifecycle[k.id].cleanupAfter <= s.lifecycle[i].cleanupAfter
  }

  /** Claim, delete the object, finish. A failing bucket delete leaves the claim. */
  function CleanOne(s: Store, k: Candidate, now: nat, failing: set<Key>): Store {
    if !Claimable(s, k.id, now) then s
    else if k.key in failing then ClaimLifecycle(s, k.id, now)
    else FinishLifecycleCleanup(DeleteObject(ClaimLifecycle(s, k.id, now), k.key), k.id)
  }

  function CleanAll(s: Store, rows: seq<Candidate>, now: nat, failing: set<Key>): Store {
    if rows == [] then s
    else CleanOne(CleanAll(s, rows[..|rows| - 1], now, failing), rows[|rows| - 1], now, failing)
  }

  /** The selected rows that a pass removes. */
  function Removed(s: Store, rows: seq<Candidate>, failing: set<Key>): set<Id> {
    set k | k in rows && !IsCurrentLifecycle(s, k.id) && k.key !in failing :: k.id
  }

  /** The pass removes exactly the given rows, their bundles and their objects;
      a remaining row keeps its key and its deadline, and the inbox is untouched. */
  ghost predicate RemovesExactly(s: Store, p: Store, ids: set<Id>) {
    && p.inbox == s.inbox
    && p.lifecycle.Keys == s.lifecycle.Keys - ids
    && (forall i | i in p.lifecycle ::
          && p.lifecycle[i].objectKey == s.lifecycle[i].objectKey
          && p.lifecycle[i].cleanupAfter == s.lifecycle[i].cleanupAfter)
    && p.bundles == s.bundles - ids
    && p.objects == s.objects - KeysOf(s, ids)
  }

  function KeysOf(s: Store, ids: set<Id>): set<Key> {
    set i | i in ids && i in s.lifecycle :: s.lifecycle[i].objectKey
  }

  function Without(s: Store, id: Id, key: Key): Store {
    s.(bundles := s.bundles - {id}, lifecycle := s.lifecycle - {id}, objects := s.objects - {key})
  }

  lemma CleanedRowIsGone(s: Store, k: Candidate, now: nat, failing: set<Key>)
    requires RowsMatchLifecycle(s) && Claimable(s, k.id, now) && k.key !in failing
    requires CurrentIsServed(s)
    ensures CleanOne(s, k, now, failing) == Without(s, k.id, k.key)
  {
    var claimed := DeleteObject(ClaimLifecycle(s, k.id, now), k.key);
    var bundles := BundlesAfterCleanup(claimed, k.id);
    forall b | b in s.bundles ensures b in bundles <==> b != k.id {
      assert s.bundles[b].lifecycleId == b;
    }
    assert bundles == s.bundles - {k.id};
    assert forall b | b in bundles :: bundles[b].lifecycleId == b;
    assert claimed.lifecycle - {k.id} == s.lifecycle - {k.id};
  }

  lemma CurrentKeyDiffers(s: Store, id: Id, key: Key)
    requires Healthy(s) && id in s.lifecycle && s.lifecycle[id].objectKey == key
    requires !IsCurrentLifecycle(s, id) && s.inbox.current.Some?
    ensures s.inbox.current.value != id && s.bundles[s.inbox.current.value].objectKey != key
  {
    var current := s.inbox.current.value;
    assert s.bundles[current].lifecycleId == current;
    assert s.lifecycle[current].objectKey == s.bundles[current].objectKey;
  }

  lemma WithoutIsHealthy(s: Store, k: Candidate)
    requires Healthy(s) && k.id in s.lifecycle && s.lifecycle[k.id].objectKey == k.key
    requires !IsCurrentLifecycle(s, k.id)
    ensures RemovesExactly(s, Without(s, k.id, k.key), {k.id}) && Healthy(Without(s, k.id, k.key))
  {
    if s.inbox.current.Some? { CurrentKeyDiffers(s, k.id, k.key); }
    assert KeysOf(s, {k.id}) == {k.key};
  }

  lemma CleanOneEffect(s: Store, k: Candidate, now: nat, failing: set<Key>)
    requires Healthy(s) && Expired(s, k.id, now) && s.lifecycle[k.id].objectKey == k.key
    ensures var ids := if IsCurrentLifecycle(s, k.id) || k.key in failing then {} else {k.id};
      RemovesExactly(s, CleanOne(s, k, now, failing), ids) && Healthy(CleanOne(s, k, now, failing))
  {
    if Claimable(s, k.id, now) && k.key !in failing {
      CleanedRowIsGone(s, k, now, failing);
      WithoutIsHealthy(s, k);
    } else {
      assert KeysOf(s, {}) == {};
      assert s.objects - {} == s.objects && s.bundles - {} == s.bundles;
    }
  }

  lemma {:induction false} CleanAllEffect(s: Store, rows: seq<Candidate>, now: nat, failing: set<Key>)
    requires Healthy(s) && AreRowsOf(s, rows) && Distinct(rows) && Ids(rows) <= ExpiredIds(s, now)
    ensures Healthy(CleanAll(s, rows, now, failing))
    ensures RemovesExactly(s, CleanAll(s, rows, now, failing), Removed(s, rows, failing))
  {
    if rows != [] {
      var n := |rows| - 1;
      var init, k := rows[..n], rows[n];
      assert k in rows && k.id in Ids(rows);
      CleanAllEffect(s, init, now, failing) by {
        assert forall j | j in init :: j in rows && j.id in Ids(rows);
      }
      var mid := CleanAll(s, init, now, failing);
      assert k.id !in Removed(s, init, failing);
      assert IsCurrentLifecycle(mid, k.id) == IsCurrentLifecycle(s, k.id) by {
        CurrentIsUntouched(s, mid, Removed(s, init, failing));
      }
      CleanOneEffect(mid, k, now, failing);
      var last := if IsCurrentLifecycle(s, k.id) || k.key in failing then {} else {k.id};
      assert Removed(s, rows, failing) == Removed(s, init, failing) + last by {
        assert forall j :: j in rows <==> j in init || j == k;
      }
      RemovalsCompose(s, mid, CleanOne(mid, k, now, failing), Removed(s, init, failing), last);
    }
  }

  lemma CurrentIsUntouched(s: Store, p: Store, ids: set<Id>)
    requires Healthy(s) && RemovesExactly(s, p, ids) && Healthy(p)
    ensures Shown(p) == Shown(s)
  {}

  lemma RemovalsCompose(s: Store, mid: Store, p: Store, first: set<Id>, last: set<Id>)
    requires RemovesExactly(s, mid, first) && RemovesExactly(mid, p, last) && last <= mid.lifecycle.Keys
    ensures RemovesExactly(s, p, first + last)
  {
    assert s.bundles - first - last == s.bundles - (first + last);
    assert KeysOf(s, first + last) == KeysOf(s, first) + KeysOf(mid, last) by {
      assert forall i | i in last :: mid.lifecycle[i].objectKey == s.lifecycle[i].objectKey;
    }
    assert s.objects - KeysOf(s, first) - KeysOf(mid, last) == s.objects - KeysOf(s, first + last);
  }

  // ---- progress -------------------------------------------------------------------

  lemma {:induction false} DistinctIdsCount(rows: seq<Candidate>)
    requires Distinct(rows)
    ensures |Ids(rows)| == |rows|
  {
    if rows != [] {
      var n := |rows| - 1;
      DistinctIdsCount(rows[..n]);
      assert Ids(rows) == Ids(rows[..n]) + {rows[n].id} by {
        assert forall k :: k in rows <==> k in rows[..n] || k == rows[n];
      }
      assert rows[n].id !in Ids(rows[..n]);
    }
  }

  lemma CurrentRowIsUnique(s: Store, i: Id, j: Id)
    requires IsCurrentLifecycle(s, i) && IsCurrentLifecycle(s, j)
    ensures i == j
  {}

  /** With n expired rows besides the current one, a pass in which no bucket delete
      fails removes at least min(n, 99) of them and never the current one: the
      current row can take at most one of the hundred slots. */
  lemma PassRemovesAtLeast(s: Store, rows: seq<Candidate>, now: nat)
    requires Healthy(s) && SelectsExpired(s, now, rows)
    ensures Removed(s, rows, {}) <= IdleIds(s, now)
    ensures |Removed(s, rows, {})| >= Min(|IdleIds(s, now)|, CLEANUP_BATCH_SIZE - 1)
  {
    var removed, idle, expired := Removed(s, rows, {}), IdleIds(s, now), ExpiredIds(s, now);
    DistinctIdsCount(rows);
    assert forall k | k in rows :: k.id in Ids(rows);
    if i :| i in expired && IsCurrentLifecycle(s, i) {
      forall j | j in expired && j != i ensures j in idle {
        if IsCurrentLifecycle(s, j) { CurrentRowIsUnique(s, i, j); }
      }
      assert expired == idle + {i};
      assert Ids(rows) <= removed + {i};
      SubsetCount(Ids(rows), removed + {i});
    } else {
      assert expired == idle;
      assert Ids(rows) == removed;
    }
  }

  /** A pass as its caller sees it. */
  ghost predicate IsPass(s: Store, p: Store, now: nat) {
    exists rows :: SelectsExpired(s, now, rows) && p == CleanAll(s, rows, now, {})
  }

  lemma IdleAfterRemoval(s: Store, p: Store, ids: set<Id>, now: nat)
    requires RemovesExactly(s, p, ids) && Shown(p) == Shown(s)
    ensures IdleIds(p, now) == IdleIds(s, now) - ids
  {}

  lemma PassShrinksIdle(s: Store, p: Store, now: nat)
    requires Healthy(s) && IsPass(s, p, now)
    ensures Healthy(p) && p.inbox == s.inbox && Shown(p) == Shown(s)
    ensures |IdleIds(p, now)| <= if |IdleIds(s, now)| <= 99 then 0 else |IdleIds(s, now)| - 99
  {
    var rows :| SelectsExpired(s, now, rows) && p == CleanAll(s, rows, now, {});
    PassEffect(s, rows, now);
    PassRemovesAtLeast(s, rows, now);
    DifferenceCount(IdleIds(s, now), Removed(s, rows, {}));
  }

  lemma PassEffect(s: Store, rows: seq<Candidate>, now: nat)
    requires Healthy(s) && SelectsExpired(s, now, rows)
    ensures var p := CleanAll(s, rows, now, {});
      && Healthy(p) && p.inbox == s.inbox && Shown(p) == Shown(s)
      && IdleIds(p, now) == IdleIds(s, now) - Removed(s, rows, {})
  {
    CleanAllEffect(s, rows, now, {});
    var p := CleanAll(s, rows, now, {});
    CurrentIsUntouched(s, p, Removed(s, rows, {}));
    IdleAfterRemoval(s, p, Removed(s, rows, {}), now);
  }

  ghost predicate ArePasses(stores: seq<Store>, now: nat) {
    && stores != []
    && Healthy(stores[0])
    && forall i :: 0 <= i < |stores| - 1 ==> IsPass(stores[i], stores[i + 1], now)
  }

  lemma {:induction false} PassesShrinkIdle(stores: seq<Store>, now: nat, i: nat)
    requires ArePasses(stores, now) && i < |stores|
    ensures Healthy(stores[i])
    ensures |IdleIds(stores[i], now)| <= 0
         || |IdleIds(stores[i], now)| <= |IdleIds(stores[0], now)| - 99 * i
  {
    if i > 0 {
      PassesShrinkIdle(stores, now, i - 1);
      assert IsPass(stores[i - 1], stores[i - 1 + 1], now);
      PassShrinksIdle(stores[i - 1], stores[i], now);
    }
  }

  /** Rounded-up n / 99 undisturbed passes leave no expired row but the current one. */
  lemma EnoughPassesLeaveNoneIdle(stores: seq<Store>, now: nat, i: nat)
    requires ArePasses(stores, now) && i < |stores|
    requires i >= (|IdleIds(stores[0], now)| + 98) / 99
    ensures IdleIds(stores[i], now) == {}
  {
    PassesShrinkIdle(stores, now, i);
    assert 99 * i >= |IdleIds(stores[0], now)|;
  }
}
