/** The bounded reading history: a zipper whose oldest entries are dropped. */
module ReaderHistories {
  import opened Options

  datatype History<T> = History(entries: seq<T>, index: nat)

  predicate IsHistory<T>(h: History<T>) {
    if h.entries == [] then h.index == 0 else h.index < |h.entries|
  }

  function AtLeastOne(limit: nat): nat {
    if limit < 1 then 1 else limit
  }

  /** Forget what lies ahead, append an entry, and drop the oldest past the limit. The
      index is moved back by the number dropped, not to the new entry. */
  function AfterPush<T>(h: History<T>, entry: T, limit: nat): (pushed: History<T>)
    requires IsHistory(h)
  {
    var kept := if h.entries == [] then [] else h.entries[..h.index + 1];
    var entries := kept + [entry];
    var bound := AtLeastOne(limit);
    if |entries| > bound then
      var dropped := |entries| - bound;
      History(entries[dropped..], if h.index < dropped then 0 else h.index - dropped)
    else History(entries, |entries| - 1)
  }

  /** Write the current position over the current entry. */
  function Noted<T>(h: History<T>, entry: T): History<T> {
    if h.index < |h.entries| then h.(entries := h.entries[h.index := entry]) else h
  }

  function BackTarget<T>(h: History<T>): Option<nat> {
    if h.index > 0 then Some(h.index - 1) else None
  }

  function ForwardTarget<T>(h: History<T>): Option<nat> {
    if h.index + 1 < |h.entries| then Some(h.index + 1) else None
  }

  /** The entry that one move back or forward leads to. */
  function Step<T>(back: bool, h: History<T>): (target: Option<nat>)
    requires IsHistory(h)
    ensures target.Some? ==> target.value < |h.entries| && target.value != h.index
  {
    if back then BackTarget(h) else ForwardTarget(h)
  }

  // ---- one push --------------------------------------------------------------------------

  predicate Overflows<T>(h: History<T>, limit: nat) {
    h.entries != [] && h.index + 2 > AtLeastOne(limit)
  }

  /** A push keeps the bound; the new entry is always the last one, and it is the current
      one exactly when nothing was dropped or the limit leaves room for one entry only. */
  lemma PushedEntryIsCurrentIff<T>(h: History<T>, entry: T, limit: nat)
    requires IsHistory(h) && |h.entries| <= AtLeastOne(limit)
    ensures var p := AfterPush(h, entry, limit);
      && p.index < |p.entries| <= AtLeastOne(limit)
      && p.entries[|p.entries| - 1] == entry
      && (p.index == |p.entries| - 1 <==> !Overflows(h, limit) || limit <= 1)
      && (p.index != |p.entries| - 1 ==> p.index == |p.entries| - 2)
  {
  }

  /** What is dropped are the oldest entries: a push keeps the newest part of the unbounded
      history, as many entries as the limit allows. */
  lemma PushKeepsTheNewest<T>(h: History<T>, entry: T, limit: nat)
    requires IsHistory(h) && |h.entries| <= AtLeastOne(limit)
    ensures var all := (if h.entries == [] then [] else h.entries[..h.index + 1]) + [entry];
      var p := AfterPush(h, entry, limit);
      && p.entries == all[|all| - |p.entries|..]
      && |p.entries| == if |all| <= AtLeastOne(limit) then |all| else AtLeastOne(limit)
  {
  }

  /** The newest part of an unbounded history, seen through a window of the limit. */
  function Window<T>(h: History<T>, limit: nat): History<T> {
    var bound := AtLeastOne(limit);
    if |h.entries| <= bound then h
    else
      var hidden := |h.entries| - bound;
      History(h.entries[hidden..], if h.index < hidden then 0 else h.index - hidden)
  }

  /** A push shows the newest part of the unbounded history exactly when it does not
      overflow, or when the limit leaves room for one entry only. With the index on the
      last entry it always would. */
  lemma PushIsAWindowIff<T>(h: History<T>, entry: T, limit: nat)
    requires IsHistory(h) && |h.entries| <= AtLeastOne(limit)
    ensures var p, window := AfterPush(h, entry, limit), Window(Zipped(h, Push(entry)), limit);
      && (p == window <==> !Overflows(h, limit) || limit <= 1)
      && p.(index := |p.entries| - 1) == window
  {
  }

  /** At every limit of two or more, a push that overflows leaves the place where the link
      was followed as the current entry. Going back first writes the new position over it
      and then skips it: that place is in no entry any more. With two entries there is no
      way back at all. */
  lemma OverflowLosesTheOrigin<T>(h: History<T>, entry: T, now: T, limit: nat)
    requires IsHistory(h) && |h.entries| <= limit && limit >= 2 && Overflows(h, limit)
    ensures |h.entries| == limit && h.index == limit - 1
    ensures var p := AfterPush(h, entry, limit);
      && p == History(h.entries[1..] + [entry], limit - 2)
      && p.entries[p.index] == h.entries[h.index]
      && Noted(p, now) == History(h.entries[1..limit - 1] + [now, entry], limit - 2)
      && BackTarget(Noted(p, now)) == (if limit == 2 then None else Some(limit - 3))
      && (limit > 2 ==> Noted(p, now).entries[limit - 3] == h.entries[limit - 2])
  {
    assert (h.entries[..h.index + 1] + [entry])[1..] == h.entries[1..] + [entry];
    assert (h.entries[1..] + [entry])[limit - 2 := now] == h.entries[1..limit - 1] + [now, entry];
  }

  // ---- runs ---------------------------------------------------------------------------------

  datatype Move<T> = Push(entry: T) | Note(entry: T) | GoBack | GoForward

  function Moved<T>(h: History<T>, move: Move<T>, limit: nat): (moved: History<T>)
    requires IsHistory(h)
    ensures IsHistory(moved)
    ensures h.entries != [] ==> moved.entries != []
    ensures |h.entries| <= AtLeastOne(limit) ==> |moved.entries| <= AtLeastOne(limit)
  {
    match move
    case Push(entry) => AfterPush(h, entry, limit)
    case Note(entry) => Noted(h, entry)
    case GoBack => h.(index := BackTarget(h).GetOr(h.index))
    case GoForward => h.(index := ForwardTarget(h).GetOr(h.index))
  }

  /** The same move without a limit. */
  function Zipped<T>(h: History<T>, move: Move<T>): (moved: History<T>)
    requires IsHistory(h)
    ensures IsHistory(moved)
  {
    match move
    case Push(entry) =>
      var kept := if h.entries == [] then [] else h.entries[..h.index + 1];
      History(kept + [entry], |kept|)
    case Note(entry) => Noted(h, entry)
    case GoBack => h.(index := BackTarget(h).GetOr(h.index))
    case GoForward => h.(index := ForwardTarget(h).GetOr(h.index))
  }

  function Run<T>(h: History<T>, moves: seq<Move<T>>, limit: nat): (after: History<T>)
    requires IsHistory(h)
    ensures IsHistory(after)
    decreases |moves|
  {
    if moves == [] then h else Run(Moved(h, moves[0], limit), moves[1..], limit)
  }

  function ZipperRun<T>(h: History<T>, moves: seq<Move<T>>): (after: History<T>)
    requires IsHistory(h)
    ensures IsHistory(after)
    decreases |moves|
  {
    if moves == [] then h else ZipperRun(Zipped(h, moves[0]), moves[1..])
  }

  /** Every run keeps the current index inside the history and the history inside its
      limit. */
  lemma {:induction false} RunsStayBounded<T>(h: History<T>, moves: seq<Move<T>>, limit: nat)
    requires IsHistory(h) && 0 < |h.entries| <= AtLeastOne(limit)
    ensures var after := Run(h, moves, limit);
      after.index < |after.entries| <= AtLeastOne(limit)
    decreases |moves|
  {
    if moves != [] {
      RunsStayBounded(Moved(h, moves[0], limit), moves[1..], limit);
    }
  }

  /** No push of a run takes the unbounded history past the limit. */
  ghost predicate StaysBelow<T>(h: History<T>, moves: seq<Move<T>>, limit: nat)
    requires IsHistory(h)
    decreases |moves|
  {
    && |h.entries| <= AtLeastOne(limit)
    && (moves != [] ==> StaysBelow(Zipped(h, moves[0]), moves[1..], limit))
  }

  /** Below its limit the history is an unbounded zipper. */
  lemma {:induction false} BelowTheLimitIsAZipper<T>(h: History<T>, moves: seq<Move<T>>, limit: nat)
    requires IsHistory(h) && StaysBelow(h, moves, limit)
    ensures Run(h, moves, limit) == ZipperRun(h, moves)
    decreases |moves|
  {
    if moves != [] {
      assert Moved(h, moves[0], limit) == Zipped(h, moves[0]);
      BelowTheLimitIsAZipper(Zipped(h, moves[0]), moves[1..], limit);
    }
  }

  // ---- runs with the index on the pushed entry ------------------------------------------------

  /** A move of the history that would result if a push always made its entry current. */
  function MovedOn<T>(h: History<T>, move: Move<T>, limit: nat): (moved: History<T>)
    requires IsHistory(h)
    ensures IsHistory(moved)
  {
    var m := Moved(h, move, limit);
    if move.Push? then m.(index := |m.entries| - 1) else m
  }

  function RunOn<T>(h: History<T>, moves: seq<Move<T>>, limit: nat): (after: History<T>)
    requires IsHistory(h)
    ensures IsHistory(after)
    decreases |moves|
  {
    if moves == [] then h else RunOn(MovedOn(h, moves[0], limit), moves[1..], limit)
  }

  /** The run never asks to go back from the oldest entry that is kept. */
  ghost predicate StaysInside<T>(h: History<T>, moves: seq<Move<T>>, limit: nat)
    requires IsHistory(h)
    decreases |moves|
  {
    moves == [] || ((moves[0].GoBack? ==> h.index > 0) && StaysInside(MovedOn(h, moves[0], limit), moves[1..], limit))
  }

  /** The unbounded history with its oldest entries hidden. */
  ghost predicate Hides<T>(z: History<T>, h: History<T>, hidden: nat) {
    hidden <= |z.entries| && h.entries == z.entries[hidden..] && z.index == h.index + hidden
  }

  lemma MovesAlike<T>(z: History<T>, h: History<T>, hidden: nat, move: Move<T>, limit: nat) returns (hides: nat)
    requires IsHistory(z) && IsHistory(h) && h.entries != [] && Hides(z, h, hidden)
    requires move.GoBack? ==> h.index > 0
    ensures MovedOn(h, move, limit).entries != []
    ensures Hides(Zipped(z, move), MovedOn(h, move, limit), hides)
  {
    var z', h' := Zipped(z, move), MovedOn(h, move, limit);
    hides := |z'.entries| - |h'.entries|;
    if move.Push? {
      assert z.entries[..z.index + 1][hidden..] == h.entries[..h.index + 1];
      assert (z.entries[..z.index + 1] + [move.entry])[hidden..] == h.entries[..h.index + 1] + [move.entry];
    }
  }

  /** Over every run inside the window, the history with the index on the pushed entry is
      the unbounded zipper with its oldest entries hidden: a sliding window. */
  lemma {:induction false} SlidingWindowIsAZipper<T>(
    z: History<T>, h: History<T>, hidden: nat, moves: seq<Move<T>>, limit: nat) returns (hides: nat)
    requires IsHistory(z) && IsHistory(h) && h.entries != [] && Hides(z, h, hidden)
    requires StaysInside(h, moves, limit)
    ensures Hides(ZipperRun(z, moves), RunOn(h, moves, limit), hides)
    decreases |moves|
  {
    hides := hidden;
    if moves != [] {
      var n := MovesAlike(z, h, hidden, moves[0], limit);
      hides := SlidingWindowIsAZipper(Zipped(z, moves[0]), MovedOn(h, moves[0], limit), n, moves[1..], limit);
    }
  }
}
