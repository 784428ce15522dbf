/**
 * Properties of the write-lock protocol that the socket handlers run:
 * sequences of requests, releases and the passing of time on one store,
 * the invariants they keep, and the fairness of the waiting queue.
 *
 * Every handler is one atomic step here; a request or release whose
 * username is missing or "" changes nothing.
 */
module LockProperties {
  import opened Wrappers
  import opened RedisStore
  import opened RedisClient
  import opened Spreadsheet

  /** What can happen to the store between two observations. */
  datatype Event =
    | RequestEvent(username: Option<string>)   // a `request_write_access` message
    | ReleaseEvent(username: Option<string>)   // a `release_write_access` message
    | TimePasses(seconds: nat)                 // the lease runs down

  function Apply(s: State, e: Event): State {
    match e
    case RequestEvent(u) => if Truthy(u) then Acquire(s, u.value, RequestTtl).state else s
    case ReleaseEvent(u) => if Truthy(u) then ReleaseAndPromote(s, u.value).state else s
    case TimePasses(d) => Elapse(s, d)
  }

  function Run(s: State, evs: seq<Event>): State
    decreases |evs|
  {
    if evs == [] then s else Run(Apply(s, evs[0]), evs[1..])
  }

  /** No time passes during the events. */
  predicate Untimed(evs: seq<Event>) {
    forall i :: 0 <= i < |evs| ==> !evs[i].TimePasses?
  }

  /** The events hold no release by `u`. */
  predicate NoReleaseBy(evs: seq<Event>, u: string) {
    forall i :: 0 <= i < |evs| ==> evs[i] != ReleaseEvent(Some(u))
  }

  /** What the handlers keep true whatever happens, time included. */
  predicate WellFormed(s: State) {
    Consistent(s) && NoDuplicates(s.queue) && "" !in s.queue &&
    (s.holder.Some? ==> s.holder.value != "")
  }

  /**
   * What the handlers keep true while no lease runs out: waiters exist only
   * behind a holder, and the holder is not among them.
   */
  predicate Fair(s: State) {
    WellFormed(s) &&
    (s.holder.None? ==> s.queue == []) &&
    (s.holder.Some? ==> s.holder.value !in s.queue)
  }

  /** One event keeps the store well formed. */
  lemma WellFormedStep(s: State, e: Event)
    requires WellFormed(s)
    ensures WellFormed(Apply(s, e))
  {
  }

  /** Every sequence of events keeps the store well formed. */
  lemma {:induction false} WellFormedRun(s: State, evs: seq<Event>)
    requires WellFormed(s)
    ensures WellFormed(Run(s, evs))
    decreases |evs|
  {
    if evs != [] {
      WellFormedStep(s, evs[0]);
      WellFormedRun(Apply(s, evs[0]), evs[1..]);
    }
  }

  /** One request or release keeps the lock fair. */
  lemma FairStep(s: State, e: Event)
    requires Fair(s) && !e.TimePasses?
    ensures Fair(Apply(s, e))
  {
  }

  /** While no lease runs out, a free lock has no waiters and the holder never waits. */
  lemma {:induction false} FairRun(s: State, evs: seq<Event>)
    requires Fair(s) && Untimed(evs)
    ensures Fair(Run(s, evs))
    decreases |evs|
  {
    if evs != [] {
      FairStep(s, evs[0]);
      assert Untimed(evs[1..]) by {
        forall i | 0 <= i < |evs[1..]| ensures !evs[1..][i].TimePasses? {
          assert evs[1..][i] == evs[i + 1];
        }
      }
      FairRun(Apply(s, evs[0]), evs[1..]);
    }
  }

  /** From a fair state a request is granted only when nobody is waiting. */
  lemma GrantOnlyWithEmptyQueue(s: State, u: string)
    requires Fair(s)
    requires Acquire(s, u, RequestTtl).reply == Granted
    ensures s.queue == []
  {
  }

  /** Once a user with a non-empty name holds the lock, another user's request is refused. */
  lemma GrantExcludesOthers(s: State, u: string, v: string, l1: Seconds, l2: Seconds)
    requires u != "" && u != v
    requires Acquire(s, u, l1).ok
    ensures !Acquire(Acquire(s, u, l1).state, v, l2).ok
    ensures Acquire(Acquire(s, u, l1).state, v, l2).state.holder == Some(u)
  {
  }

  /** Asking twice is asking once: same store, same outcome, same reported number. */
  lemma RequestIdempotent(s: State, u: string, lease: Seconds)
    ensures Acquire(Acquire(s, u, lease).state, u, lease).state == Acquire(s, u, lease).state
    ensures Acquire(Acquire(s, u, lease).state, u, lease).ok == Acquire(s, u, lease).ok
    ensures !Acquire(s, u, lease).ok ==>
      Acquire(Acquire(s, u, lease).state, u, lease).reply == Acquire(s, u, lease).reply
  {
  }

  /** A newly queued user is told the same number the broadcast will send it. */
  lemma NewWaiterReportedPosition(s: State, u: string, lease: Seconds)
    requires u !in s.queue && !Acquire(s, u, lease).ok
    ensures var t := Acquire(s, u, lease).state;
      Position(t.holder, t.queue, u) == Some(Acquire(s, u, lease).reply.position)
  {
  }

  /**
   * A user asking again while already queued is told the length of the
   * queue, not its own place in it.
   */
  lemma RequeuedWaiterReportedPosition()
    ensures var s := State(Some("h"), 60, ["a", "b"]);
      var r := Acquire(s, "a", RequestTtl);
      r.reply == HeldByOther(2) && Position(r.state.holder, r.state.queue, "a") == Some(1)
  {
  }

  /**
   * No waiter loses ground: through any event except the passing of time
   * and its own release, a user with a position keeps one, and it is no
   * larger (the holder stays the holder).
   */
  lemma PositionNeverWorsensStep(s: State, e: Event, u: string)
    requires WellFormed(s)
    requires Position(s.holder, s.queue, u).Some?
    requires !e.TimePasses? && e != ReleaseEvent(Some(u))
    ensures Position(Apply(s, e).holder, Apply(s, e).queue, u).Some?
    ensures Position(Apply(s, e).holder, Apply(s, e).queue, u).value <= Position(s.holder, s.queue, u).value
  {
  }

  /** Over any run without expiry and without its own release, a user never loses ground. */
  lemma {:induction false} PositionNeverWorsensRun(s: State, evs: seq<Event>, u: string)
    requires WellFormed(s)
    requires Position(s.holder, s.queue, u).Some?
    requires Untimed(evs) && NoReleaseBy(evs, u)
    ensures Position(Run(s, evs).holder, Run(s, evs).queue, u).Some?
    ensures Position(Run(s, evs).holder, Run(s, evs).queue, u).value <= Position(s.holder, s.queue, u).value
    decreases |evs|
  {
    if evs != [] {
      PositionNeverWorsensStep(s, evs[0], u);
      WellFormedStep(s, evs[0]);
      assert Untimed(evs[1..]) && NoReleaseBy(evs[1..], u) by {
        forall i | 0 <= i < |evs[1..]|
          ensures !evs[1..][i].TimePasses? && evs[1..][i] != ReleaseEvent(Some(u))
        {
          assert evs[1..][i] == evs[i + 1];
        }
      }
      PositionNeverWorsensRun(Apply(s, evs[0]), evs[1..], u);
    }
  }

  /** A holder that does not release keeps the lock while no lease runs out. */
  lemma HolderKeepsLock(s: State, evs: seq<Event>, u: string)
    requires WellFormed(s) && s.holder == Some(u)
    requires Untimed(evs) && NoReleaseBy(evs, u)
    ensures Run(s, evs).holder == Some(u)
  {
    PositionNeverWorsensRun(s, evs, u);
  }

  /**
   * A release by the holder moves every waiter other than the front (and
   * the holder itself) exactly one place forward.
   */
  lemma ReleaseAdvancesWaiters(s: State, h: string, u: string)
    requires WellFormed(s) && s.holder == Some(h) && u in s.queue && u != s.queue[0] && u != h
    ensures var t := ReleaseAndPromote(s, h).state;
      Position(t.holder, t.queue, u) == Some(Position(s.holder, s.queue, u).value - 1)
  {
    var q := s.queue;
    var i := IndexOf(q, u);
    assert q[1..][i - 1] == u;
    assert q[..i] == [q[0]] + q[1..][..i - 1];
  }

  /** An expired lease frees the lock for anyone; the old holder cannot renew or release it. */
  lemma ExpiryReclaim(s: State, x: string, y: string)
    requires Consistent(s) && s.holder == Some(x) && s.ttl > 0 && x != y
    ensures !Renew(Elapse(s, s.ttl), x).ok
    ensures var r := Acquire(Elapse(s, s.ttl), y, RequestTtl);
      r.ok && r.reply == Granted && r.state.holder == Some(y) &&
      !Renew(r.state, x).ok && !ReleaseAndPromote(r.state, x).ok
  {
  }

  /**
   * An expired lease does not promote the front of the queue: a newcomer
   * then takes the lock ahead of a waiter, and a waiter that asks again
   * holds the lock while still queued.
   */
  lemma ExpiryBreaksFairness()
    ensures var s := State(Some("x"), 60, ["a"]);
      var t := Apply(s, TimePasses(60));
      Fair(s) &&
      Apply(t, RequestEvent(Some("c"))) == State(Some("c"), 60, ["a"]) &&
      Apply(t, RequestEvent(Some("a"))) == State(Some("a"), 60, ["a"]) &&
      !Fair(Apply(t, RequestEvent(Some("a"))))
  {
  }

  /**
   * The library request takes "" as a name and then reads the lock it set
   * as free: two different callers are both told they may write.
   */
  lemma EmptyNameLockIsOverwritten()
    ensures var r1 := Acquire(Empty, "", LockTtl);
      var r2 := Acquire(r1.state, "b", LockTtl);
      r1.ok && r1.reply == Granted && r2.ok && r2.reply == Granted
  {
  }
}
