/**
 * The library form of the write-lock coordinator (backend/database/redis_client.py):
 * request, renew ("check"), release, pop the next waiter, and the status view.
 *
 * Each operation is a pure transition on `State` and a method that performs
 * it command by command on a `Store`. A null `Store?` is a missing Redis
 * client: request, check and release then raise inside their `try`, which
 * their `except` turns into a failure carrying the exception text (`Failed`);
 * `GetNextUserInQueue` answers None from its `except`, and `QueueStatus`
 * answers two empty lists.
 */
module RedisClient {
  import opened Wrappers
  import opened RedisStore

  /** The lease the library grants and renews, in seconds. */
  const LockTtl: Seconds := 10

  /** The messages the coordinator answers with. */
  datatype Reply =
    | Extended                        // "Write access extended"
    | Granted                         // "Write access granted"
    | HeldByOther(position: nat)      // "... held by another user. You are #position in queue"
    | Maintained                      // "Write access maintained"
    | NoWriteAccess                   // "You do not have write access"
    | Released                        // "Write access released"
    | ReleasedTo(next: string)        // "Write access released and granted to next"
    | UsernameRequired                // "Username is required"
    | RedisUnavailable                // "Failed to connect to Redis"
    | Failed                          // the text of a caught exception

  /** The store after an operation, its success flag and its message. */
  datatype Step = Step(state: State, ok: bool, reply: Reply)

  /**
   * A request for write access, granting a lease of `lease` seconds. The
   * holder extends its lease; anyone else waits in the queue (once) while
   * the lock is held; a free lock goes to the caller. A lock whose value is
   * "" counts as free, as Python reads "" as false.
   */
  function Acquire(s: State, user: string, lease: Seconds): (r: Step)
    ensures r.ok <==> s.holder == Some(user) || !Truthy(s.holder)
    ensures r.ok ==> r.state == State(Some(user), lease, s.queue)
    ensures r.ok ==> r.reply == (if s.holder == Some(user) then Extended else Granted)
    ensures !r.ok ==> r.state.holder == s.holder && r.state.ttl == s.ttl
    ensures !r.ok ==> user in r.state.queue && r.reply == HeldByOther(|r.state.queue|)
    ensures !r.ok ==> r.state.queue == (if user in s.queue then s.queue else s.queue + [user])
    ensures NoDuplicates(s.queue) ==> NoDuplicates(r.state.queue)
    ensures Consistent(s) ==> Consistent(r.state)
  {
    if s.holder == Some(user) then
      Step(s.(ttl := lease), true, Extended)
    else if Truthy(s.holder) then
      var q := if user in s.queue then s.queue else s.queue + [user];
      Step(s.(queue := q), false, HeldByOther(|q|))
    else
      Step(s.(holder := Some(user), ttl := lease), true, Granted)
  }

  /** A renewal: only the holder keeps the lock, with a fresh lease. */
  function Renew(s: State, user: string): (r: Step)
    ensures r.ok <==> s.holder == Some(user)
    ensures r.state.holder == s.holder && r.state.queue == s.queue
    ensures r.ok ==> r.state.ttl == LockTtl && r.reply == Maintained
    ensures !r.ok ==> r.state == s && r.reply == NoWriteAccess
    ensures Consistent(s) ==> Consistent(r.state)
  {
    if s.holder == Some(user) then Step(s.(ttl := LockTtl), true, Maintained)
    else Step(s, false, NoWriteAccess)
  }

  /** A release that clears the lock and leaves the waiters where they are. */
  function Release(s: State, user: string): (r: Step)
    ensures r.ok <==> s.holder == Some(user)
    ensures r.state.queue == s.queue
    ensures r.ok ==> r.state == Empty.(queue := s.queue) && r.reply == Released
    ensures !r.ok ==> r.state == s && r.reply == NoWriteAccess
    ensures Consistent(s) ==> Consistent(r.state)
  {
    if s.holder == Some(user) then Step(s.(holder := None, ttl := NoKey), true, Released)
    else Step(s, false, NoWriteAccess)
  }

  /** Taking the front of the queue: the front and the rest make up the old queue. */
  function PopNext(s: State): (r: (State, Option<string>))
    ensures r.0.holder == s.holder && r.0.ttl == s.ttl
    ensures s.queue == [] <==> r.1.None?
    ensures s.queue == [] ==> r.0 == s
    ensures r.1.Some? ==> [r.1.value] + r.0.queue == s.queue
  {
    if s.queue == [] then (s, None) else (s.(queue := s.queue[1..]), Some(s.queue[0]))
  }

  /**
   * The status view: the holder (when the lock is truthy) and the waiters.
   * It reads the store and changes nothing.
   */
  function QueueStatus(client: Store?): (r: (seq<string>, seq<string>))
    reads client
    ensures client == null ==> r == ([], [])
    ensures client != null ==> r.1 == client.queue && |r.0| <= 1
    ensures client != null ==> (r.0 == [] <==> !Truthy(client.holder))
    ensures client != null ==>
      forall u :: u != "" ==> (r.0 == [u] <==> client.holder == Some(u))
  {
    if client == null then ([], [])
    else
      var active := if Truthy(client.holder) then [client.holder.value] else [];
      (active, client.queue)
  }

  method RequestWriteAccess(client: Store?, username: string) returns (ok: bool, reply: Reply)
    requires client != null ==> client.Valid()
    modifies client
    ensures client == null ==> !ok && reply == Failed
    ensures client != null ==> client.Valid()
    ensures client != null ==> (
      var st := Acquire(old(client.Snapshot()), username, LockTtl);
      client.Snapshot() == st.state && ok == st.ok && reply == st.reply)
  {
    if client == null {
      return false, Failed;
    }
    var current := client.Get();
    if current == Some(username) {
      var _ := client.Expire(LockTtl);
      return true, Extended;
    }
    if Truthy(current) {
      var waiting := client.LRange();
      if username !in waiting {
        var _ := client.RPush(username);
      }
      var position := client.LLen();
      return false, HeldByOther(position);
    }
    client.Set(username);
    var _ := client.Expire(LockTtl);
    return true, Granted;
  }

  method GetNextUserInQueue(client: Store?) returns (next: Option<string>)
    requires client != null ==> client.Valid()
    modifies client
    ensures client == null ==> next == None
    ensures client != null ==> client.Valid()
    ensures client != null ==> (client.Snapshot(), next) == PopNext(old(client.Snapshot()))
  {
    if client == null {
      return None;
    }
    next := client.LPop();
  }

  method CheckWriteAccess(client: Store?, username: string) returns (ok: bool, reply: Reply)
    requires client != null ==> client.Valid()
    modifies client
    ensures client == null ==> !ok && reply == Failed
    ensures client != null ==> client.Valid()
    ensures client != null ==> (
      var st := Renew(old(client.Snapshot()), username);
      client.Snapshot() == st.state && ok == st.ok && reply == st.reply)
  {
    if client == null {
      return false, Failed;
    }
    var current := client.Get();
    if current == Some(username) {
      var _ := client.Expire(LockTtl);
      return true, Maintained;
    }
    return false, NoWriteAccess;
  }

  method ReleaseWriteAccess(client: Store?, username: string) returns (ok: bool, reply: Reply)
    requires client != null ==> client.Valid()
    modifies client
    ensures client == null ==> !ok && reply == Failed
    ensures client != null ==> client.Valid()
    ensures client != null ==> (
      var st := Release(old(client.Snapshot()), username);
      client.Snapshot() == st.state && ok == st.ok && reply == st.reply)
  {
    if client == null {
      return false, Failed;
    }
    var current := client.Get();
    if current == Some(username) {
      var _ := client.Delete();
      return true, Released;
    }
    return false, NoWriteAccess;
  }
}
