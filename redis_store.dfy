/**
 * The part of the Redis keyspace the write-lock coordinator works on:
 * the string key `write_lock` (the user holding write access, with a time
 * to live) and the list key `write_queue` (the users waiting for it).
 *
 * `State` is the value of both keys at one instant; `Store` is the server,
 * whose commands change it in place. Time is abstract: `Elapse` lets a
 * number of seconds pass, which is the only way a time to live runs down.
 */
module RedisStore {
  import opened Wrappers

  /** What Redis' TTL command answers for a key that does not exist. */
  const NoKey: int := -2
  /** What Redis' TTL command answers for a key that never expires. */
  const NoExpiry: int := -1

  /** A positive number of seconds, as the coordinator passes to EXPIRE. */
  type Seconds = n: int | 0 < n witness 1

  /**
   * `holder` is the value of `write_lock` (None when the key is absent),
   * `ttl` what TTL answers for `write_lock`, `queue` the list `write_queue`
   * (an absent list reads as the empty one).
   */
  datatype State = State(holder: Option<string>, ttl: int, queue: seq<string>)

  /** A server on which neither key exists. */
  const Empty: State := State(None, NoKey, [])

  /** The time to live agrees with the existence of `write_lock`. */
  predicate Consistent(s: State) {
    (s.holder.None? <==> s.ttl == NoKey) &&
    (s.holder.Some? ==> s.ttl == NoExpiry || s.ttl > 0)
  }

  /** Python truthiness of a reply that may be None: None and "" are false. */
  predicate Truthy(v: Option<string>) {
    v.Some? && v.value != ""
  }

  predicate NoDuplicates(q: seq<string>) {
    forall i, j :: 0 <= i < j < |q| ==> q[i] != q[j]
  }

  /**
   * The server after `seconds` seconds without commands: a key whose time
   * to live runs out is deleted; the list has no time to live.
   */
  function Elapse(s: State, seconds: nat): (r: State)
    ensures r.queue == s.queue
    ensures Consistent(s) ==> Consistent(r)
    ensures r.holder == s.holder || r.holder == None
    ensures Consistent(s) && s.holder.Some? ==> (r.holder.None? <==> 0 < s.ttl <= seconds)
    ensures Consistent(s) && r.holder.Some? ==> r.ttl == NoExpiry || r.ttl + seconds == s.ttl
  {
    if 0 < s.ttl <= seconds then s.(holder := None, ttl := NoKey)
    else if 0 < s.ttl then s.(ttl := s.ttl - seconds)
    else s
  }

  class Store {
    var holder: Option<string>
    var ttl: int
    var queue: seq<string>

    /** A server on which neither key exists yet. */
    constructor ()
      ensures Snapshot() == Empty && Valid()
    {
      holder, ttl, queue := None, NoKey, [];
    }

    function Snapshot(): State
      reads this
    {
      State(holder, ttl, queue)
    }

    predicate Valid()
      reads this
    {
      Consistent(Snapshot())
    }

    /** GET write_lock */
    method Get() returns (v: Option<string>)
      ensures v == holder
    {
      v := holder;
    }

    /** SET write_lock v: a plain SET also drops any earlier time to live. */
    method Set(v: string)
      modifies this
      ensures Valid()
      ensures holder == Some(v) && ttl == NoExpiry && queue == old(queue)
    {
      holder, ttl := Some(v), NoExpiry;
    }

    /**
     * EXPIRE write_lock seconds: applies only to an existing key; a time to
     * live that is not positive deletes the key at once.
     */
    method Expire(seconds: int) returns (applied: bool)
      requires Valid()
      modifies this
      ensures Valid()
      ensures applied == old(holder).Some?
      ensures Snapshot() ==
        if !applied then old(Snapshot())
        else if seconds > 0 then old(Snapshot()).(ttl := seconds)
        else old(Snapshot()).(holder := None, ttl := NoKey)
    {
      applied := holder.Some?;
      if applied {
        if seconds > 0 {
          ttl := seconds;
        } else {
          holder, ttl := None, NoKey;
        }
      }
    }

    /** DEL write_lock */
    method Delete() returns (removed: bool)
      modifies this
      ensures Valid()
      ensures removed == old(holder).Some?
      ensures holder == None && ttl == NoKey && queue == old(queue)
    {
      removed := holder.Some?;
      holder, ttl := None, NoKey;
    }

    /** LRANGE write_queue 0 -1 */
    method LRange() returns (items: seq<string>)
      ensures items == queue
    {
      items := queue;
    }

    /** LLEN write_queue */
    method LLen() returns (n: nat)
      ensures n == |queue|
    {
      n := |queue|;
    }

    /** RPUSH write_queue v, answering the new length. */
    method RPush(v: string) returns (n: nat)
      modifies this
      ensures queue == old(queue) + [v] && n == |queue|
      ensures holder == old(holder) && ttl == old(ttl)
    {
      queue := queue + [v];
      n := |queue|;
    }

    /** LPOP write_queue: None on an empty list. */
    method LPop() returns (v: Option<string>)
      modifies this
      ensures old(queue) == [] ==> v == None && queue == []
      ensures old(queue) != [] ==> v == Some(old(queue)[0]) && queue == old(queue)[1..]
      ensures holder == old(holder) && ttl == old(ttl)
    {
      if queue == [] {
        v := None;
      } else {
        v := Some(queue[0]);
        queue := queue[1..];
      }
    }
  }
}
