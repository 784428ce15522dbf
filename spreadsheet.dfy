/**
 * The socket-handler form of the write-lock coordinator
 * (backend/routes/spreadsheet.py): the request and release handlers, the
 * per-viewer queue position that the status broadcast sends, and the two
 * pure checks of the write route (required fields, next row id).
 *
 * A handler's `client` is what `get_redis()` returned: null when Redis
 * could not be reached. A handler's `username` is `data.get("username")`.
 */
module Spreadsheet {
  import opened Wrappers
  import opened RedisStore
  import opened RedisClient

  /** The lease a request grants or extends, in seconds. */
  const RequestTtl: Seconds := 60
  /** The lease a waiter promoted on release receives, in seconds. */
  const PromotionTtl: Seconds := 10

  /**
   * A release by `user`: only the holder may release; the lock is deleted,
   * the front of the queue is popped and, when it is a truthy name, becomes
   * the holder.
   */
  function ReleaseAndPromote(s: State, user: string): (r: Step)
    ensures r.ok <==> s.holder == Some(user)
    ensures !r.ok ==> r.state == s && r.reply == NoWriteAccess
    ensures r.ok ==> r.state.queue == (if s.queue == [] then [] else s.queue[1..])
    ensures r.ok && s.queue != [] && s.queue[0] != "" ==>
      r.state == State(Some(s.queue[0]), PromotionTtl, s.queue[1..]) && r.reply == ReleasedTo(s.queue[0])
    ensures r.ok && s.queue == [] ==> r.state == Empty && r.reply == Released
    ensures r.ok && s.queue != [] && s.queue[0] == "" ==>
      r.state == Empty.(queue := s.queue[1..]) && r.reply == Released
    ensures Consistent(s) ==> Consistent(r.state)
  {
    if s.holder != Some(user) then
      Step(s, false, NoWriteAccess)
    else if s.queue != [] && s.queue[0] != "" then
      Step(State(Some(s.queue[0]), PromotionTtl, s.queue[1..]), true, ReleasedTo(s.queue[0]))
    else
      Step(Empty.(queue := if s.queue == [] then [] else s.queue[1..]), true, Released)
  }

  method HandleWriteAccessRequest(client: Store?, username: Option<string>)
    returns (success: bool, reply: Reply)
    requires client != null ==> client.Valid()
    modifies client
    ensures !Truthy(username) ==> !success && reply == UsernameRequired
    ensures Truthy(username) && client == null ==> !success && reply == RedisUnavailable
    ensures client != null ==> client.Valid()
    ensures client != null && !Truthy(username) ==> client.Snapshot() == old(client.Snapshot())
    ensures client != null && Truthy(username) ==> (
      var st := Acquire(old(client.Snapshot()), username.value, RequestTtl);
      client.Snapshot() == st.state && success == st.ok && reply == st.reply)
  {
    if !Truthy(username) {
      return false, UsernameRequired;
    }
    if client == null {
      return false, RedisUnavailable;
    }
    var user := username.value;
    var current := client.Get();
    if current == Some(user) {
      var _ := client.Expire(RequestTtl);
      return true, Extended;
    }
    if Truthy(current) {
      var waiting := client.LRange();
      if user !in waiting {
        var _ := client.RPush(user);
      }
      var position := client.LLen();
      return false, HeldByOther(position);
    }
    client.Set(user);
    var _ := client.Expire(RequestTtl);
    return true, Granted;
  }

  method HandleWriteAccessRelease(client: Store?, username: Option<string>)
    returns (success: bool, reply: Reply)
    requires client != null ==> client.Valid()
    modifies client
    ensures !Truthy(username) ==> !success && reply == UsernameRequired
    ensures Truthy(username) && client == null ==> !success && reply == RedisUnavailable
    ensures client != null ==> client.Valid()
    ensures client != null && !Truthy(username) ==> client.Snapshot() == old(client.Snapshot())
    ensures client != null && Truthy(username) ==> (
      var st := ReleaseAndPromote(old(client.Snapshot()), username.value);
      client.Snapshot() == st.state && success == st.ok && reply == st.reply)
  {
    if !Truthy(username) {
      return false, UsernameRequired;
    }
    if client == null {
      return false, RedisUnavailable;
    }
    var user := username.value;
    var current := client.Get();
    if current != Some(user) {
      return false, NoWriteAccess;
    }
    var _ := client.Delete();
    var next := client.LPop();
    if Truthy(next) {
      client.Set(next.value);
      var _ := client.Expire(PromotionTtl);
      return true, ReleasedTo(next.value);
    }
    return true, Released;
  }

  /** Python's `queue.index(u)`: the first place `u` appears. */
  function IndexOf(q: seq<string>, u: string): (i: nat)
    requires u in q
    ensures i < |q| && q[i] == u && u !in q[..i]
  {
    if q[0] == u then 0
    else
      var i := 1 + IndexOf(q[1..], u);
      assert q[..i] == [q[0]] + q[1..][..i - 1];
      i
  }

  /**
   * The queue position the status broadcast sends to `viewer`: 0 for the
   * holder, one more than its first index for a waiter, None otherwise.
   */
  function Position(lock: Option<string>, queue: seq<string>, viewer: string): (p: Option<nat>)
    ensures p == Some(0) <==> lock == Some(viewer)
    ensures p.None? <==> lock != Some(viewer) && viewer !in queue
    ensures p.Some? && p.value > 0 ==>
      p.value <= |queue| && queue[p.value - 1] == viewer && viewer !in queue[..p.value - 1]
  {
    if lock == Some(viewer) then Some(0)
    else if viewer in queue then Some(IndexOf(queue, viewer) + 1)
    else None
  }

  /** Two viewers who are told the same position are the same viewer. */
  lemma PositionsDistinct(lock: Option<string>, queue: seq<string>, u: string, v: string)
    requires Position(lock, queue, u).Some?
    requires Position(lock, queue, u) == Position(lock, queue, v)
    ensures u == v
  {
  }

  /** A JSON value of the write request's body (numbers as reals). */
  datatype Json =
    | JNull
    | JBool(b: bool)
    | JNumber(n: real)
    | JString(s: string)
    | JArray(items: seq<Json>)
    | JObject(fields: map<string, Json>)

  /** Python truthiness of a decoded JSON value. */
  predicate JsonTruthy(v: Json) {
    match v
    case JNull => false
    case JBool(b) => b
    case JNumber(n) => n != 0.0
    case JString(s) => s != ""
    case JArray(items) => items != []
    case JObject(fields) => fields != map[]
  }

  /** The fields every new sales row must carry, in the order they are checked. */
  const RequiredFields: seq<string> := [
    "date", "invoice_number", "customer_name", "location",
    "product_name", "category", "volume_sold", "unit"
  ]

  /** `field in data` is defined on the body: it is an object, a list or a string. */
  predicate SupportsIn(data: Json) {
    data.JObject? || data.JArray? || data.JString?
  }

  /** `s` occurs in `t` as a contiguous piece. */
  predicate Substring(s: string, t: string) {
    exists i :: 0 <= i <= |t| && s <= t[i..]
  }

  /**
   * Python's `field in data` where it is defined: a key of an object, an
   * element of a list, a piece of a string.
   */
  predicate Member(data: Json, field: string)
    requires SupportsIn(data)
  {
    match data
    case JObject(fields) => field in fields
    case JArray(items) => JString(field) in items
    case JString(t) => Substring(field, t)
  }

  /** The body is an object carrying the field with a truthy value. */
  predicate Present(data: Json, field: string) {
    data.JObject? && field in data.fields && JsonTruthy(data.fields[field])
  }

  /**
   * The outcome of validating a write request's body. `Raised` is a
   * `TypeError` from `field in data` or `data[field]`, which the route's
   * `except` answers with its text and status 500.
   */
  datatype Validation = NoData | MissingField(name: string) | Raised | Complete

  /**
   * The body's checks before a row is inserted: an absent or falsy body is
   * refused, then the required fields are checked in order and the first one
   * missing or falsy is reported. Only an object can pass; a body of another
   * type either lacks the first field or makes the check raise.
   */
  method ValidateWrite(data: Option<Json>) returns (v: Validation)
    ensures v == NoData <==> data.None? || !JsonTruthy(data.value)
    ensures v == Complete <==>
      data.Some? && JsonTruthy(data.value) && forall f :: f in RequiredFields ==> Present(data.value, f)
    ensures v.MissingField? ==> data.Some? && SupportsIn(data.value) && exists i :: (
      0 <= i < |RequiredFields| && RequiredFields[i] == v.name && !Present(data.value, v.name) &&
      (!data.value.JObject? ==> !Member(data.value, v.name)) &&
      forall k :: 0 <= k < i ==> Present(data.value, RequiredFields[k]))
    ensures v == Raised <==> (
      data.Some? && JsonTruthy(data.value) && !data.value.JObject? &&
      (!SupportsIn(data.value) || Member(data.value, RequiredFields[0])))
  {
    if data.None? || !JsonTruthy(data.value) {
      return NoData;
    }
    var body := data.value;
    var i := 0;
    while i < |RequiredFields|
      invariant 0 <= i <= |RequiredFields|
      invariant forall k :: 0 <= k < i ==> Present(body, RequiredFields[k])
      invariant !body.JObject? ==> i == 0
    {
      var field := RequiredFields[i];
      if !SupportsIn(body) {
        assert field in RequiredFields && !Present(body, field);
        return Raised;
      }
      if !Member(body, field) {
        assert field in RequiredFields && !Present(body, field);
        return MissingField(field);
      }
      if !body.JObject? {
        assert field in RequiredFields && !Present(body, field);
        return Raised;
      }
      if !JsonTruthy(body.fields[field]) {
        assert field in RequiredFields && !Present(body, field);
        return MissingField(field);
      }
      i := i + 1;
    }
    assert Present(body, RequiredFields[0]);
    return Complete;
  }

  /** `SELECT MAX(id) FROM sales`: NULL on an empty table. */
  function MaxId(ids: seq<int>): (m: Option<int>)
    ensures m.None? <==> ids == []
    ensures m.Some? ==> m.value in ids && forall id :: id in ids ==> id <= m.value
  {
    if ids == [] then None
    else
      var rest := MaxId(ids[1..]);
      assert forall id :: id in ids ==> id == ids[0] || id in ids[1..];
      if rest.None? || ids[0] >= rest.value then Some(ids[0]) else rest
  }

  /** `(max_id or 0) + 1`: a NULL or zero maximum counts as 0. */
  function NextId(maxId: Option<int>): (r: int)
    ensures maxId.None? ==> r == 1
    ensures maxId.Some? ==> r == maxId.value + 1
  {
    (if maxId.Some? && maxId.value != 0 then maxId.value else 0) + 1
  }

  /** The id given to a new row is larger than every id in the table. */
  lemma NextIdIsFresh(ids: seq<int>)
    ensures forall id :: id in ids ==> id < NextId(MaxId(ids))
    ensures ids == [] ==> NextId(MaxId(ids)) == 1
  {
  }
}
