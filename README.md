# Write-lock coordinator of the collaborative spreadsheet

The spreadsheet lets several users edit one shared sales table, and only one
of them may write at a time. Write access is a lease lock with a FIFO waiting
queue, kept in two Redis keys:

- `write_lock` is a string with a time to live. Its value is the holder's username.
- `write_queue` is a list of the usernames that are waiting.

The coordinator exists twice in the repository:

- `backend/database/redis_client.py` is the library form. It has request, check (renew), release,
  pop-next and status. Its lease is 10 seconds.
- `backend/routes/spreadsheet.py` is the socket-handler form. A request grants or extends a
  60-second lease. A release promotes the front of the queue with a 10-second lease. The status
  broadcast sends each viewer its own queue position.

The project models both forms on an in-memory Redis, and proves what the protocol guarantees.

- `wrappers.dfy` holds `Option`.
- `redis_store.dfy` (module `RedisStore`) holds the two keys:
  - `State` is `holder: Option<string>`, `ttl: int` and `queue: seq<string>`.
  - `ttl` follows what Redis' TTL command answers: -2 for an absent key, -1 for no expiry,
    otherwise the seconds left.
  - The class `Store` is the server. Each Redis command the coordinator uses is a method on it:
    GET, SET, EXPIRE, DEL, LRANGE, LLEN, RPUSH, LPOP.
  - Time is abstract. The function `Elapse` lets seconds pass, and a key whose time to live
    runs out is deleted.
- `redis_client.py` maps to `redis_client.dfy` (module `RedisClient`). Each operation is a pure
  transition on `State`: `Acquire`, `Renew`, `Release`, `PopNext`. Each also has a method that
  runs the same Redis commands, in the same order, on a `Store`. The method's postcondition ties
  the new store to the transition. A null `Store?` stands for a missing Redis client. Request, check
  and release then raise inside their `try`, and their `except` answers failure (`Failed`).
  `get_next_user_in_queue` answers None from its `except`, and `get_queue_status` answers two
  empty lists.
- `spreadsheet.py` maps to `spreadsheet.dfy` (module `Spreadsheet`). It holds:
  - the two handlers, with `ReleaseAndPromote` as the release transition;
  - the broadcast's position rule, `Position`;
  - the body check of the write route, `ValidateWrite`;
  - the next-id rule, `NextId` over `MaxId`.
- `lock_properties.dfy` (module `LockProperties`) treats the handlers as events on one store and
  proves invariants over any sequence of events:
  - the queue has no duplicates;
  - while no lease runs out, no waiter ever loses its place;
  - while no lease runs out, a holder that does not release keeps the lock;
  - a release by the holder moves every waiter behind the front one place forward;
  - lease expiry reclaims the lock.

The socket handler repeats the library's request logic with a 60 s lease instead of 10 s. Both
are modelled by the one function `RedisClient.Acquire`, which takes the lease as a parameter.

Python truthiness is modelled where the source relies on it, through `Truthy`:

- `if current_lock:` treats a lock whose value is `""` as free.
- `if next_user:` does not promote a popped `""`.
- `if not username:` refuses both a missing name and `""`.

## Behaviour of the code worth knowing

- A refused request reports `llen(write_queue)`, the queue length. This is not the caller's own
  place. For a caller who was already waiting, the two differ unless it is last in the queue.
  - `RequeuedWaiterReportedPosition` exhibits this: with queue `[a, b]`, `a` is told it is #2.
    The broadcast tells it 1.
  - `NewWaiterReportedPosition` proves the two agree when the caller is newly queued.
- An expired lease is plain Redis key expiry. Nothing promotes the front of the queue when it
  happens.
  - After an expiry, a newcomer can take the lock ahead of the waiters, and a waiter that asks
    again holds the lock while still queued (`ExpiryBreaksFairness`). So "the holder is never in
    the queue" holds only while no lease runs out (`FairRun`).
- The library release only deletes the lock. Promoting the next waiter is left to callers of
  `get_next_user_in_queue`.
- The library request accepts `""` as a name. It then reads the lock it set as free, so two
  callers are both granted (`EmptyNameLockIsOverwritten`). The socket handlers refuse `""`.
- No operation is atomic in the code. Each is a read followed by separate writes. The model runs
  each handler as one step.

## Model

| member | source | states |
|---|---|---|
| RedisClient.Acquire | backend/database/redis_client.py:29-49 | success iff the caller holds the lock or the lock is falsy; on success the caller holds it with a fresh lease and the queue is untouched, "extended" for the holder and "granted" otherwise; on refusal the holder and TTL are unchanged, the caller is in the queue, appended only if it was absent, and the reported number is the new queue length; no duplicates and TTL consistency are preserved |
| RedisClient.Renew | backend/database/redis_client.py:64-72 | success iff the caller is the holder, then the TTL is reset to 10; otherwise nothing changes; holder and queue never change |
| RedisClient.Release | backend/database/redis_client.py:78-85 | success iff the caller is the holder, then the lock is gone and the queue untouched; otherwise nothing changes |
| RedisClient.PopNext | backend/database/redis_client.py:55-58 | an empty queue gives None and no change; otherwise the front followed by the new queue is the old queue; the lock is untouched |
| RedisClient.QueueStatus | backend/database/redis_client.py:91-102 | reads only; no client gives two empty lists; otherwise the queue unchanged and at most one active user, which is `[]` exactly when the lock is absent or `""`, and `[u]` for a non-empty `u` exactly when `u` holds the lock |
| RedisClient.RequestWriteAccess | backend/database/redis_client.py:25-52 | GET, then EXPIRE / LRANGE, RPUSH, LLEN / SET, EXPIRE leave the store and the answer that `Acquire` gives with a 10 s lease; no client: failure |
| RedisClient.GetNextUserInQueue | backend/database/redis_client.py:55-61 | LPOP leaves the store and answer of `PopNext`; no client: None |
| RedisClient.CheckWriteAccess | backend/database/redis_client.py:64-75 | GET then EXPIRE leave the store and answer of `Renew`; no client: failure |
| RedisClient.ReleaseWriteAccess | backend/database/redis_client.py:78-88 | GET then DEL leave the store and answer of `Release`; no client: failure |
| Spreadsheet.ReleaseAndPromote | backend/routes/spreadsheet.py:199-222 | success iff the caller is the holder; otherwise no change; on success exactly the front leaves the queue; a truthy front becomes holder with TTL 10 and the rest stays queued; an empty queue leaves no lock and no queue; a popped `""` front leaves no lock, the rest of the queue, and the answer "released" |
| Spreadsheet.HandleWriteAccessRequest | backend/routes/spreadsheet.py:145-184 | missing or empty username: refused, no change; no Redis: refused; otherwise the store and answer of `Acquire` with a 60 s lease |
| Spreadsheet.HandleWriteAccessRelease | backend/routes/spreadsheet.py:187-225 | missing or empty username: refused, no change; no Redis: refused; otherwise DEL, LPOP, SET, EXPIRE leave the store and answer of `ReleaseAndPromote` |
| Spreadsheet.IndexOf | backend/routes/spreadsheet.py:31 | `queue.index(u)`: an index holding `u` with no `u` before it |
| Spreadsheet.Position | backend/routes/spreadsheet.py:27-31 | 0 iff the viewer holds the lock; None iff it neither holds nor waits; otherwise one more than its first place in the queue |
| Spreadsheet.PositionsDistinct | backend/routes/spreadsheet.py:27-31 | two viewers given the same position are the same viewer |
| Spreadsheet.ValidateWrite | backend/routes/spreadsheet.py:82-99 | no data iff the body is absent or falsy; complete iff it is an object whose required fields are all present and truthy; an object otherwise reports the first required field missing or falsy; a list or string lacking `"date"` reports `date`; a list or string containing `"date"`, a non-zero number or `true` raises (answered with status 500) |
| Spreadsheet.MaxId | backend/routes/spreadsheet.py:108-109 | NULL iff there are no rows; otherwise a present id at least every id |
| Spreadsheet.NextId | backend/routes/spreadsheet.py:110 | 1 with no maximum, otherwise the maximum plus one |
| Spreadsheet.NextIdIsFresh | backend/routes/spreadsheet.py:107-110 | the new id exceeds every existing id, and is 1 on an empty table |
| LockProperties.WellFormedStep | backend/routes/spreadsheet.py:145-222 | one request, release or expiry keeps a duplicate-free queue of non-empty names and a consistent TTL |
| LockProperties.WellFormedRun | backend/routes/spreadsheet.py:145-222 | any sequence of requests, releases and expiries keeps the store well formed |
| LockProperties.FairStep | backend/routes/spreadsheet.py:158-218 | one request or release keeps waiters only behind a holder who is not among them |
| LockProperties.FairRun | backend/routes/spreadsheet.py:158-218 | while no lease runs out, every sequence of requests and releases keeps the lock fair |
| LockProperties.GrantOnlyWithEmptyQueue | backend/routes/spreadsheet.py:178-181 | in a fair state a request is granted only when nobody waits |
| LockProperties.GrantExcludesOthers | backend/routes/spreadsheet.py:158-181 | after a successful request by a non-empty name, another user's request is refused and the holder stays |
| LockProperties.RequestIdempotent | backend/routes/spreadsheet.py:158-176 | a second identical request leaves the same store, outcome and, when refused, the same answer |
| LockProperties.NewWaiterReportedPosition | backend/routes/spreadsheet.py:165-176 | a newly queued user is told the position the broadcast will send it |
| LockProperties.RequeuedWaiterReportedPosition | backend/routes/spreadsheet.py:167-175 | a waiter asking again is told the queue length, 2, while its broadcast position is 1 |
| LockProperties.PositionNeverWorsensStep | backend/routes/spreadsheet.py:158-218 | through one request or another user's release, a user with a position keeps one no larger |
| LockProperties.PositionNeverWorsensRun | backend/routes/spreadsheet.py:158-218 | over any such sequence no waiter loses its place or falls back, and the holder stays holder |
| LockProperties.HolderKeepsLock | backend/routes/spreadsheet.py:158-202 | a holder that does not release keeps the lock while no lease runs out |
| LockProperties.ReleaseAdvancesWaiters | backend/routes/spreadsheet.py:204-218 | from any well-formed state, a release by the holder moves every waiter other than the front and the holder exactly one place forward |
| LockProperties.ExpiryReclaim | backend/routes/spreadsheet.py:158-202 | after the lease runs out the old holder cannot renew; another user's request is granted; the old holder can then neither renew nor release |
| LockProperties.ExpiryBreaksFairness | backend/routes/spreadsheet.py:178-181 | after expiry a newcomer is granted ahead of a waiter, and a re-asking waiter holds the lock while queued |
| LockProperties.EmptyNameLockIsOverwritten | backend/database/redis_client.py:29-49 | the library grants `""` and then grants another user too |

## Left out

- Flask and Socket.IO plumbing is not modelled. This covers the routes, `socketio.emit`, the loop
  over connected clients in `broadcast_update`, sessions and `login_required`. Only the
  per-viewer position rule of the broadcast is modelled.
- The SQL against DuckDB is not modelled: the reads, the insert and `db.commit()` in `write_data`,
  and `backend/database/db.py`. `MaxId` stands in for `SELECT MAX(id)`.
- The Redis connection setup (`get_redis` and `ping`) is external. Its result is the `Store?`
  argument of each method, and null stands for a failed connection.
- Exceptions raised by Redis in the middle of a handler are not modelled. They would leave the
  store partly updated, but the model runs each handler as one atomic step. The message texts of
  caught exceptions become the single reply `Failed`.
- Real time is not modelled. Time to live is an integer; seconds pass only through an explicit
  `Elapse`, and there are no clocks.
- Concurrency is not modelled. The source's read-then-write races between requests cannot arise
  in a sequential model.
- Spreadsheet.HandleWriteAccessRequest: takes `data` to be a dictionary and `data.get("username")`
  to be a JSON string or absent. Other cases are not modelled:
  - a `data` that is not a dictionary makes `data.get` raise, and the handler answers the
    exception text;
  - `0`, `0.0`, `false`, `[]` and `{}` are falsy and get "Username is required", as a missing
    name does;
  - a non-zero number passes the check and is stored as its decimal text. That text never
    equals the number, so each request from it queues it again (duplicates), and a numeric
    holder that asks again is queued behind itself;
  - a non-empty list or object, or `true`, passes the check; when Redis is reachable, the Redis
    client then refuses to send it (SET or RPUSH), and the handler answers the exception text.
- Spreadsheet.HandleWriteAccessRelease: takes `data` to be a dictionary and `data.get("username")`
  to be a JSON string or absent. Other cases are not modelled:
  - a `data` that is not a dictionary makes `data.get` raise, and the handler answers the
    exception text;
  - falsy values get "Username is required";
  - any truthy value that is not a string (a number, a non-empty list or object, `true`) never
    equals the stored lock. It gets "You do not have write access" and changes nothing, so a
    numeric holder can never release.
- The invariants in `LockProperties` (no duplicates in the queue among them) rely on usernames
  being strings. They do not cover the numeric usernames described above.
- Reply messages are a datatype, not the literal strings.
- JSON numbers in a write body are reals; the distinction between Python int and float is not
  kept. Equality of a list element with a field name, which is all `ValidateWrite` needs of it,
  does not depend on that distinction.
- Spreadsheet.ValidateWrite: `request.get_json()` itself is not modelled. The input is its
  result: None, or a decoded JSON value.
- Password hashing, certificate generation, configuration, `view_tables.py`, `setup.py`,
  `run.py`, `app.py`, the package re-exports and the application tests are not part of this
  model.
