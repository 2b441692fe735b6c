# Jokes cache-aside: a Dafny model

This project models the core of a small Express server (`backend/server.js`) that answers
`GET /post` with every row of the `jokes` table. A single in-process cache slot sits in front of
the table:

- a fresh cache (refilled less than five minutes ago) is served as it is;
- a cache that is not fresh (never filled, or refilled five or more minutes ago) is refilled from the store, while a fresh cache holding no rows is still served as it is;
- when the store fails, any rows already cached are served, however old they are;
- with nothing cached, the fixed 500 body `{error: 'Server error', message: 'Please try again later'}` is sent.

The fetcher borrows a pooled connection, runs one query and gives the connection back before it
settles.

Files:

- `wrappers.dfy`: `Option`, which stands for JavaScript's `null`-or-value.
- `jokes_db.dfy` (module `JokesDb`): the opaque `Record`, the store's possible answers (`DbReply`), the
  pool and the connection as classes, and `FetchJokesFromDB` as a method. Its trace of pool events is
  specified by `FetchTrace`.
- `jokes_cache.dfy` (module `JokesCache`): `CACHE_DURATION`, the `CacheEntry` record and its invariant,
  `IsCacheValid`, `Refilled` (what `updateCache` builds), the handler's decision `HandleGetPost`, runs
  of requests (`Serve`), and the lemmas.
- `jokes_server.dfy` (module `JokesServer`): class `Server`. It holds the mutable `jokesCache` binding and
  the pool, and provides `UpdateCache` and `HandlePost`, both proved against the functions above. A
  client method walks through the fill, hit, stale-fallback and cold-outage scenario.

Modelling choices:

- **The cache record is a value.** `updateCache` reassigns the `jokesCache` binding to a new object
  literal and never writes a single field. So the record is the datatype `CacheEntry`, and the one
  mutable thing is the class field that holds it.
- **The clock is an input.** The handler reads `Date.now()` twice: once in the freshness check and
  once in `updateCache`, after the fetch has completed. The model takes both readings, `now` and
  `refilledAt`.
- **JavaScript truthiness is kept.** The freshness check tests `lastUpdated` by truthiness, so a
  timestamp of `0` counts as unset, just like `null`. `IsCacheValid` keeps this (`Truthy`). As a
  result, the freshness window after a refill holds exactly when the refill time is non-zero.
- **The clock may go backwards.** The window's age test is `now - lastUpdated < CACHE_DURATION` with
  no lower bound. A reading earlier than the refill therefore counts as fresh, and the contracts
  state the whole `now < lastUpdated + CACHE_DURATION` condition.
- **The store's answer is a parameter.** `DbReply` is one of `ConnectionRefused`, `QueryFailed` or
  `Rows(rows)`. It decides how a fetch goes, if one happens.

## Model

| member | source | states |
|---|---|---|
| `JokesCache.Initial` | backend/server.js:12-16 | The starting record has no rows and satisfies the invariant. It is stale at every clock reading. |
| `JokesCache.IsCacheValid` | backend/server.js:44-48 | Fresh exactly when all of these hold: the valid flag is set, a non-zero timestamp is present, and the clock is below timestamp + 300000 ms. Both directions are stated. |
| `JokesCache.Refilled` | backend/server.js:50-56 | A refill holds exactly the given rows and satisfies the invariant. At a reading `t` it is fresh exactly when the refill time is non-zero and `t` < refill time + 300000. |
| `JokesCache.FreshnessWindow` | backend/server.js:44-56 | A refill at a non-zero time `t0` is fresh for `t0 <= t < t0 + 300000` and stale for `t >= t0 + 300000`. |
| `JokesCache.HandleGetPost` | backend/server.js:82-103 | The store is asked exactly on a miss. The invariant is kept. The cache either stays unchanged or becomes a refill holding exactly the rows sent. A 500 is sent only when the cache held no rows, and it carries the fixed body. |
| `JokesCache.CacheHit` | backend/server.js:84-86 | A fresh cache is sent as it is. The store is not asked and the cache is not changed. |
| `JokesCache.MissRefills` | backend/server.js:88-90 | On a miss with rows from the store, the cache becomes (rows, refill time, valid) and exactly those rows are sent. |
| `JokesCache.MissFailure` | backend/server.js:91-101 | On a miss that the store fails, the cache is unchanged whatever its age. The response is the cached rows if there are any, otherwise the fixed 500. |
| `JokesCache.EmptyRefillThenFailure` | backend/server.js:88-101 | After a refill that brought back no rows, a later miss that the store fails gets the 500. |
| `JokesCache.Serve` | backend/server.js:82-103 | Requests handled one after another produce one response each. |
| `JokesCache.ServeKeepsWellFormed` | backend/server.js:50-56 | Every run of requests keeps the invariant "valid implies a timestamp is set". |
| `JokesCache.ServeDataIsOneWholeAnswer` | backend/server.js:50-56 | After any run, the cached rows are either the starting rows or the complete answer of one fetch in the run, made by a request that found the cache stale. Rows are never patched or merged. |
| `JokesCache.StaleFallbackMasksOutages` | backend/server.js:91-96 | Start with rows cached, and let no request that finds the cache stale get an empty table from the store. Then every response is a 200, whatever the store does otherwise. |
| `JokesCache.ColdOutageAlwaysFails` | backend/server.js:91-101 | From process start, if the store never answers with rows, the cache stays initial and every response is the fixed 500. |
| `JokesDb.FetchTrace` | backend/server.js:61-76 | When the connection is refused, nothing is acquired, queried or released. Otherwise one connection is acquired, queried, and released exactly once as the last step. |
| `JokesDb.FetchJokesFromDB` | backend/server.js:59-79 | Settles as `FetchOutcome` gives: with the rows, or rejects with "Database connection error" or "Database query error". Leaves exactly `FetchTrace` on the pool and holds no connection afterwards. |
| `JokesDb.Pool.constructor` | backend/server.js:35-41 | A new pool lends out no connections and has done nothing yet. |
| `JokesDb.Pool.GetConnection` | backend/server.js:61-66 | Gives no connection exactly when the store refuses. Otherwise gives a fresh, unreleased connection of this pool and counts it as lent out. |
| `JokesDb.Connection.Query` | backend/server.js:68 | On an unreleased connection, returns the rows, or None on a query error. It records the query. |
| `JokesDb.Connection.Release` | backend/server.js:69 | Gives an unreleased connection back, once. The pool's lent-out count drops by one. |
| `JokesServer.Server.constructor` | backend/server.js:12-16 | The process starts with the initial record and an idle pool. |
| `JokesServer.Server.UpdateCache` | backend/server.js:50-56 | Replaces the whole record by the refill of `data` at `now`. |
| `JokesServer.Server.HandlePost` | backend/server.js:82-103 | The new cache and the response are what `HandleGetPost` gives. On a hit the pool is untouched. On a miss the pool log grows by exactly `FetchTrace`. No connection stays borrowed. The invariant is kept. |

## Left out

- Express wiring is not modelled: app construction, CORS options, the JSON body parser, static file serving, the catch-all `index.html` route and `app.listen`. It is library plumbing with no cache logic.
- `dotenv` configuration and the MySQL driver are not modelled. The pool and the connection stand in for them, reduced to a lent-out count and an event log.
- The SQL text and the row shape are not modelled. `Record` is an opaque type.
- JSON serialisation is not modelled. A response is the `Response` datatype, with status 200 for `Json` and 500 for `ServerError`.
- `console.error` and `console.log` are diagnostic output only, so they are not modelled.
- Concurrent requests are not modelled. Each request is one atomic step, so two requests that interleave at the `await` of the fetch, including overlapping refills, are outside the model.
- Pool exhaustion and waiting for a free connection are not modelled. A refused connection stands for every acquisition error.
