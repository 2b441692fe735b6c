/**
 * The module-level state of backend/server.js and the `GET /post` handler
 * that works on it. `updateCache` replaces the whole `jokesCache` record by a
 * new one (it never writes a single field), so the record is a value and the
 * binding that holds it is the one mutable field.
 *
 * Each request runs as one atomic step; the interleaving of concurrent
 * requests at the handler's `await` is not part of this model.
 */
module JokesServer {

  import opened JokesDb
  import opened JokesCache

  class Server {
    /** The `let jokesCache` binding. */
    var jokesCache: CacheEntry
    /** The connection pool the fetcher borrows from. */
    const pool: Pool

    /** Process start: an empty, invalid cache and an idle pool. */
    constructor ()
      ensures jokesCache == Initial()
      ensures fresh(pool) && pool.inUse == 0 && pool.log == []
    {
      jokesCache := Initial();
      pool := new Pool();
    }

    /** `updateCache(data)`, with `now` the clock reading it takes. */
    method UpdateCache(data: seq<Record>, now: int)
      modifies this
      ensures jokesCache == Refilled(data, now)
    {
      jokesCache := Refilled(data, now);
    }

    /**
     * `app.get('/post', …)`: answers and updates the cache as HandleGetPost
     * says. On a hit the pool is not touched; on a miss exactly one fetch runs,
     * and every connection it borrowed is back in the pool before the
     * response is sent.
     */
    method HandlePost(now: int, reply: DbReply, refilledAt: int) returns (response: Response)
      modifies this, pool
      ensures var s := HandleGetPost(old(jokesCache), Request(now, reply, refilledAt));
        jokesCache == s.cache && response == s.response &&
        pool.log == old(pool.log) + (if s.fetched then FetchTrace(reply) else [])
      ensures pool.inUse == old(pool.inUse)
      ensures WellFormed(old(jokesCache)) ==> WellFormed(jokesCache)
    {
      if IsCacheValid(jokesCache, now) {
        return Json(jokesCache.data);
      }
      var fetched := FetchJokesFromDB(pool, reply);
      match fetched
      case Resolved(jokes) =>
        UpdateCache(jokes, refilledAt);
        response := Json(jokes);
      case Rejected(_) =>
        if |jokesCache.data| > 0 {
          response := Json(jokesCache.data);
        } else {
          response := ServerErrorBody;
        }
    }
  }

  /**
   * A client run: a cold cache is filled, served fresh
   * within five minutes without a fetch, served stale during an outage after
   * that, and a cold cache during an outage answers 500.
   */
  method ScenarioClient(joke: Record, t0: int)
    requires t0 > 0
  {
    var server := new Server();
    var r := server.HandlePost(t0, Rows([joke]), t0);
    assert r == Json([joke]) && r.Status() == 200;
    var logAfterFill := server.pool.log;

    r := server.HandlePost(t0 + 1000, QueryFailed, t0 + 1000);
    assert r == Json([joke]);
    assert server.pool.log == logAfterFill;

    r := server.HandlePost(t0 + CACHE_DURATION, ConnectionRefused, t0 + CACHE_DURATION);
    assert r == Json([joke]);
    assert server.pool.inUse == 0;

    var cold := new Server();
    r := cold.HandlePost(t0, QueryFailed, t0);
    assert r == ServerErrorBody && r.Status() == 500;
  }
}
