/**
 * The single-slot cache in front of `SELECT * FROM jokes` (backend/server.js):
 * the `jokesCache` record, the freshness window, the refill, and what the
 * `GET /post` handler answers and leaves behind for each request.
 *
 * Everything here is a value; the mutable binding that holds the record lives
 * in JokesServer.Server. The clock is an input: `now` is the reading taken by
 * the freshness check, `refilledAt` the later reading taken by the refill
 * after the fetch completed.
 */
module JokesCache {

  import opened Wrappers
  import opened JokesDb

  /** Five minutes, in milliseconds. */
  const CACHE_DURATION: int := 5 * 60 * 1000

  /** The `jokesCache` record. `lastUpdated` is None while it is still `null`. */
  datatype CacheEntry = CacheEntry(data: seq<Record>, lastUpdated: Option<int>, isValid: bool)

  /** The cache's invariant: a valid entry carries a timestamp. */
  predicate WellFormed(e: CacheEntry)
  {
    e.isValid ==> e.lastUpdated.Some?
  }

  /** The record the process starts with: no rows, no timestamp, not valid. */
  function Initial(): (e: CacheEntry)
    ensures WellFormed(e) && |e.data| == 0
    ensures forall now :: !IsCacheValid(e, now)
  {
    CacheEntry([], None, false)
  }

  /** JavaScript truthiness of `lastUpdated`: `null` and `0` are both false. */
  predicate Truthy(t: Option<int>)
  {
    t.Some? && t.value != 0
  }

  /** JavaScript's numeric reading of `lastUpdated` in a subtraction: `null` reads as 0. */
  function AsNumber(t: Option<int>): int
  {
    if t.Some? then t.value else 0
  }

  /**
   * `isCacheValid`: the entry is fresh at `now` exactly when it is flagged
   * valid, has a non-zero timestamp, and is less than CACHE_DURATION old.
   */
  function IsCacheValid(e: CacheEntry, now: int): (valid: bool)
    ensures valid <==>
      e.isValid && e.lastUpdated.Some? && e.lastUpdated.value != 0 &&
      now < e.lastUpdated.value + CACHE_DURATION
  {
    e.isValid && Truthy(e.lastUpdated) && now - AsNumber(e.lastUpdated) < CACHE_DURATION
  }

  /**
   * `updateCache(data)` at time `now`: a whole new record holding exactly
   * `data`, which is fresh up to, and not including, `now + CACHE_DURATION`.
   */
  function Refilled(data: seq<Record>, now: int): (e: CacheEntry)
    ensures e.data == data && WellFormed(e)
    ensures forall t :: IsCacheValid(e, t) <==> now != 0 && t < now + CACHE_DURATION
  {
    CacheEntry(data, Some(now), true)
  }

  /** A refill at `t0` is fresh for the next five minutes and stale from then on. */
  lemma FreshnessWindow(data: seq<Record>, t0: int, t: int)
    requires t0 != 0
    ensures t0 <= t < t0 + CACHE_DURATION ==> IsCacheValid(Refilled(data, t0), t)
    ensures t >= t0 + CACHE_DURATION ==> !IsCacheValid(Refilled(data, t0), t)
  {
  }

  /** What `GET /post` sends: a 200 with a JSON array, or a 500 with an error object. */
  datatype Response =
    | Json(body: seq<Record>)
    | ServerError(error: string, message: string)
  {
    function Status(): int
    {
      if Json? then 200 else 500
    }
  }

  /** The only 500 the handler sends. */
  const ServerErrorBody: Response := ServerError("Server error", "Please try again later")

  /**
   * One `GET /post`: the clock at the freshness check, how the store would
   * answer a fetch, and the clock when the refill runs.
   */
  datatype Request = Request(now: int, reply: DbReply, refilledAt: int)

  /** What one request leaves behind: the cache, the response, and whether the store was asked. */
  datatype Step = Step(cache: CacheEntry, response: Response, fetched: bool)

  /**
   * The `/post` handler. The store is asked exactly on a miss; the cache is
   * either untouched or replaced by a refill holding exactly the rows sent;
   * a 500 goes out only when the cache held no rows, and then carries the
   * fixed body.
   */
  function HandleGetPost(e: CacheEntry, req: Request): (s: Step)
    ensures s.fetched <==> !IsCacheValid(e, req.now)
    ensures WellFormed(e) ==> WellFormed(s.cache)
    ensures s.cache == e || (s.response.Json? && s.cache == Refilled(s.response.body, req.refilledAt))
    ensures s.response.ServerError? ==> s.response == ServerErrorBody && |e.data| == 0 && s.cache == e
  {
    if IsCacheValid(e, req.now) then
      Step(e, Json(e.data), false)
    else
      match FetchOutcome(req.reply)
      case Resolved(jokes) => Step(Refilled(jokes, req.refilledAt), Json(jokes), true)
      case Rejected(_) =>
        if |e.data| > 0 then Step(e, Json(e.data), true) else Step(e, ServerErrorBody, true)
  }

  /** A fresh cache is served as it is, without asking the store and without changing it. */
  lemma CacheHit(e: CacheEntry, req: Request)
    requires IsCacheValid(e, req.now)
    ensures HandleGetPost(e, req) == Step(e, Json(e.data), false)
  {
  }

  /** On a miss, rows from the store become the whole new cache, stamped at refill time, and are sent. */
  lemma MissRefills(e: CacheEntry, req: Request)
    requires !IsCacheValid(e, req.now) && req.reply.Rows?
    ensures HandleGetPost(e, req) == Step(Refilled(req.reply.rows, req.refilledAt), Json(req.reply.rows), true)
  {
  }

  /**
   * On a miss that the store fails (either way), the cache stays as
   * it is, however old; its rows are sent if there are any, the fixed 500 if not.
   */
  lemma MissFailure(e: CacheEntry, req: Request)
    requires !IsCacheValid(e, req.now) && !req.reply.Rows?
    ensures HandleGetPost(e, req).cache == e && HandleGetPost(e, req).fetched
    ensures HandleGetPost(e, req).response == if |e.data| > 0 then Json(e.data) else ServerErrorBody
  {
  }

  /**
   * A refill that brought back no rows leaves nothing to fall back on: the
   * next miss that the store fails gets the 500.
   */
  lemma EmptyRefillThenFailure(e: CacheEntry, first: Request, second: Request)
    requires !IsCacheValid(e, first.now) && first.reply == Rows([])
    requires !IsCacheValid(Refilled([], first.refilledAt), second.now) && !second.reply.Rows?
    ensures HandleGetPost(HandleGetPost(e, first).cache, second).response == ServerErrorBody
  {
  }

  /** A run of requests handled one after another: the final cache and every response, in order. */
  datatype Run = Run(cache: CacheEntry, responses: seq<Response>)

  /** Handles `reqs` in order, starting from `e`; each request sees the cache the previous one left. */
  function Serve(e: CacheEntry, reqs: seq<Request>): (r: Run)
    ensures |r.responses| == |reqs|
    decreases |reqs|
  {
    if reqs == [] then Run(e, [])
    else
      var s := HandleGetPost(e, reqs[0]);
      var rest := Serve(s.cache, reqs[1..]);
      Run(rest.cache, [s.response] + rest.responses)
  }

  /** Every run keeps the invariant that a valid cache has a timestamp. */
  lemma {:induction false} ServeKeepsWellFormed(e: CacheEntry, reqs: seq<Request>)
    requires WellFormed(e)
    ensures WellFormed(Serve(e, reqs).cache)
    decreases |reqs|
  {
    if reqs != [] {
      ServeKeepsWellFormed(HandleGetPost(e, reqs[0]).cache, reqs[1..]);
    }
  }

  /**
   * The cache a request of a run finds: what the requests before it left
   * behind. Peeling off the first request of a run shifts that by one.
   */
  lemma ServePrefixStep(e: CacheEntry, reqs: seq<Request>, j: nat)
    requires j < |reqs|
    ensures Serve(e, reqs[..j + 1]).cache == Serve(HandleGetPost(e, reqs[0]).cache, reqs[1..][..j]).cache
  {
    assert reqs[..j + 1][0] == reqs[0];
    assert reqs[..j + 1][1..] == reqs[1..][..j];
  }

  /**
   * Rows are only ever replaced wholesale: after any run the cached rows are
   * either the ones it started with or the complete answer of one fetch in
   * it, made by a request that found the cache stale.
   */
  lemma {:induction false} ServeDataIsOneWholeAnswer(e: CacheEntry, reqs: seq<Request>)
    ensures var d := Serve(e, reqs).cache.data;
      d == e.data ||
      exists i :: 0 <= i < |reqs| && !IsCacheValid(Serve(e, reqs[..i]).cache, reqs[i].now) &&
        reqs[i].reply == Rows(d)
    decreases |reqs|
  {
    if reqs != [] {
      var s := HandleGetPost(e, reqs[0]);
      ServeDataIsOneWholeAnswer(s.cache, reqs[1..]);
      var d := Serve(e, reqs).cache.data;
      if d != s.cache.data {
        var j :| 0 <= j < |reqs[1..]| && !IsCacheValid(Serve(s.cache, reqs[1..][..j]).cache, reqs[1..][j].now) &&
          reqs[1..][j].reply == Rows(d);
        ServePrefixStep(e, reqs, j);
        assert !IsCacheValid(Serve(e, reqs[..j + 1]).cache, reqs[j + 1].now) && reqs[j + 1].reply == Rows(d);
      } else if d != e.data {
        assert reqs[..0] == [];
        assert s.cache == Refilled(s.response.body, reqs[0].refilledAt);
        assert !IsCacheValid(Serve(e, reqs[..0]).cache, reqs[0].now) && reqs[0].reply == Rows(d);
      }
    }
  }

  /**
   * Outages are invisible once rows are cached: starting with rows, and with
   * no fetch in the run (a request that finds the cache stale) bringing back
   * an empty table, every response is a 200.
   */
  lemma {:induction false} StaleFallbackMasksOutages(e: CacheEntry, reqs: seq<Request>)
    requires |e.data| > 0
    requires forall i :: 0 <= i < |reqs| && !IsCacheValid(Serve(e, reqs[..i]).cache, reqs[i].now) ==>
      reqs[i].reply != Rows([])
    ensures forall k :: 0 <= k < |reqs| ==> Serve(e, reqs).responses[k].Json?
    decreases |reqs|
  {
    if reqs != [] {
      var s := HandleGetPost(e, reqs[0]);
      assert reqs[..0] == [];
      assert |s.cache.data| > 0;
      forall j | 0 <= j < |reqs[1..]| && !IsCacheValid(Serve(s.cache, reqs[1..][..j]).cache, reqs[1..][j].now)
        ensures reqs[1..][j].reply != Rows([])
      {
        ServePrefixStep(e, reqs, j);
        assert !IsCacheValid(Serve(e, reqs[..j + 1]).cache, reqs[j + 1].now);
      }
      StaleFallbackMasksOutages(s.cache, reqs[1..]);
    }
  }

  /**
   * A process whose store never answers: the cache stays as it started, and
   * every request gets the fixed 500.
   */
  lemma {:induction false} ColdOutageAlwaysFails(reqs: seq<Request>)
    requires forall i :: 0 <= i < |reqs| ==> !reqs[i].reply.Rows?
    ensures Serve(Initial(), reqs).cache == Initial()
    ensures forall k :: 0 <= k < |reqs| ==> Serve(Initial(), reqs).responses[k] == ServerErrorBody
    decreases |reqs|
  {
    if reqs != [] {
      MissFailure(Initial(), reqs[0]);
      ColdOutageAlwaysFails(reqs[1..]);
    }
  }
}
