/**
 * The data fetcher of backend/server.js: the connection pool, a pooled
 * connection, and `fetchJokesFromDB`, which acquires a connection, runs the
 * one query `SELECT * FROM jokes`, releases the connection and then settles
 * its promise.
 *
 * The MySQL driver is not part of this model. How the store answers one fetch
 * is a parameter of type DbReply; the pool and the connection keep only what
 * the release discipline needs: how many connections are lent out, and the
 * order of what was done to them.
 */
module JokesDb {

  import opened Wrappers

  /** One row of the `jokes` table; its columns are the store's business. */
  type Record(==)

  /** How the store answers one fetch. */
  datatype DbReply =
    | ConnectionRefused          // `pool.getConnection` reports an error
    | QueryFailed                // the query reports an error on a live connection
    | Rows(rows: seq<Record>)    // the query returns these rows, in the store's order

  /** How the promise of `fetchJokesFromDB` settles. */
  datatype FetchResult =
    | Resolved(rows: seq<Record>)
    | Rejected(message: string)

  const ConnectionErrorMessage: string := "Database connection error"
  const QueryErrorMessage: string := "Database query error"

  /** What one fetch does to the pool, in order. */
  datatype PoolEvent = AcquireFailed | Acquired | Queried | Released

  /** The settled value of `fetchJokesFromDB` for a given answer of the store. */
  function FetchOutcome(reply: DbReply): FetchResult
  {
    match reply
    case ConnectionRefused => Rejected(ConnectionErrorMessage)
    case QueryFailed => Rejected(QueryErrorMessage)
    case Rows(rows) => Resolved(rows)
  }

  /**
   * The events one fetch leaves on the pool. A connection is released exactly
   * when one was acquired, exactly once, and as the last step; without a
   * connection no query runs and nothing is released.
   */
  function FetchTrace(reply: DbReply): (t: seq<PoolEvent>)
    ensures multiset(t)[Released] == multiset(t)[Acquired] <= 1
    ensures Acquired in t <==> !reply.ConnectionRefused?
    ensures Queried in t <==> Acquired in t
    ensures Acquired in t ==> t[0] == Acquired && t[|t| - 1] == Released
    ensures |t| > 0
  {
    if reply.ConnectionRefused? then [AcquireFailed] else [Acquired, Queried, Released]
  }

  /** The connection pool (`mysql.createPool`), reduced to what fetching observes. */
  class Pool {
    /** Connections currently lent out and not yet released. */
    var inUse: nat
    /** What has been done to the pool's connections, oldest first. */
    var log: seq<PoolEvent>

    constructor ()
      ensures inUse == 0 && log == []
    {
      inUse := 0;
      log := [];
    }

    /** `pool.getConnection`: hands out a fresh connection unless the store refuses. */
    method GetConnection(reply: DbReply) returns (conn: Connection?)
      modifies this
      ensures conn == null <==> reply.ConnectionRefused?
      ensures conn != null ==> fresh(conn) && conn.pool == this && conn.releases == 0
      ensures inUse == old(inUse) + (if conn == null then 0 else 1)
      ensures log == old(log) + (if conn == null then [AcquireFailed] else [Acquired])
    {
      if reply.ConnectionRefused? {
        conn := null;
        log := log + [AcquireFailed];
      } else {
        conn := new Connection(this);
        inUse := inUse + 1;
        log := log + [Acquired];
      }
    }
  }

  /** A connection lent out by a pool. */
  class Connection {
    const pool: Pool
    /** How many times this connection has been given back. */
    var releases: nat

    constructor (pool: Pool)
      ensures this.pool == pool && releases == 0
    {
      this.pool := pool;
      releases := 0;
    }

    /** `connection.query('SELECT * FROM jokes', …)`: the rows, or None on a query error. */
    method Query(reply: DbReply) returns (results: Option<seq<Record>>)
      requires releases == 0
      modifies pool
      ensures results == (if reply.Rows? then Some(reply.rows) else None)
      ensures pool.inUse == old(pool.inUse)
      ensures pool.log == old(pool.log) + [Queried]
    {
      results := if reply.Rows? then Some(reply.rows) else None;
      pool.log := pool.log + [Queried];
    }

    /** `connection.release()`: gives a held connection back to its pool. */
    method Release()
      requires releases == 0 && pool.inUse > 0
      modifies this, pool
      ensures releases == 1
      ensures pool.inUse == old(pool.inUse) - 1
      ensures pool.log == old(pool.log) + [Released]
    {
      releases := releases + 1;
      pool.inUse := pool.inUse - 1;
      pool.log := pool.log + [Released];
    }
  }

  /**
   * `fetchJokesFromDB`: settles as FetchOutcome says, leaves exactly
   * FetchTrace(reply) on the pool, and holds no connection afterwards that it
   * did not hold before.
   */
  method FetchJokesFromDB(pool: Pool, reply: DbReply) returns (r: FetchResult)
    modifies pool
    ensures r == FetchOutcome(reply)
    ensures pool.inUse == old(pool.inUse)
    ensures pool.log == old(pool.log) + FetchTrace(reply)
  {
    var conn := pool.GetConnection(reply);
    if conn == null {
      return Rejected(ConnectionErrorMessage);
    }
    var results := conn.Query(reply);
    conn.Release();
    if results.None? {
      return Rejected(QueryErrorMessage);
    }
    return Resolved(results.value);
  }
}
