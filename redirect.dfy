/**
 * The url-service's redirect handler, `GET /:shortcode`: cache first, and
 * the database only on a miss, writing an active record's destination back
 * into the cache. A cache hit answers at once, without looking at the
 * database and so without looking at `isActive` either. No click event is
 * published from here.
 */
module Redirect {
  import opened Wrappers
  import opened Http
  import RedisStore
  import RedisConfig
  import Cache
  import UrlTable

  /**
   * What the handler does: throw an AppError, answer 204, answer 302 with a
   * Location, or let the database's own error escape to the error handler,
   * which answers it with a 500.
   */
  datatype Response = Thrown(error: AppError) | NoContent | Found(location: string) | DbFailed(message: string)

  const FAVICON: string := "favicon.ico"

  /** `if (cached)`: a cached value counts as a hit only when it is a non-empty string. */
  predicate IsHit(cached: Option<string>) {
    cached.Some? && cached.value != ""
  }

  /** `if (!shortcode)`: the route parameter is missing or empty. */
  predicate MissingShortcode(shortcode: Option<string>) {
    shortcode.None? || shortcode.value == ""
  }

  /** Whether the handler goes to the database: a real shortcode that missed the cache. */
  predicate QueriesDatabase(shortcode: Option<string>, cached: Option<string>) {
    !MissingShortcode(shortcode) && shortcode.value != FAVICON && !IsHit(cached)
  }

  /** Whether the handler writes the cache: it went to the database and found an active record. */
  predicate WritesBack(shortcode: Option<string>, cached: Option<string>, record: Option<UrlTable.UrlRecord>) {
    QueriesDatabase(shortcode, cached) && record.Some? && record.value.isActive
  }

  /** The answer, given what the cache read returned and what the database holds for the shortcode. */
  function Resolve(shortcode: Option<string>, cached: Option<string>, record: Option<UrlTable.UrlRecord>): Response {
    if MissingShortcode(shortcode) then Thrown(Http.Fail("Shortcode is required", 400))
    else if shortcode.value == FAVICON then NoContent
    else if IsHit(cached) then Found(cached.value)
    else if record.None? then Thrown(Http.Fail("Short URL not found", 404))
    else if !record.value.isActive then Thrown(Http.Fail("Short URL has been deleted", 410))
    else Found(record.value.longUrl)
  }

  /** The answer the database alone would give: the reference the cache must agree with. */
  function ResolveFromDatabase(shortcode: Option<string>, record: Option<UrlTable.UrlRecord>): Response {
    Resolve(shortcode, None, record)
  }

  /** The cache after the handler: the write-back happens only on an active miss, and only if Redis can be used. */
  function CacheAfter(m: RedisStore.Entries, now: nat, reachable: bool, ttl: nat, shortcode: Option<string>,
                      cached: Option<string>, record: Option<UrlTable.UrlRecord>): RedisStore.Entries
  {
    if WritesBack(shortcode, cached, record) && reachable
    then RedisStore.AfterSetEx(m, now, Cache.UrlKey(shortcode.value), record.value.longUrl, ttl)
    else m
  }

  /**
   * The answer, given the cache read and what the database query returned:
   * the row it found, or the error it raised. The error escapes only when
   * the handler reaches the query, that is on a miss.
   */
  function Respond(shortcode: Option<string>, cached: Option<string>, lookup: Result<Option<UrlTable.UrlRecord>, string>): Response {
    if QueriesDatabase(shortcode, cached) && lookup.Err? then DbFailed(lookup.error)
    else Resolve(shortcode, cached, if lookup.Ok? then lookup.value else None)
  }

  /** The cache after the handler: a failed query stops the handler before any write-back. */
  function CacheAfterQuery(m: RedisStore.Entries, now: nat, reachable: bool, ttl: nat, shortcode: Option<string>,
                           cached: Option<string>, lookup: Result<Option<UrlTable.UrlRecord>, string>): RedisStore.Entries
  {
    if lookup.Ok? then CacheAfter(m, now, reachable, ttl, shortcode, cached, lookup.value) else m
  }

  /** A missing or empty shortcode is a 400; "favicon.ico" is a 204; neither reads the cache's value nor the database. */
  lemma EarlyAnswers(shortcode: Option<string>, cached: Option<string>, record: Option<UrlTable.UrlRecord>)
    ensures MissingShortcode(shortcode) ==>
      Resolve(shortcode, cached, record) == Thrown(AppError("AppError", "Shortcode is required", 400))
    ensures shortcode == Some(FAVICON) ==> Resolve(shortcode, cached, record) == NoContent
    ensures MissingShortcode(shortcode) || shortcode == Some(FAVICON) ==>
      !QueriesDatabase(shortcode, cached) && Resolve(shortcode, cached, record) == Resolve(shortcode, None, None)
  {
  }

  /**
   * A hit is a 302 to the cached value whatever the database holds: in
   * particular for an inactive record, where the database alone answers 410.
   */
  lemma HitIgnoresDatabase(shortcode: string, cached: string, record: Option<UrlTable.UrlRecord>)
    requires shortcode != "" && shortcode != FAVICON && cached != ""
    ensures Resolve(Some(shortcode), Some(cached), record) == Found(cached)
    ensures !QueriesDatabase(Some(shortcode), Some(cached))
    ensures record.Some? && !record.value.isActive ==>
      ResolveFromDatabase(Some(shortcode), record) == Thrown(AppError("AppError", "Short URL has been deleted", 410))
  {
  }

  /** A miss is answered from the record: 404 without one, 410 for an inactive one, else a 302 to its longUrl. */
  lemma MissAnswers(shortcode: string, cached: Option<string>, record: Option<UrlTable.UrlRecord>)
    requires shortcode != "" && shortcode != FAVICON && !IsHit(cached)
    ensures QueriesDatabase(Some(shortcode), cached)
    ensures record.None? ==> Resolve(Some(shortcode), cached, record) == Thrown(AppError("AppError", "Short URL not found", 404))
    ensures record.Some? && !record.value.isActive ==>
      Resolve(Some(shortcode), cached, record) == Thrown(AppError("AppError", "Short URL has been deleted", 410))
    ensures record.Some? && record.value.isActive ==>
      Resolve(Some(shortcode), cached, record) == Found(record.value.longUrl) && WritesBack(Some(shortcode), cached, record)
    ensures !WritesBack(Some(shortcode), cached, record) <==> record.None? || !record.value.isActive
  {
  }

  /**
   * A miss on an active record writes its longUrl back, so a following
   * request within the TTL is a hit that redirects to the same place and
   * does not query the database.
   */
  lemma {:induction false} MissThenHit(m: RedisStore.Entries, now: nat, later: nat, ttl: nat, shortcode: string, rec: UrlTable.UrlRecord)
    requires shortcode != "" && shortcode != FAVICON && rec.isActive && rec.longUrl != ""
    requires !IsHit(Cache.CachedUrl(m, now, shortcode))
    requires now <= later < now + ttl
    ensures var m' := CacheAfter(m, now, true, ttl, Some(shortcode), Cache.CachedUrl(m, now, shortcode), Some(rec));
            && Cache.CachedUrl(m', later, shortcode) == Some(rec.longUrl)
            && !QueriesDatabase(Some(shortcode), Cache.CachedUrl(m', later, shortcode))
            && Resolve(Some(shortcode), Cache.CachedUrl(m', later, shortcode), None) ==
               Resolve(Some(shortcode), Cache.CachedUrl(m, now, shortcode), Some(rec))
  {
    Cache.SetThenGetCached(m, now, shortcode, rec.longUrl, ttl, later);
  }

  /**
   * A database outage surfaces only on a miss: the query's error escapes
   * the handler and nothing is written back. A hit is still answered from
   * the cache, and with the database up the answer is the resolution of
   * the row found.
   */
  lemma OutageSurfacesOnMiss(m: RedisStore.Entries, now: nat, reachable: bool, ttl: nat, shortcode: Option<string>,
                             cached: Option<string>, record: Option<UrlTable.UrlRecord>)
    ensures QueriesDatabase(shortcode, cached) ==>
      && Respond(shortcode, cached, UrlTable.Query(false, record)) == DbFailed(UrlTable.DB_UNREACHABLE)
      && CacheAfterQuery(m, now, reachable, ttl, shortcode, cached, UrlTable.Query(false, record)) == m
    ensures !QueriesDatabase(shortcode, cached) ==>
      Respond(shortcode, cached, UrlTable.Query(false, record)) == Resolve(shortcode, cached, record)
    ensures Respond(shortcode, cached, UrlTable.Query(true, record)) == Resolve(shortcode, cached, record)
    ensures CacheAfterQuery(m, now, reachable, ttl, shortcode, cached, UrlTable.Query(true, record)) ==
      CacheAfter(m, now, reachable, ttl, shortcode, cached, record)
    ensures Respond(shortcode, cached, UrlTable.Query(false, record)).DbFailed? <==> QueriesDatabase(shortcode, cached)
  {
  }

  /** `redirect(req, res)`; `ttl` is the configured `env.CACHE_TTL_SECONDS`. */
  method HandleRedirect(conn: RedisConfig.RedisSingleton, db: UrlTable.Table, ttl: nat, shortcode: Option<string>) returns (res: Response)
    modifies conn.redis, db`lookups
    ensures conn.redis != null ==> Cache.ClockAndLinkKept(conn)
    ensures var cached := if old(Cache.Available(conn)) then Cache.CachedUrl(old(conn.redis.entries), old(conn.redis.now), shortcode.GetOr("")) else None;
            var lookup := UrlTable.Query(db.reachable, UrlTable.FindByCode(db.rows, shortcode.GetOr("")));
            && res == Respond(shortcode, cached, lookup)
            && db.lookups == old(db.lookups) + (if QueriesDatabase(shortcode, cached) then 1 else 0)
            && (conn.redis != null ==>
                  conn.redis.entries == CacheAfterQuery(old(conn.redis.entries), conn.redis.now, conn.redis.reachable, ttl, shortcode, cached, lookup))
  {
    if shortcode.None? || shortcode.value == "" {
      return Thrown(Http.Fail("Shortcode is required", 400));
    }
    var code := shortcode.value;
    if code == FAVICON {
      return NoContent;
    }

    var cached := Cache.GetCachedUrl(conn, code);
    if cached.Some? && cached.value != "" {
      return Found(cached.value);
    }

    var query := db.FindUniqueByCode(code);
    if query.Err? {
      return DbFailed(query.error);
    }
    var url := query.value;
    if url.None? {
      return Thrown(Http.Fail("Short URL not found", 404));
    }
    if !url.value.isActive {
      return Thrown(Http.Fail("Short URL has been deleted", 410));
    }

    Cache.SetCachedUrl(conn, code, url.value.longUrl, ttl);
    res := Found(url.value.longUrl);
  }
}
