/**
 * The url-service's cache-aside layer over Redis: destination URLs stored
 * under `url:<shortcode>` with a fixed time to live. None of its operations
 * ever fails towards its caller: a Redis error reads as a miss, and a failed
 * write or delete leaves the store as it was.
 */
module Cache {
  import opened Wrappers
  import RedisStore
  import RedisConfig

  const URL_PREFIX: string := "url"

  /**
   * The default of `env.CACHE_TTL_SECONDS`: one day. The configured value
   * is the `ttl` the operations below are given; no jitter is added to it.
   * A TTL of 0 makes Redis refuse the write.
   */
  const DEFAULT_CACHE_TTL_SECONDS: nat := 86400

  /** `urlKey(shortcode)`. */
  function UrlKey(shortcode: string): string {
    URL_PREFIX + ":" + shortcode
  }

  /** Every cache key is the prefix "url:" followed by the shortcode, which can be read back from it. */
  lemma {:induction false} UrlKeyShape(shortcode: string)
    ensures |UrlKey(shortcode)| == |shortcode| + 4
    ensures UrlKey(shortcode)[..4] == "url:"
    ensures UrlKey(shortcode)[4..] == shortcode
  {
    assert UrlKey(shortcode) == "url:" + shortcode;
  }

  /** Different shortcodes never share a cache key. */
  lemma {:induction false} UrlKeyInjective(a: string, b: string)
    requires a != b
    ensures UrlKey(a) != UrlKey(b)
  {
    UrlKeyShape(a);
    UrlKeyShape(b);
  }

  /** What `getCachedUrl` reads from a reachable store at time `now`: the string under the key, else null. */
  function CachedUrl(m: RedisStore.Entries, now: nat, shortcode: string): Option<string> {
    match RedisStore.GetReply(m, now, UrlKey(shortcode))
    case Ok(Some(s)) => Some(s)
    case _ => None
  }

  /** After `setCachedUrl(s, u)` succeeds, `getCachedUrl(s)` returns `u` until the TTL has run out. */
  lemma SetThenGetCached(m: RedisStore.Entries, now: nat, s: string, u: string, ttl: nat, later: nat)
    requires now <= later < now + ttl
    ensures CachedUrl(RedisStore.AfterSetEx(m, now, UrlKey(s), u, ttl), later, s) == Some(u)
  {
    RedisStore.SetThenGet(m, now, UrlKey(s), u, ttl, later);
  }

  /**
   * Once the TTL has run out the entry is gone: the expiry is exactly `ttl`
   * seconds after the write. A TTL of 0 writes nothing.
   */
  lemma SetExpiresAfterTtl(m: RedisStore.Entries, now: nat, s: string, u: string, ttl: nat, later: nat)
    ensures ttl > 0 && now + ttl <= later ==> CachedUrl(RedisStore.AfterSetEx(m, now, UrlKey(s), u, ttl), later, s) == None
    ensures ttl == 0 ==> RedisStore.AfterSetEx(m, now, UrlKey(s), u, ttl) == m
  {
  }

  /** After `invalidateCachedUrl(s)`, `getCachedUrl(s)` returns null. */
  lemma InvalidateThenGetCached(m: RedisStore.Entries, s: string, later: nat)
    ensures CachedUrl(RedisStore.AfterDel(m, UrlKey(s)), later, s) == None
  {
  }

  /** Writing or deleting one shortcode's entry leaves every other shortcode's entry as it was. */
  lemma {:induction false} OtherShortcodesUnaffected(m: RedisStore.Entries, now: nat, s: string, u: string, ttl: nat, other: string, t: nat)
    requires other != s
    ensures CachedUrl(RedisStore.AfterSetEx(m, now, UrlKey(s), u, ttl), t, other) == CachedUrl(m, t, other)
    ensures CachedUrl(RedisStore.AfterDel(m, UrlKey(s)), t, other) == CachedUrl(m, t, other)
  {
    UrlKeyInjective(s, other);
  }

  /** Whether the cache can be used at all: `connectRedis` has run and the server is reachable. */
  predicate Available(conn: RedisConfig.RedisSingleton)
    reads conn, conn.redis
  {
    conn.redis != null && conn.redis.reachable
  }

  /** A cache command changes only the key space: the server's clock and reachability stay as they were. */
  twostate predicate ClockAndLinkKept(conn: RedisConfig.RedisSingleton)
    reads conn, conn.redis
    requires conn.redis != null && old(conn.redis) == conn.redis
  {
    conn.redis.now == old(conn.redis.now) && conn.redis.reachable == old(conn.redis.reachable)
  }

  /** `getCachedUrl`: the cached destination, or null on a miss and on any error. */
  method GetCachedUrl(conn: RedisConfig.RedisSingleton, shortcode: string) returns (cached: Option<string>)
    ensures Available(conn) ==> cached == CachedUrl(conn.redis.entries, conn.redis.now, shortcode)
    ensures !Available(conn) ==> cached == None
  {
    var client := conn.GetRedis();
    if client.Err? {
      return None;
    }
    var reply := client.value.Get(UrlKey(shortcode));
    match reply
    case Ok(Some(s)) => cached := Some(s);
    case _ => cached := None;
  }

  /** `setCachedUrl`: stores `longUrl` under the shortcode with the configured TTL; on any error nothing changes. */
  method SetCachedUrl(conn: RedisConfig.RedisSingleton, shortcode: string, longUrl: string, ttl: nat)
    modifies conn.redis
    ensures conn.redis != null ==> ClockAndLinkKept(conn)
    ensures conn.redis != null ==> (conn.redis.entries ==
      if old(conn.redis.reachable)
      then RedisStore.AfterSetEx(old(conn.redis.entries), conn.redis.now, UrlKey(shortcode), longUrl, ttl)
      else old(conn.redis.entries))
  {
    var client := conn.GetRedis();
    if client.Err? {
      return;
    }
    var _ := client.value.SetEx(UrlKey(shortcode), longUrl, ttl);
  }

  /** `invalidateCachedUrl`: deletes the shortcode's entry; on any error nothing changes. */
  method InvalidateCachedUrl(conn: RedisConfig.RedisSingleton, shortcode: string)
    modifies conn.redis
    ensures conn.redis != null ==> ClockAndLinkKept(conn)
    ensures conn.redis != null ==> (conn.redis.entries ==
      if old(conn.redis.reachable)
      then RedisStore.AfterDel(old(conn.redis.entries), UrlKey(shortcode))
      else old(conn.redis.entries))
  {
    var client := conn.GetRedis();
    if client.Err? {
      return;
    }
    var _ := client.value.Del(UrlKey(shortcode));
  }

  /**
   * `warmCache(shortcode, longUrl)`: a best-effort cache write. What it
   * promises is only that it touches no entry but the shortcode's own, and
   * that this entry is either left as it was or holds `longUrl` with the
   * configured TTL.
   */
  method WarmCache(conn: RedisConfig.RedisSingleton, shortcode: string, longUrl: string, ttl: nat)
    modifies conn.redis
    ensures conn.redis != null ==> ClockAndLinkKept(conn)
    ensures conn.redis != null ==>
      conn.redis.entries == old(conn.redis.entries) ||
      conn.redis.entries == RedisStore.AfterSetEx(old(conn.redis.entries), conn.redis.now, UrlKey(shortcode), longUrl, ttl)
  {
    SetCachedUrl(conn, shortcode, longUrl, ttl);
  }
}
