/**
 * How the cache and the URL table stay in step. A cache hit is answered
 * without consulting the table, so the redirect answers as the table alone
 * would only while every live cache entry names an active record with the
 * same destination. The redirect's write-back, `createUrl`, the clock, the
 * rate limiter's counters and `deleteUrl` with a reachable Redis all keep
 * that agreement; a soft delete whose invalidation is lost breaks it, and a
 * deleted link then keeps redirecting until its entry's TTL runs out.
 */
module CacheCoherence {
  import opened Wrappers
  import Http
  import RedisStore
  import Cache
  import UrlTable
  import Redirect
  import RateLimiter

  /** Every live cache entry holds the destination of an active row with that shortcode. */
  ghost predicate Coherent(m: RedisStore.Entries, now: nat, rows: seq<UrlTable.UrlRecord>) {
    forall c :: Cache.CachedUrl(m, now, c).Some? ==>
      var rec := UrlTable.FindByCode(rows, c);
      rec.Some? && rec.value.isActive && rec.value.longUrl == Cache.CachedUrl(m, now, c).value
  }

  /**
   * With a coherent cache, every redirect answers exactly as the table
   * alone would, whether Redis can be used or not, as long as the database
   * answers. During a database outage a miss fails, but a hit still gives
   * the answer the table holds.
   */
  lemma CoherentRedirectMatchesDatabase(m: RedisStore.Entries, now: nat, available: bool, dbReachable: bool,
                                        rows: seq<UrlTable.UrlRecord>, shortcode: Option<string>)
    requires Coherent(m, now, rows)
    ensures var code := shortcode.GetOr("");
      var cached := if available then Cache.CachedUrl(m, now, code) else None;
      var answer := Redirect.Respond(shortcode, cached, UrlTable.Query(dbReachable, UrlTable.FindByCode(rows, code)));
      && (dbReachable ==> answer == Redirect.ResolveFromDatabase(shortcode, UrlTable.FindByCode(rows, code)))
      && (!answer.DbFailed? ==> answer == Redirect.ResolveFromDatabase(shortcode, UrlTable.FindByCode(rows, code)))
  {
  }

  /**
   * The redirect's write-back stores an active row's own destination, and a
   * failed query writes nothing, so the redirect keeps the agreement.
   */
  lemma {:induction false} RedirectKeepsCoherence(m: RedisStore.Entries, now: nat, reachable: bool, ttl: nat, dbReachable: bool,
                                                  rows: seq<UrlTable.UrlRecord>, shortcode: Option<string>, cached: Option<string>)
    requires Coherent(m, now, rows)
    ensures Coherent(Redirect.CacheAfterQuery(m, now, reachable, ttl, shortcode, cached,
                                              UrlTable.Query(dbReachable, UrlTable.FindByCode(rows, shortcode.GetOr("")))), now, rows)
  {
    var rec := UrlTable.FindByCode(rows, shortcode.GetOr(""));
    if dbReachable && Redirect.WritesBack(shortcode, cached, rec) && reachable && ttl > 0 {
      var s := shortcode.value;
      var m' := RedisStore.AfterSetEx(m, now, Cache.UrlKey(s), rec.value.longUrl, ttl);
      forall c | Cache.CachedUrl(m', now, c).Some?
        ensures UrlTable.FindByCode(rows, c).Some? && UrlTable.FindByCode(rows, c).value.isActive
             && UrlTable.FindByCode(rows, c).value.longUrl == Cache.CachedUrl(m', now, c).value
      {
        if c == s {
          Cache.SetThenGetCached(m, now, s, rec.value.longUrl, ttl, now);
        } else {
          Cache.OtherShortcodesUnaffected(m, now, s, rec.value.longUrl, ttl, c, now);
        }
      }
    }
  }

  /** Appending a row with a fresh shortcode leaves every other lookup as it was and makes that shortcode find the new row. */
  lemma {:induction false} FindByCodeAppend(rows: seq<UrlTable.UrlRecord>, rec: UrlTable.UrlRecord, c: string)
    requires UrlTable.FindByCode(rows, rec.shortcode).None?
    ensures UrlTable.FindByCode(rows + [rec], c) == if c == rec.shortcode then Some(rec) else UrlTable.FindByCode(rows, c)
    decreases |rows|
  {
    if rows == [] {
      assert [] + [rec] == [rec];
    } else {
      assert (rows + [rec])[0] == rows[0];
      assert (rows + [rec])[1..] == rows[1..] + [rec];
      if rows[0].shortcode != c {
        FindByCodeAppend(rows[1..], rec, c);
      }
    }
  }

  /**
   * `createUrl` appends a row whose shortcode was free, then may cache that
   * row's destination: in both outcomes of the best-effort cache write the
   * agreement is kept.
   */
  lemma {:induction false} CreateKeepsCoherence(m: RedisStore.Entries, now: nat, ttl: nat, rows: seq<UrlTable.UrlRecord>, rec: UrlTable.UrlRecord, warmed: bool)
    requires Coherent(m, now, rows)
    requires UrlTable.FindByCode(rows, rec.shortcode).None? && rec.isActive
    ensures var m' := if warmed then RedisStore.AfterSetEx(m, now, Cache.UrlKey(rec.shortcode), rec.longUrl, ttl) else m;
      Coherent(m', now, rows + [rec])
  {
    var m' := if warmed then RedisStore.AfterSetEx(m, now, Cache.UrlKey(rec.shortcode), rec.longUrl, ttl) else m;
    var rows' := rows + [rec];
    forall c | Cache.CachedUrl(m', now, c).Some?
      ensures UrlTable.FindByCode(rows', c).Some? && UrlTable.FindByCode(rows', c).value.isActive
           && UrlTable.FindByCode(rows', c).value.longUrl == Cache.CachedUrl(m', now, c).value
    {
      FindByCodeAppend(rows, rec, c);
      if warmed && ttl > 0 {
        if c == rec.shortcode {
          Cache.SetThenGetCached(m, now, c, rec.longUrl, ttl, now);
        } else {
          Cache.OtherShortcodesUnaffected(m, now, rec.shortcode, rec.longUrl, ttl, c, now);
        }
      }
    }
  }

  /**
   * `deleteUrl` with a reachable Redis: the row turns inactive and its
   * cache entry is gone, so no live entry names it any more.
   */
  lemma {:induction false} DeleteKeepsCoherence(m: RedisStore.Entries, now: nat, rows: seq<UrlTable.UrlRecord>, id: string)
    requires Coherent(m, now, rows) && UrlTable.Unique(rows)
    requires UrlTable.FindById(rows, id).Some?
    ensures Coherent(RedisStore.AfterDel(m, Cache.UrlKey(UrlTable.FindById(rows, id).value.shortcode)), now,
                     UrlTable.Deactivated(rows, id))
  {
    var target := UrlTable.FindById(rows, id).value;
    var m' := RedisStore.AfterDel(m, Cache.UrlKey(target.shortcode));
    var rows' := UrlTable.Deactivated(rows, id);
    forall c | Cache.CachedUrl(m', now, c).Some?
      ensures UrlTable.FindByCode(rows', c).Some? && UrlTable.FindByCode(rows', c).value.isActive
           && UrlTable.FindByCode(rows', c).value.longUrl == Cache.CachedUrl(m', now, c).value
    {
      if c == target.shortcode {
        Cache.InvalidateThenGetCached(m, c, now);
      } else {
        Cache.OtherShortcodesUnaffected(m, now, target.shortcode, "", 0, c, now);
        UrlTable.DeactivatedLookup(rows, id, c);
      }
    }
  }

  /** Time only makes entries expire, so the agreement holds at every later moment. */
  lemma {:induction false} TimeKeepsCoherence(m: RedisStore.Entries, now: nat, later: nat, rows: seq<UrlTable.UrlRecord>)
    requires Coherent(m, now, rows) && now <= later
    ensures Coherent(m, later, rows)
  {
    forall c | Cache.CachedUrl(m, later, c).Some?
      ensures UrlTable.FindByCode(rows, c).Some? && UrlTable.FindByCode(rows, c).value.isActive
           && UrlTable.FindByCode(rows, c).value.longUrl == Cache.CachedUrl(m, later, c).value
    {
      RedisStore.LiveShrinksOverTime(m, now, later, Cache.UrlKey(c));
      assert Cache.CachedUrl(m, now, c) == Cache.CachedUrl(m, later, c);
    }
  }

  /** The two configured limiters count under "rl:" keys, which never collide with a "url:" cache key. */
  lemma {:induction false} LimiterKeepsCoherence(m: RedisStore.Entries, now: nat, reachable: bool, opts: RateLimiter.Options,
                                                 identifier: string, rows: seq<UrlTable.UrlRecord>)
    requires opts == RateLimiter.REDIRECT_LIMITER || opts == RateLimiter.API_LIMITER
    requires Coherent(m, now, rows)
    ensures Coherent(RateLimiter.LimitEffect(m, now, reachable, opts, identifier), now, rows)
  {
    var key := RateLimiter.CounterKey(opts.keyPrefix, identifier);
    var m' := RateLimiter.LimitEffect(m, now, reachable, opts, identifier);
    forall c ensures Cache.CachedUrl(m', now, c) == Cache.CachedUrl(m, now, c) {
      Cache.UrlKeyShape(c);
      assert key[0] == 'r';
      assert Cache.UrlKey(c)[0] == 'u';
      if reachable {
        RateLimiter.HitTouchesOnlyItsKey(m, now, key, RateLimiter.WindowSecs(opts.windowMs), Cache.UrlKey(c));
      }
    }
  }

  // ─── When the invalidation is lost ───────────────────────

  const STALE_ROWS: seq<UrlTable.UrlRecord> := [UrlTable.UrlRecord("1", "abc", "https://example.com", true, 0)]

  const STALE_CACHE: RedisStore.Entries :=
    map["url:abc" := RedisStore.Entry(RedisStore.Text("https://example.com"), Some(Cache.DEFAULT_CACHE_TTL_SECONDS))]

  /**
   * A link cached by a redirect and then deleted while Redis cannot be
   * reached: the soft delete lands, the invalidation is lost, and the next
   * redirect, once Redis is back, is a 302 to the deleted destination where
   * the table alone answers 410 Gone.
   */
  lemma StaleRedirectAfterLostInvalidation()
    ensures Coherent(STALE_CACHE, 0, STALE_ROWS)
    ensures var rows' := UrlTable.Deactivated(STALE_ROWS, "1");
      && !Coherent(STALE_CACHE, 0, rows')
      && Redirect.Resolve(Some("abc"), Cache.CachedUrl(STALE_CACHE, 0, "abc"), UrlTable.FindByCode(rows', "abc"))
         == Redirect.Found("https://example.com")
      && Redirect.ResolveFromDatabase(Some("abc"), UrlTable.FindByCode(rows', "abc"))
         == Redirect.Thrown(Http.AppError("AppError", "Short URL has been deleted", 410))
  {
    assert Cache.UrlKey("abc") == "url:abc";
    var rows' := UrlTable.Deactivated(STALE_ROWS, "1");
    assert rows'[0] == UrlTable.UrlRecord("1", "abc", "https://example.com", false, 0);
    assert Cache.CachedUrl(STALE_CACHE, 0, "abc") == Some("https://example.com");
    assert !UrlTable.FindByCode(rows', "abc").value.isActive;
    forall c | Cache.CachedUrl(STALE_CACHE, 0, c).Some?
      ensures UrlTable.FindByCode(STALE_ROWS, c).Some? && UrlTable.FindByCode(STALE_ROWS, c).value.isActive
           && UrlTable.FindByCode(STALE_ROWS, c).value.longUrl == Cache.CachedUrl(STALE_CACHE, 0, c).value
    {
      Cache.UrlKeyShape(c);
      assert Cache.UrlKey(c) == "url:abc";
      assert c == Cache.UrlKey(c)[4..];
    }
  }
}
