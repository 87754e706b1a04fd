/**
 * The url-service's rate limiter: a fixed-window counter per
 * `<prefix>:<identifier>` in Redis. Every request increments the counter;
 * the first request of a window gives the counter its expiry, so the window
 * starts then and later requests never move it. A request whose count
 * exceeds the maximum is answered 429. If Redis fails, the request is let
 * through.
 */
module RateLimiter {
  import opened Wrappers
  import opened Http
  import RedisStore
  import RedisConfig

  /** How the identifier is taken from a request. */
  datatype KeyFn = ByIp | ByUserThenIp

  /** The options `createRateLimiter` is given. */
  datatype Options = Options(windowMs: nat, max: int, keyPrefix: string, keyFn: KeyFn, message: Option<string>)

  /** The parts of a request the limiter looks at: the client address and the authenticated user, when known. */
  datatype Request = Request(ip: Option<string>, userId: Option<string>)

  /** The headers the limiter sets on the response. */
  datatype Headers = Headers(limit: int, remaining: int, reset: int, retryAfter: Option<int>)

  /** What the middleware does: the headers it set (none when Redis failed first), and how it called `next`. */
  datatype Outcome = Outcome(headers: Option<Headers>, next: Next)

  const DEFAULT_MESSAGE: string := "Too many requests"
  const SLOW_DOWN: string := "Too many requests — please slow down"
  const UNKNOWN: string := "unknown"

  /** `redirectLimiter`: 300 requests a minute per client address. */
  const REDIRECT_LIMITER: Options := Options(60 * 1000, 300, "rl:ip", ByIp, Some(SLOW_DOWN))

  /** `apiLimiter`: 60 requests a minute per user, or per address when there is no user. */
  const API_LIMITER: Options := Options(60 * 1000, 60, "rl:user", ByUserThenIp, Some(SLOW_DOWN))

  /** `Math.floor(windowMs / 1000)`. */
  function WindowSecs(windowMs: nat): nat {
    windowMs / 1000
  }

  /** `keyFn(req)`: `req.ip ?? "unknown"`, or `req.user?.userId ?? req.ip ?? "unknown"`. */
  function Identifier(keyFn: KeyFn, req: Request): string {
    match keyFn
    case ByIp => req.ip.GetOr(UNKNOWN)
    case ByUserThenIp => if req.userId.Some? then req.userId.value else req.ip.GetOr(UNKNOWN)
  }

  /** The counter's key. */
  function CounterKey(prefix: string, identifier: string): string {
    prefix + ":" + identifier
  }

  /** Both limiters have a 60-second window; the redirect limiter allows 300 requests, the API limiter 60. */
  lemma LimiterConstants()
    ensures WindowSecs(REDIRECT_LIMITER.windowMs) == 60 && REDIRECT_LIMITER.max == 300
    ensures WindowSecs(API_LIMITER.windowMs) == 60 && API_LIMITER.max == 60
    ensures REDIRECT_LIMITER.keyPrefix == "rl:ip" && API_LIMITER.keyPrefix == "rl:user"
  {
  }

  /** The redirect limiter keys by address; the API limiter prefers the user id, then the address, then "unknown". */
  lemma IdentifierChoice(req: Request)
    ensures Identifier(REDIRECT_LIMITER.keyFn, req) == if req.ip.Some? then req.ip.value else UNKNOWN
    ensures Identifier(API_LIMITER.keyFn, req) ==
      if req.userId.Some? then req.userId.value else if req.ip.Some? then req.ip.value else UNKNOWN
  {
  }

  /** Under one prefix, different identifiers never share a counter. */
  lemma {:induction false} CounterKeyInjective(prefix: string, a: string, b: string)
    requires a != b
    ensures CounterKey(prefix, a) != CounterKey(prefix, b)
  {
    var p := prefix + ":";
    assert CounterKey(prefix, a) == p + a && CounterKey(prefix, b) == p + b;
    assert (p + a)[|p|..] == a && (p + b)[|p|..] == b;
  }

  // ─── One request against the counter store ───────────────

  /** The key space after one request's INCR and, when the count is 1, its EXPIRE. */
  function AfterHit(m: RedisStore.Entries, now: nat, key: string, windowSecs: nat): RedisStore.Entries {
    var m1 := RedisStore.AfterIncr(m, now, key);
    if RedisStore.IncrReply(m, now, key) == Ok(1) then RedisStore.AfterExpire(m1, now, key, windowSecs) else m1
  }

  /** `Math.max(0, max - count)`. */
  function Remaining(max: int, count: int): int {
    if max - count < 0 then 0 else max - count
  }

  /** What the middleware does once it holds the count and the TTL read after the increment. */
  function Decide(opts: Options, count: int, ttl: int, nowMs: int): Outcome {
    var rejected := count > opts.max;
    Outcome(
      Some(Headers(opts.max, Remaining(opts.max, count), nowMs + ttl * 1000, if rejected then Some(ttl) else None)),
      if rejected then NextError(App(Http.Fail(opts.message.GetOr(DEFAULT_MESSAGE), 429))) else Proceed)
  }

  /** The outcome of one request against a store in state `m` at time `now`; any store failure fails open. */
  function LimitOutcome(m: RedisStore.Entries, now: nat, reachable: bool, opts: Options, identifier: string, nowMs: int): Outcome {
    var key := CounterKey(opts.keyPrefix, identifier);
    if !reachable then Outcome(None, Proceed)
    else match RedisStore.IncrReply(m, now, key)
      case Err(_) => Outcome(None, Proceed)
      case Ok(count) => Decide(opts, count, RedisStore.TtlReply(AfterHit(m, now, key, WindowSecs(opts.windowMs)), now, key), nowMs)
  }

  /** The store after one request; a failed request leaves it as it was. */
  function LimitEffect(m: RedisStore.Entries, now: nat, reachable: bool, opts: Options, identifier: string): RedisStore.Entries {
    var key := CounterKey(opts.keyPrefix, identifier);
    if reachable then AfterHit(m, now, key, WindowSecs(opts.windowMs)) else m
  }

  /** The limiter rejects exactly when the count exceeds the maximum; its own 429 goes to `next(error)` with Retry-After set to the TTL. */
  lemma DecideRejectsAboveMax(opts: Options, count: int, ttl: int, nowMs: int)
    ensures Decide(opts, count, ttl, nowMs).next.NextError? <==> count > opts.max
    ensures count > opts.max ==> Decide(opts, count, ttl, nowMs).next.error == App(Fail(opts.message.GetOr(DEFAULT_MESSAGE), 429))
    ensures count > opts.max <==> Decide(opts, count, ttl, nowMs).headers.value.retryAfter == Some(ttl)
  {
  }

  /** X-RateLimit-Remaining is never negative and never grows as the count grows. */
  lemma RemainingBounds(max: int, c1: int, c2: int)
    requires c1 <= c2
    ensures 0 <= Remaining(max, c2) <= Remaining(max, c1)
    ensures Remaining(max, c1) == if c1 <= max then max - c1 else 0
  {
  }

  /** When Redis cannot be used the request goes through with no headers, and nothing is counted. */
  lemma FailsOpen(m: RedisStore.Entries, now: nat, opts: Options, identifier: string, nowMs: int)
    ensures LimitOutcome(m, now, false, opts, identifier, nowMs) == Outcome(None, Proceed)
    ensures LimitEffect(m, now, false, opts, identifier) == m
  {
  }

  // ─── The fixed window ────────────────────────────────────

  /** The first request of a window counts 1 and opens a window of `windowSecs` seconds. */
  lemma FirstHitOpensWindow(m: RedisStore.Entries, now: nat, key: string, windowSecs: nat)
    requires !RedisStore.Live(m, now, key) && windowSecs > 0
    ensures RedisStore.IncrReply(m, now, key) == Ok(1)
    ensures key in AfterHit(m, now, key, windowSecs)
    ensures AfterHit(m, now, key, windowSecs)[key] == RedisStore.Entry(RedisStore.Counter(1), Some(now + windowSecs))
    ensures RedisStore.TtlReply(AfterHit(m, now, key, windowSecs), now, key) == windowSecs
  {
  }

  /** A later request in the window counts one more and leaves the expiry where the first request put it. */
  lemma LaterHitKeepsWindow(m: RedisStore.Entries, now: nat, key: string, windowSecs: nat, c: int, end: nat)
    requires key in m && m[key] == RedisStore.Entry(RedisStore.Counter(c), Some(end)) && now < end
    requires c >= 1
    ensures RedisStore.IncrReply(m, now, key) == Ok(c + 1)
    ensures key in AfterHit(m, now, key, windowSecs)
    ensures AfterHit(m, now, key, windowSecs)[key] == RedisStore.Entry(RedisStore.Counter(c + 1), Some(end))
    ensures RedisStore.TtlReply(AfterHit(m, now, key, windowSecs), now, key) == end - now
  {
  }

  /** Requests leave every other key's entry as it was. */
  lemma HitTouchesOnlyItsKey(m: RedisStore.Entries, now: nat, key: string, windowSecs: nat, other: string)
    requires other != key
    ensures other in AfterHit(m, now, key, windowSecs) <==> other in m
    ensures other in m ==> AfterHit(m, now, key, windowSecs)[other] == m[other]
  {
  }

  /** Successive requests at the given times, replayed against the store. */
  function Hits(m: RedisStore.Entries, key: string, windowSecs: nat, times: seq<nat>): RedisStore.Entries
    decreases |times|
  {
    if times == [] then m else Hits(AfterHit(m, times[0], key, windowSecs), key, windowSecs, times[1..])
  }

  predicate NonDecreasing(times: seq<nat>) {
    forall i, j :: 0 <= i < j < |times| ==> times[i] <= times[j]
  }

  /** Requests inside a window that has `c` on its counter count on from `c`, and the window's end stays put. */
  lemma {:induction false} HitsInsideWindow(m: RedisStore.Entries, key: string, windowSecs: nat, times: seq<nat>, c: int, end: nat)
    requires key in m && m[key] == RedisStore.Entry(RedisStore.Counter(c), Some(end)) && c >= 1
    requires forall i :: 0 <= i < |times| ==> times[i] < end
    ensures key in Hits(m, key, windowSecs, times)
    ensures Hits(m, key, windowSecs, times)[key] == RedisStore.Entry(RedisStore.Counter(c + |times|), Some(end))
    decreases |times|
  {
    if times != [] {
      LaterHitKeepsWindow(m, times[0], key, windowSecs, c, end);
      var m1 := AfterHit(m, times[0], key, windowSecs);
      assert forall i :: 0 <= i < |times[1..]| ==> times[1..][i] < end by {
        forall i | 0 <= i < |times[1..]| ensures times[1..][i] < end {
          assert times[1..][i] == times[i + 1];
        }
      }
      HitsInsideWindow(m1, key, windowSecs, times[1..], c + 1, end);
    }
  }

  /**
   * In a window opened at `times[0]` (the key did not exist then), the
   * request with index i sees count i + 1, and so is let through exactly
   * when i < max: requests 1..max pass and request max + 1 is rejected, with
   * a Retry-After of at least 1 and at most the window length.
   */
  lemma {:induction false} WindowAdmitsExactlyMax(m: RedisStore.Entries, opts: Options, identifier: string, times: seq<nat>, i: nat, nowMs: int)
    requires WindowSecs(opts.windowMs) > 0
    requires |times| > 0 && i < |times| && NonDecreasing(times)
    requires times[|times| - 1] < times[0] + WindowSecs(opts.windowMs)
    requires !RedisStore.Live(m, times[0], CounterKey(opts.keyPrefix, identifier))
    ensures var key := CounterKey(opts.keyPrefix, identifier);
            var before := Hits(m, key, WindowSecs(opts.windowMs), times[..i]);
            var out := LimitOutcome(before, times[i], true, opts, identifier, nowMs);
            && RedisStore.IncrReply(before, times[i], key) == Ok(i + 1)
            && (out.next.NextError? <==> i + 1 > opts.max)
            && out.headers.Some?
            && 1 <= RedisStore.TtlReply(AfterHit(before, times[i], key, WindowSecs(opts.windowMs)), times[i], key) <= WindowSecs(opts.windowMs)
  {
    var key := CounterKey(opts.keyPrefix, identifier);
    var w := WindowSecs(opts.windowMs);
    var end := times[0] + w;
    var before := Hits(m, key, w, times[..i]);
    if i == 0 {
      assert times[..0] == [];
      FirstHitOpensWindow(m, times[0], key, w);
    } else {
      FirstHitOpensWindow(m, times[0], key, w);
      var m1 := AfterHit(m, times[0], key, w);
      var rest := times[..i][1..];
      assert Hits(m, key, w, times[..i]) == Hits(m1, key, w, rest);
      forall j | 0 <= j < |rest| ensures rest[j] < end {
        assert rest[j] == times[j + 1];
        assert times[j + 1] <= times[|times| - 1];
      }
      HitsInsideWindow(m1, key, w, rest, 1, end);
      assert before[key] == RedisStore.Entry(RedisStore.Counter(i), Some(end));
      assert times[i] <= times[|times| - 1];
      assert times[0] <= times[i];
      LaterHitKeepsWindow(before, times[i], key, w, i, end);
    }
  }

  /** Once the window has ended the counter starts again at 1, so the next request is let through (when max >= 1). */
  lemma WindowResetsAfterExpiry(m: RedisStore.Entries, now: nat, opts: Options, identifier: string, end: nat, nowMs: int)
    requires var key := CounterKey(opts.keyPrefix, identifier); key in m && m[key].expiresAt == Some(end) && end <= now
    requires opts.max >= 1
    ensures RedisStore.IncrReply(m, now, CounterKey(opts.keyPrefix, identifier)) == Ok(1)
    ensures LimitOutcome(m, now, true, opts, identifier, nowMs).next == Proceed
  {
  }

  // ─── When EXPIRE is lost ─────────────────────────────────

  /**
   * If the first INCR of a window succeeds and the EXPIRE after it fails,
   * the request fails open and leaves a counter at 1 with no expiry.
   */
  lemma LostExpireLeavesCounterWithoutTtl(m: RedisStore.Entries, now: nat, key: string)
    requires !RedisStore.Live(m, now, key)
    ensures RedisStore.IncrReply(m, now, key) == Ok(1)
    ensures key in RedisStore.AfterIncr(m, now, key)
    ensures RedisStore.AfterIncr(m, now, key)[key] == RedisStore.Entry(RedisStore.Counter(1), None)
    ensures RedisStore.TtlReply(RedisStore.AfterIncr(m, now, key), now, key) == -1
  {
  }

  /**
   * A counter without an expiry is never reset: every later request counts
   * on from it, and none of them sets an expiry, since none sees the count 1.
   */
  lemma {:induction false} CounterWithoutExpiryNeverResets(m: RedisStore.Entries, key: string, windowSecs: nat, times: seq<nat>, c: int)
    requires key in m && m[key] == RedisStore.Entry(RedisStore.Counter(c), None) && c >= 1
    ensures key in Hits(m, key, windowSecs, times)
    ensures Hits(m, key, windowSecs, times)[key] == RedisStore.Entry(RedisStore.Counter(c + |times|), None)
    decreases |times|
  {
    if times != [] {
      var m1 := AfterHit(m, times[0], key, windowSecs);
      assert RedisStore.IncrReply(m, times[0], key) == Ok(c + 1);
      assert m1[key] == RedisStore.Entry(RedisStore.Counter(c + 1), None);
      CounterWithoutExpiryNeverResets(m1, key, windowSecs, times[1..], c + 1);
    }
  }

  /**
   * Once such a counter has reached the maximum, every request for that
   * identifier is refused, at any time, with Retry-After -1, a remaining
   * quota of 0 and a reset time one second in the past.
   */
  lemma LockedOutWithoutExpiry(m: RedisStore.Entries, now: nat, opts: Options, identifier: string, c: int, nowMs: int)
    requires var key := CounterKey(opts.keyPrefix, identifier);
      key in m && m[key] == RedisStore.Entry(RedisStore.Counter(c), None) && c >= 1 && c >= opts.max
    ensures LimitOutcome(m, now, true, opts, identifier, nowMs) ==
      Outcome(Some(Headers(opts.max, 0, nowMs - 1000, Some(-1))),
              NextError(App(Http.Fail(opts.message.GetOr(DEFAULT_MESSAGE), 429))))
  {
    var key := CounterKey(opts.keyPrefix, identifier);
    assert RedisStore.IncrReply(m, now, key) == Ok(c + 1);
    assert AfterHit(m, now, key, WindowSecs(opts.windowMs))[key] == RedisStore.Entry(RedisStore.Counter(c + 1), None);
  }

  // ─── The middleware ──────────────────────────────────────

  /**
   * The middleware `createRateLimiter(opts)` returns, for one request: INCR,
   * EXPIRE on the first hit, TTL, then the headers, then `next()` or
   * `next(error)`.
   */
  method Limit(conn: RedisConfig.RedisSingleton, opts: Options, req: Request, nowMs: int) returns (out: Outcome)
    modifies conn.redis
    ensures conn.redis == null ==> out == Outcome(None, Proceed)
    ensures conn.redis != null ==> conn.redis.now == old(conn.redis.now) && conn.redis.reachable == old(conn.redis.reachable)
    ensures conn.redis != null ==>
      out == LimitOutcome(old(conn.redis.entries), conn.redis.now, conn.redis.reachable, opts, Identifier(opts.keyFn, req), nowMs)
    ensures conn.redis != null ==>
      conn.redis.entries == LimitEffect(old(conn.redis.entries), conn.redis.now, conn.redis.reachable, opts, Identifier(opts.keyFn, req))
  {
    var client := conn.GetRedis();
    if client.Err? {
      // getRedis threw: fail open
      return Outcome(None, Proceed);
    }
    var redis := client.value;
    var windowSecs := WindowSecs(opts.windowMs);
    var identifier := Identifier(opts.keyFn, req);
    var key := CounterKey(opts.keyPrefix, identifier);

    var count := redis.Incr(key);
    if count.Err? {
      return Outcome(None, Proceed);
    }
    if count.value == 1 {
      var expired := redis.Expire(key, windowSecs);
      if expired.Err? {
        return Outcome(None, Proceed);
      }
    }
    var ttl := redis.Ttl(key);
    if ttl.Err? {
      return Outcome(None, Proceed);
    }
    out := Decide(opts, count.value, ttl.value, nowMs);
  }
}
