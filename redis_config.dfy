/**
 * The url-service's Redis client configuration: the reconnect back-off it
 * gives the client, and the module-level client that `getRedis` hands out
 * once `connectRedis` has created it.
 */
module RedisConfig {
  import opened Wrappers
  import RedisStore

  const MAX_RETRIES: int := 10
  const RETRY_STEP_MS: int := 200
  const RETRY_CAP_MS: int := 10000

  /**
   * `retryStrategy(times)`: give up (null) after the tenth retry, otherwise
   * wait `min(times * 200, 10000)` milliseconds.
   */
  function RetryStrategy(times: int): Option<int>
  {
    if times > MAX_RETRIES then None else Some(Min(times * RETRY_STEP_MS, RETRY_CAP_MS))
  }

  function Min(a: int, b: int): int {
    if a <= b then a else b
  }

  /**
   * For the attempts that are retried at all the cap never applies: the
   * delay is exactly `times * 200`, so at most 2000 ms, never the 10000 ms
   * the cap allows.
   */
  lemma RetryDelayIsLinear(times: int)
    ensures RetryStrategy(times).None? <==> times > MAX_RETRIES
    ensures times <= MAX_RETRIES ==> RetryStrategy(times) == Some(times * RETRY_STEP_MS)
    ensures times <= MAX_RETRIES ==> RetryStrategy(times).value <= 2000 < RETRY_CAP_MS
  {
  }

  /** Each retry waits strictly longer than the one before it. */
  lemma RetryDelayIncreasing(a: int, b: int)
    requires a < b <= MAX_RETRIES
    ensures RetryStrategy(a).value < RetryStrategy(b).value
  {
  }

  /** The module-level `redis` variable: absent until `connectRedis` assigns it. */
  class RedisSingleton {
    var redis: RedisStore.Store?

    constructor ()
      ensures redis == null
    {
      redis := null;
    }

    /** `connectRedis`: creates the client and keeps it. */
    method ConnectRedis()
      modifies this
      ensures redis != null && fresh(redis)
      ensures redis.reachable && redis.entries == map[]
    {
      redis := new RedisStore.Store();
    }

    /** `getRedis`: the client, or the error "Redis not initialised" when `connectRedis` has not run. */
    method GetRedis() returns (r: Result<RedisStore.Store, string>)
      ensures r.Ok? <==> redis != null
      ensures r.Ok? ==> r.value == redis
      ensures r.Err? ==> r.error == "Redis not initialised — call connectRedis() first"
    {
      if redis == null {
        r := Err("Redis not initialised — call connectRedis() first");
      } else {
        r := Ok(redis);
      }
    }
  }
}
