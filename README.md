# URL shortener messaging app: a Dafny model

This project models the core of a URL shortener built from four Node.js
services. It covers:

- **url-service**
  - It creates, lists and soft-deletes short links.
  - It redirects through a Redis cache-aside layer.
  - It rate-limits requests with fixed-window Redis counters.
- **analytics-worker**: it consumes click events from a RabbitMQ queue and stores them in MongoDB.
- **analytics-service**: it counts and ranks the stored clicks.
- **auth-service**: it logs users in with Google, issues JWT access and refresh tokens, and revokes them on logout.

The stores are modelled as Dafny classes whose methods change their fields: Redis, the two PostgreSQL tables, the MongoDB collection and the RabbitMQ channel. A request handler that changes a store is a method over those stores, specified by pure functions of the state that goes into it. The read-only handlers are pure functions of what they read: `getStats`, `getSummary`, `listUrls` and `getMe`. The lemmas state what the code promises:

- a cache hit and a cache miss answer alike while the cache is coherent with the table;
- requests 1..max of a window pass and request max+1 is refused;
- every consumed message gets exactly one acknowledgement;
- a top-five list really is the top five;
- a logout revokes every refresh token of that user.

Time is a natural-number clock, in seconds for Redis and in milliseconds for the analytics. Outside inputs are parameters:

- the shortcode from `nanoid`;
- the id and timestamp the database assigns;
- URL and ISO-date parsing;
- JWT signing and verifying.

Two pieces of code disagree with their comments. The model follows the code in both:

- The rate limiter's comment calls it a sliding window. The code is a fixed window: the expiry is set only on the first increment.
- The Redis client's comment promises exponential backoff up to 10 seconds. The code waits `times * 200` ms, a linear delay, and gives up after ten retries, so at most 2 seconds.

Some called functions do not exist in the files they are imported from:
- `authController.ts` imports `signAccessToken`, `signRefreshToken` and `verifyRefreshToken` from the auth-service's `jwt.ts`, which exports only `signToken` and `verifyToken`.
- The auth-service's `authenticate.ts` imports `verifyAccessToken` from that same file, which does not export it either.
- The url-service's `urlController.ts` imports `warmCache` from `cache.ts`, which does not define it.

The model gives the JWT functions the shape of the url-service's `verifyAccessToken` (`Jwt.Keys`): they never throw, and they answer `None` for a token that fails. `warmCache` is modelled as the best-effort cache write its call site expects: the entry either stays as it was or is written as `setCachedUrl` would write it. Taken as written, the call at services/url-service/src/controllers/urlController.ts:37 would throw a TypeError after `prisma.url.create` has stored the row, so the client would get a 500 while the link exists; the model does not follow that path (see "Left out").

## Model

| member | source | states |
|---|---|---|
| RedisConfig.RetryDelayIsLinear | services/url-service/src/config/redis.ts:22-30 | Retrying stops after the tenth attempt. Until then the delay is exactly `times * 200` ms, so the 10 s cap is never reached. |
| RedisConfig.RetryDelayIncreasing | services/url-service/src/config/redis.ts:27 | Each retry waits strictly longer than the one before. |
| RedisConfig.RedisSingleton.ConnectRedis | services/url-service/src/config/redis.ts:62-70 | Assigns a new client, reachable and with an empty key space, to the module's `redis` variable. |
| RedisConfig.RedisSingleton.GetRedis | services/url-service/src/config/redis.ts:88-93 | Gives the client once `connectRedis` has run; before that it gives the "Redis not initialised" error. |
| Cache.UrlKeyShape | services/url-service/src/config/cache.ts:8-10 | A cache key is "url:" followed by the shortcode, which can be read back from it. |
| Cache.UrlKeyInjective | services/url-service/src/config/cache.ts:10 | Different shortcodes never share a key. |
| Cache.SetThenGetCached | services/url-service/src/config/cache.ts:15-50 | After a set, a get before the TTL runs out returns the value just set. |
| Cache.SetExpiresAfterTtl | services/url-service/src/config/cache.ts:49 | With a positive TTL, the entry is gone exactly that many seconds after the write; no jitter is added. A TTL of 0 writes nothing. |
| Cache.InvalidateThenGetCached | services/url-service/src/config/cache.ts:63-66 | After an invalidation, a get returns null. |
| Cache.OtherShortcodesUnaffected | services/url-service/src/config/cache.ts:49-66 | A set or an invalidation leaves every other shortcode's entry as it was. |
| Cache.GetCachedUrl | services/url-service/src/config/cache.ts:15-35 | Returns what the store holds under the key. Without a client or while Redis is unreachable it returns null and throws nothing. |
| Cache.SetCachedUrl | services/url-service/src/config/cache.ts:40-57 | Writes the URL with the configured TTL (`env.CACHE_TTL_SECONDS`, services/url-service/src/config/env.ts:24). On any error nothing changes and nothing is thrown. |
| Cache.InvalidateCachedUrl | services/url-service/src/config/cache.ts:63-73 | Deletes the key. On any error nothing changes and nothing is thrown. |
| Cache.WarmCache | services/url-service/src/controllers/urlController.ts:37 | The shortcode's entry is either left alone or written as `setCachedUrl` writes it, and no other key is touched. |
| RateLimiter.LimiterConstants | services/url-service/src/middleware/rateLimiter.ts:97-118 | Both limiters have a 60 s window (floor of windowMs/1000). The redirect limiter allows 300 requests per window and the API limiter 60. |
| RateLimiter.IdentifierChoice | services/url-service/src/middleware/rateLimiter.ts:101-116 | The redirect limiter keys by IP, else "unknown". The API limiter keys by userId, else IP, else "unknown". |
| RateLimiter.CounterKeyInjective | services/url-service/src/middleware/rateLimiter.ts:40-41 | Under one prefix, different identifiers never share a counter. |
| RateLimiter.DecideRejectsAboveMax | services/url-service/src/middleware/rateLimiter.ts:62-73 | Rejects exactly when the count exceeds max. The 429 with the configured message goes to `next(error)`, and Retry-After is set exactly then, to the TTL. |
| RateLimiter.RemainingBounds | services/url-service/src/middleware/rateLimiter.ts:58 | Remaining is max(0, max - count). It is never negative and does not grow as the count grows. |
| RateLimiter.FailsOpen | services/url-service/src/middleware/rateLimiter.ts:76-87 | When Redis is unreachable the request passes with no headers and nothing is counted. |
| RateLimiter.FirstHitOpensWindow | services/url-service/src/middleware/rateLimiter.ts:44-51 | The first request counts 1 and sets the expiry `windowSecs` ahead. |
| RateLimiter.LaterHitKeepsWindow | services/url-service/src/middleware/rateLimiter.ts:44-51 | A later request in the window adds one and leaves the expiry where it was. |
| RateLimiter.HitTouchesOnlyItsKey | services/url-service/src/middleware/rateLimiter.ts:41-50 | A request changes no key but its own counter. |
| RateLimiter.HitsInsideWindow | services/url-service/src/middleware/rateLimiter.ts:44-51 | Requests inside an open window count on from the counter's value, and the window's end stays put. |
| RateLimiter.WindowAdmitsExactlyMax | services/url-service/src/middleware/rateLimiter.ts:44-73 | Request i+1 of a window sees count i+1 and is refused exactly when i+1 > max. Its TTL lies in 1..windowSecs. |
| RateLimiter.WindowResetsAfterExpiry | services/url-service/src/middleware/rateLimiter.ts:44-51 | Once the window has expired, the counter starts again at 1. |
| RateLimiter.Limit | services/url-service/src/middleware/rateLimiter.ts:32-88 | The outcome and the new key space are those of one request against the old store, and the clock is unchanged. Without a client the request passes. |
| RateLimiter.LostExpireLeavesCounterWithoutTtl | services/url-service/src/middleware/rateLimiter.ts:44-54 | If the INCR that opens a window lands but its EXPIRE is lost, the counter holds 1 with no expiry, and TTL answers -1. |
| RateLimiter.CounterWithoutExpiryNeverResets | services/url-service/src/middleware/rateLimiter.ts:44-51 | A counter without an expiry only counts up: no later request sets an expiry, so the window never resets. |
| RateLimiter.LockedOutWithoutExpiry | services/url-service/src/middleware/rateLimiter.ts:44-73 | Once such a counter has reached max, every further request is refused with 429, Remaining 0 and Retry-After -1, and X-RateLimit-Reset lies one second in the past. |
| Redirect.EarlyAnswers | services/url-service/src/controllers/redirectController.ts:34-42 | A missing or empty shortcode is 400 "Shortcode is required". "favicon.ico" is 204. Neither depends on the cache or the database. |
| Redirect.HitIgnoresDatabase | services/url-service/src/controllers/redirectController.ts:44-55 | A cache hit is a 302 to the cached value whatever the database holds, an inactive record included. |
| Redirect.MissAnswers | services/url-service/src/controllers/redirectController.ts:58-88 | On a miss: no record is 404 "Short URL not found", an inactive record is 410 "Short URL has been deleted", and otherwise the answer is a 302 to longUrl. |
| Redirect.MissThenHit | services/url-service/src/controllers/redirectController.ts:80-88 | After a miss on an active record writes back, the next request before the TTL runs out is a hit with the same target. |
| Redirect.OutageSurfacesOnMiss | services/url-service/src/controllers/redirectController.ts:44-64 | With the URL table unreachable, a miss fails with the database's error and writes nothing back, while a hit is still answered from the cache. With the table up the answer is the resolution of the row found. The query fails exactly on a miss. |
| Redirect.HandleRedirect | services/url-service/src/controllers/redirectController.ts:28-89 | The answer is the resolution of the cache read and the query's result; a failed query escapes as the database's error. The database is queried exactly once, and only on a miss. The cache is written, with the configured TTL, only on an active miss whose query succeeded. |
| UrlTable.FindByCodeExact | services/url-service/src/controllers/redirectController.ts:58-64 | In a table with unique shortcodes, the lookup finds the one row with that code. |
| UrlTable.DeactivatedUnique | services/url-service/src/controllers/urlController.ts:116-119 | Soft deletion keeps the unique constraints. |
| UrlTable.DeactivatedLookup | services/url-service/src/controllers/urlController.ts:116-119 | Soft deletion turns only the deleted row inactive; every other lookup is unchanged. |
| UrlTable.Table.FindUniqueByCode | services/url-service/src/controllers/redirectController.ts:58-64 | Gives the row with that shortcode, or none, while the table is reachable; otherwise the "Can't reach database server" error. |
| UrlTable.Table.FindUniqueById | services/url-service/src/controllers/urlController.ts:100-102 | Gives the row with that id, or none, while the table is reachable; otherwise the "Can't reach database server" error. |
| UrlTable.Table.Create | services/url-service/src/controllers/urlController.ts:35 | Appends a new active row exactly when the table is reachable and the id and shortcode are free. A taken id or shortcode is the unique-constraint error, an unreachable table the connection error, and either changes nothing. |
| UrlTable.Table.Deactivate | services/url-service/src/controllers/urlController.ts:116-119 | Clears isActive on the row with that id and on no other row. An unreachable table or a missing id fails and changes nothing. |
| UrlController.CreateUrl | services/url-service/src/controllers/urlController.ts:14-51 | An unreachable table is the database's error (a 500) and nothing changes. A taken custom code is 409 "Custom code '<c>' is already taken" and nothing is created; a taken generated code or id is the unique-constraint error. The code used is the custom code verbatim, else the 7-character generated one. It succeeds exactly when the table is reachable and the id and code are free; then one row is appended, the cache is warmed for that code with the configured TTL, and shortUrl is BASE_URL/code. |
| UrlController.ListUrlsContents | services/url-service/src/controllers/urlController.ts:55-80 | One item per active row and nothing else, newest first. Each item's shortUrl is BASE_URL + "/" + its shortcode, and count is the number of items. |
| UrlController.DeleteUrl | services/url-service/src/controllers/urlController.ts:97-132 | An unreachable table is the database's error (a 500). An unknown id is 404 "URL not found" and an inactive record is 410 "URL is already deleted". None of these cases changes anything. Otherwise only isActive is cleared, and the record's cache key is then deleted if Redis can be used. |
| UrlController.DeactivatedFindById | services/url-service/src/controllers/urlController.ts:100-119 | After a soft delete, looking up the id finds the same row, now inactive. |
| UrlController.FindByIdExact | services/url-service/src/controllers/urlController.ts:100-102 | In a table with unique ids, a lookup finds the one row with that id. |
| UrlController.DeleteTwice | services/url-service/src/controllers/urlController.ts:108-119 | When an active id is deleted twice with the table reachable, the first call succeeds and the second is a 410. |
| CacheCoherence.CoherentRedirectMatchesDatabase | services/url-service/src/controllers/redirectController.ts:44-88 | With a coherent cache every redirect answers as the table alone would, whether Redis can be used or not, unless the database query itself fails; with the table reachable it always does. |
| CacheCoherence.RedirectKeepsCoherence | services/url-service/src/controllers/redirectController.ts:58-88 | The write-back stores an active row's own URL, whatever the TTL, and a failed query writes nothing, so the cache stays coherent. |
| CacheCoherence.FindByCodeAppend | services/url-service/src/controllers/urlController.ts:35 | Appending a row with a fresh shortcode makes that code find the new row and leaves every other lookup as it was. |
| CacheCoherence.CreateKeepsCoherence | services/url-service/src/controllers/urlController.ts:35-37 | `createUrl` keeps the cache coherent, whether or not the warm-up write happened. |
| CacheCoherence.DeleteKeepsCoherence | services/url-service/src/controllers/urlController.ts:116-124 | With Redis reachable, a soft delete followed by the invalidation keeps the cache coherent. |
| CacheCoherence.TimeKeepsCoherence | services/url-service/src/config/cache.ts:49 | Expiry only removes entries, so coherence holds at every later moment. |
| CacheCoherence.LimiterKeepsCoherence | services/url-service/src/middleware/rateLimiter.ts:41-50 | The limiters' "rl:" counters never touch a "url:" cache key. |
| CacheCoherence.StaleRedirectAfterLostInvalidation | services/url-service/src/controllers/urlController.ts:121-124 | A delete whose invalidation is lost makes the cache incoherent. The next redirect is a 302 to the deleted URL, where the table alone gives 410. |
| UrlSchemas.ParseAcceptsExactlyValid | services/url-service/src/schemas/urlSchemas.ts:6-24 | The schema accepts a body exactly when every constraint holds: longUrl is a URL string of at most 2048 characters, and customCode is absent or 3..20 characters of [a-zA-Z0-9-_]. It then hands on both values unchanged. A rejection always carries at least one issue. |
| UrlSchemas.MissingLongUrl | services/url-service/src/schemas/urlSchemas.ts:7-10 | A missing longUrl is reported with its required-field message, whatever the custom code. |
| UrlSchemas.CustomCodeChecks | services/url-service/src/schemas/urlSchemas.ts:15-23 | The two length bounds and the character check each report their own issue. 20 characters are allowed, although the message says "under 20". |
| Broker.Channel.SendToQueue | services/url-service/src/config/clickPublisher.ts:43-45 | An open channel appends the message to the tail of the named queue. A closed channel throws and appends nothing. |
| Broker.Channel.Ack | services/analytics-worker/src/consumer/clickConsumer.ts:61-62 | On an open channel records one ack of the message; on a closed one fails and records nothing. |
| Broker.Channel.Nack | services/analytics-worker/src/consumer/clickConsumer.ts:38-71 | On an open channel records one nack with the given requeue flag; on a closed one fails and records nothing. |
| Broker.ChannelHolder.GetChannel | services/url-service/src/config/rabbitmq.ts:51-58 | Gives the channel once it is assigned, else the "channel not initialised" error. |
| ClickPublisher.SerializeRoundTrip | services/url-service/src/config/clickPublisher.ts:8-14 | The JSON of an event has exactly its five fields, reads back field by field, and determines the event. |
| ClickPublisher.PublishClickEvent | services/url-service/src/config/clickPublisher.ts:30-59 | On an open channel exactly one persistent message with the event's JSON is appended to "click_events". Without a channel, or on a closed one, nothing changes. It never throws. |
| ClickPublisher.PublishAppendsOne | services/url-service/src/config/clickPublisher.ts:37-45 | The click-events queue grows by one persistent message at its tail whose body parses to the event, and every other queue stays as it was. |
| ClickEventModel.EveryFieldRequired | services/analytics-worker/src/models/ClickEvent.ts:18-39 | A document missing any of the five fields, or holding an empty or null value in one, is refused; so is an invalid timestamp. |
| ClickEventModel.StringDocumentStored | services/analytics-worker/src/models/ClickEvent.ts:16-51 | Five non-empty strings and a valid Date are accepted and stored as exactly those values, with createdAt added. |
| ClickEventModel.EventStore.Create | services/analytics-worker/src/models/ClickEvent.ts:16-51 | Stores the document in "clickevents", stamped with createdAt, exactly when the store is reachable and the schema accepts it; otherwise it stores nothing. |
| ClickConsumer.NullPayloadNeverSettled | services/analytics-worker/src/consumer/clickConsumer.ts:25-73 | As written, the JSON payload `null` throws on reading a property and gets no ack and no nack. No other payload throws. |
| ClickConsumer.ExactlyOneAction | services/analytics-worker/src/consumer/clickConsumer.ts:25-73 | With the null case corrected, every message gets exactly one of ack, nack without requeue, or nack with requeue, and ack exactly when the store write succeeded. |
| ClickConsumer.UnparseableDiscarded | services/analytics-worker/src/consumer/clickConsumer.ts:29-40 | A payload that is not JSON is nacked without requeue and never written. |
| ClickConsumer.ThreeFieldGuard | services/analytics-worker/src/consumer/clickConsumer.ts:43-47 | An object reaches the store exactly when shortcode, longUrl and timestamp are truthy, whatever ip and userAgent hold; otherwise it is nacked without requeue. |
| ClickConsumer.MissingIpRequeued | services/analytics-worker/src/consumer/clickConsumer.ts:43-72 | A message without ip passes the consumer's check, is refused by the schema, and is requeued on every delivery. |
| ClickConsumer.PublishedEventStored | services/analytics-worker/src/consumer/clickConsumer.ts:50-62 | A published click with non-empty fields and a parseable timestamp is stored with those five values and acked. If the store is unreachable it is requeued. |
| ClickConsumer.Consumer.ProcessMessage | services/analytics-worker/src/consumer/clickConsumer.ts:25-73 | Writes the store only for a message that passed the check and was accepted. An open channel receives exactly that message's one settlement; a closed one receives none. |
| ClickConsumer.Consumer.OnMessage | services/analytics-worker/src/consumer/clickConsumer.ts:88-92 | A null delivery gets no ack, no nack and no write. |
| ClickConsumer.Consumer.StartConsumer | services/analytics-worker/src/consumer/clickConsumer.ts:82-113 | Registers one consumer on "click_events" with noAck false; without a channel it registers nothing. |
| Ranking.SortDesc | services/analytics-service/src/controllers/statsController.ts:55 | The result is sorted by count, largest first, and is a permutation of the input. |
| Ranking.TakeOfSorted | services/analytics-service/src/controllers/statsController.ts:56 | The first n elements of a sorted list are sorted, and nothing after them has a larger key; Stats.TopContents rests on it. |
| Stats.SinceMonotone | services/analytics-service/src/controllers/statsController.ts:35-44 | A later cut-off never counts more events. |
| Stats.FiltersCommute | services/analytics-service/src/controllers/statsController.ts:35-44 | Filtering by shortcode and by time commute. |
| Stats.TopContents | services/analytics-service/src/controllers/statsController.ts:52-58 | A top-five list has at most five rows, the largest count first, and each value once with its exact number of occurrences. No value left out occurs more often than a listed one. |
| Stats.GetStatsCounts | services/analytics-service/src/controllers/statsController.ts:17-73 | totalClicks counts the shortcode's events. clicksToday counts those of the last 86,400,000 ms and clicksThisWeek those of the last 604,800,000 ms, so today <= week <= total. topUserAgents is the top five of those events. |
| Stats.GetStatsRequiresShortcode | services/analytics-service/src/controllers/statsController.ts:20-22 | A missing or empty shortcode is 400 "Shortcode is required". |
| Stats.SummaryCounts | services/analytics-service/src/controllers/statsController.ts:84-133 | The summary does not depend on the user. totalUrls is the number of distinct shortcodes clicked and totalClicks the number of events, and clicksToday <= totalClicks. |
| Stats.DistinctShortcodes | services/analytics-service/src/controllers/statsController.ts:97-102 | The distinct shortcodes are as many as the set of shortcodes clicked. |
| Bearer.JoinSplit | services/url-service/src/middleware/authenticate.ts:36 | `split(" ")` loses nothing: joining the pieces with single spaces gives the header back. |
| Bearer.TokenAfterScheme | services/url-service/src/middleware/authenticate.ts:30-40 | For "Bearer <rest>", the token is the text of rest up to the next space. If that text is empty the answer is 401 "No token provided". |
| Bearer.TokenCases | services/auth-service/src/middleware/authenticate.ts:21-31 | A token is found exactly after "Bearer " and then contains no space. Every failure is 401 "No token provided". |
| PayloadAuth.CheckCases | services/analytics-service/src/middleware/authenticate.ts:22-44 | No Bearer token is 401 "No token provided". A token that does not verify is 401 "Invalid or expired token". Otherwise the result is the verified payload of exactly that token. The url-service runs the same checks at services/url-service/src/middleware/authenticate.ts:30-56. |
| PayloadAuth.Authenticate | services/url-service/src/middleware/authenticate.ts:23-57 | On success req.user is the payload and `next()` is called. Any failure goes to `next(error)` and leaves req.user untouched. |
| UserAuth.CheckCases | services/auth-service/src/middleware/authenticate.ts:14-54 | Passes exactly when the token verifies and names an existing user, who is then the result. A verified token for a missing user is 401 "User no longer exists". |
| UserAuth.Authenticate | services/auth-service/src/middleware/authenticate.ts:14-54 | On success req.user is the database user and `next()` is called. Every failure, a database error included, goes to `next(error)`. |
| Users.WithRefreshTokenLookup | services/auth-service/src/controllers/authController.ts:40-43 | Setting a user's refresh token changes that user's token and nothing else. |
| Users.RenamedLookup | services/auth-service/src/config/passport.ts:39-44 | After the update branch of the upsert, the googleId finds the same user with the new name. |
| Users.UserTable.Upsert | services/auth-service/src/config/passport.ts:39-50 | An existing googleId gets only its name updated. A new one creates a user with that googleId, email and name and no refresh token. The unique constraints are kept. |
| Users.UserTable.SetRefreshToken | services/auth-service/src/controllers/authController.ts:40-43 | Updates only that user's token. A missing user or an unreachable DB fails and changes nothing. |
| Passport.Verify | services/auth-service/src/config/passport.ts:26-62 | A profile without a first email, or with an empty one, is `done(error)` with no database write. Otherwise the result is the upserted user, and a store error becomes `done(error)`. |
| Passport.FirstAddressUsed | services/auth-service/src/config/passport.ts:29-34 | The email used is the first address of the profile. An empty, absent or missing first address gives up. |
| Passport.SessionRoundTrip | services/auth-service/src/config/passport.ts:69-75 | Serializing and then deserializing a user gives it back. |
| AuthController.GoogleCallback | services/auth-service/src/controllers/authController.ts:20-59 | No user is 401 "Authentication failed". Otherwise both tokens are signed for the user, the refresh token is stored on their row, and the response returns both. |
| AuthController.Refresh | services/auth-service/src/controllers/authController.ts:74-111 | Answers what the refresh outcome of the table gives, and changes nothing. |
| AuthController.RefreshCases | services/auth-service/src/controllers/authController.ts:77-110 | An absent, empty or null token is 400. A token that does not verify is 401 "Invalid or expired refresh token". It succeeds exactly when the token is the one stored on the user it names, and the new access token is for that user. |
| AuthController.LogoutRevokes | services/auth-service/src/controllers/authController.ts:93-95 | After the token is cleared, no refresh for that user succeeds, whatever token is presented. |
| AuthController.NewLoginRevokesOldToken | services/auth-service/src/controllers/authController.ts:40-43 | A new login replaces the stored token, so the earlier token is revoked. |
| AuthController.IssuedTokenRefreshes | services/auth-service/src/controllers/authController.ts:36-53 | While it still verifies, the refresh token a login stored yields an access token for that user. |
| AuthController.GetMe | services/auth-service/src/controllers/authController.ts:115-132 | Gives the user's id, email and name, or 401 "Not authenticated". |
| AuthController.Logout | services/auth-service/src/controllers/authController.ts:145-160 | Clears only that user's stored refresh token and answers "Logged out successfully". Without a user it fails on reading the id and changes nothing. |
| ErrorHandler.NewAppError | services/auth-service/src/middleware/errorHandler.ts:8-16 | Builds an error named "AppError" with the given message and a status of 500 unless one is given. |
| ErrorHandler.NotFound | services/auth-service/src/middleware/errorHandler.ts:19-28 | 404 with "Route <method> <url> not found". |
| ErrorHandler.FieldErrorsGroupByField | services/auth-service/src/middleware/errorHandler.ts:39 | A field appears in the field errors exactly when an issue names it, and then with all of its messages in order. |
| ErrorHandler.HandleClassifies | services/auth-service/src/middleware/errorHandler.ts:38-67 | A ZodError is 400 "Validation failed" with the field errors. An AppError keeps its status and message. Anything else is 500 "Internal server error", whatever its message. |
| ErrorHandler.DefaultStatusShown | services/analytics-service/src/middleware/errorHandler.ts:5-58 | An AppError made without a status is answered with 500 and its own message, not the generic one. The analytics-service handler classifies errors exactly as the auth-service one does. |

## Findings

| source | as written | input that shows it | evidently intended | confidence | as-written member | corrected member |
|---|---|---|---|---|---|---|
| services/analytics-worker/src/consumer/clickConsumer.ts:43 | `raw.shortcode` is read outside every try block; for the JSON payload `null`, `JSON.parse` succeeds and the read throws a TypeError | a message whose body is the four bytes `null` | the message is rejected like one that lacks its required fields (nack without requeue) | high, not executed | ClickConsumer.NullPayloadNeverSettled | ClickConsumer.ExactlyOneAction |

The methods of `ClickConsumer.Consumer` use the corrected step. As written, the consume callback's promise rejects for that message. services/analytics-worker/src/index.ts installs no `unhandledRejection` handler, and on Node 15 or later an unhandled rejection ends the process. The message was never acked, so the broker redelivers it after a restart, and the worker crashes again: a crash loop. The model stops at the unsettled message; process lifetime is outside it.

## Left out

- I/O with real servers is not modelled: Redis, PostgreSQL, MongoDB and RabbitMQ connection set-up, reconnection and shutdown. Each store is a class with a `reachable` flag (the channel's is `open`), and an unreachable store makes each of its methods fail. The read-only handlers written as functions have no failing path; the lines on `Stats.GetStats`, `Stats.GetSummary` and `UrlController.ListUrls` below say what that leaves out.
- A store's reachability is fixed for the length of one request. An outage that starts between two calls of one handler is not a path of the methods. For `deleteUrl`, that is a find that succeeds followed by an update that fails, where the source answers 500 and skips the invalidation. For `createUrl`, it is a free custom code followed by a create that fails. In both cases nothing changes, which is what the unreachable-table case already states.
- RateLimiter.Limit: INCR landing and the EXPIRE that follows it being lost is not a path of the method, since Redis is reachable or not for the whole request. Its consequence is proved separately: RateLimiter.LostExpireLeavesCounterWithoutTtl, RateLimiter.CounterWithoutExpiryNeverResets and RateLimiter.LockedOutWithoutExpiry show that the key is refused for good once it passes max.
- Stats.GetStats / Stats.GetSummary: they are functions of the events read. A failing `countDocuments`, `aggregate` or `distinct` rejects, and the error handler turns that into a 500 "Internal server error" that changes nothing. That path is not written out, so the MongoDB collection's `reachable` flag governs only the worker's writes.
- Cache.WarmCache: the undefined `warmCache` import is given the best-effort behaviour. As written, `createUrl` would store the row and then fail with a TypeError, a 500 that leaves the new row in place; the model does not produce that 500.
- `connectRedis` ending the process when the first connection fails is left out; RedisConfig.RedisSingleton.ConnectRedis models the successful connection only.
- UrlController.ListUrls is a function of the rows. A failing `findMany` rejects with the database's error, which the error handler turns into a 500 that changes nothing; that path is not written out.
- Logging and the health endpoints are left out. They change no state the model has.
- The JWT library is a set of abstract functions (`Jwt.Keys`). Token expiry is not modelled: a token either verifies or it does not.
- `nanoid(7)`, the database-assigned id and `createdAt`, and `Date.now()` are parameters.
- The zod URL check and the ISO date parser are abstract predicates.
- Redis command interleaving between concurrent requests is not modelled; each request runs to completion.
- Publishing a click from the redirect is left out, because the redirect's `publishClickEvent` calls are commented out.
- The consumer is modelled with its registration callback, but services/analytics-worker/src/index.ts never calls `startConsumer`, so in the shipped worker no message is consumed.
- The consumer imports `../models/clickEvent` while the file is `ClickEvent.ts`. On a case-sensitive file system that import would not resolve. The model assumes it does.
- UrlSchemas.ParseAcceptsExactlyValid: zod measures length in UTF-16 code units, while the model counts Unicode scalar values, so the two differ for characters outside the Basic Multilingual Plane.
- ClickConsumer.NewDate: `new Date` of an array or object is treated as Invalid Date, and only integer millisecond timestamps are modelled.
- Json.Json numbers are integers; fractions and exponents are not modelled.
- Stats.TopContents: the database orders equal counts in an unspecified way. The model's ranking is a stable sort in first-occurrence order, so the tie order it picks is one of several the database may give.
- UrlController.ListUrlsContents: rows with equal `createdAt` come in table order; the database does not promise that order.
- AuthController.RefreshCases: the shown `jwt.ts` does not define `verifyRefreshToken`. The model assumes it never throws, like the other verify functions, so a non-string token fails verification.
- The url-service's error handler is not part of this model. The auth-service's and the analytics-service's are, and they are the same code.
- The Prisma schema is not part of this model. The unique constraints assumed are the ones the queries need: id and shortcode for `url`, id and googleId for `user`.
- Passport's exchange of the OAuth code with Google, and its redirect to `/auth/failed`, are left out. The strategy is modelled from the profile Google returns.
