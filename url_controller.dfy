/**
 * The url-service's CRUD controller: `createUrl` stores a record and warms
 * the cache, `listUrls` lists the active records newest first, and
 * `deleteUrl` soft-deletes a record and then drops its cache entry.
 */
module UrlController {
  import opened Wrappers
  import opened Http
  import RedisStore
  import RedisConfig
  import Cache
  import UrlTable
  import Ranking

  /** The length of a generated shortcode, `nanoid(7)`. */
  const GENERATED_LENGTH: nat := 7

  const DELETED_MESSAGE: string := "URL deleted successfully"

  /** The `data` of the 201 answer to `createUrl`. */
  datatype Created = Created(id: string, shortcode: string, shortUrl: string, longUrl: string, createdAt: int)

  /** One item of the `listUrls` answer: the selected columns plus `shortUrl`. */
  datatype Listed = Listed(id: string, shortcode: string, longUrl: string, createdAt: int, shortUrl: string)

  /** `${env.BASE_URL}/${shortcode}`. */
  function ShortUrl(baseUrl: string, shortcode: string): string {
    baseUrl + "/" + shortcode
  }

  /** `if (customCode)`: a custom code is used only when it is present and non-empty. */
  predicate HasCustomCode(customCode: Option<string>) {
    customCode.Some? && customCode.value != ""
  }

  /** The shortcode `createUrl` settles on: the custom code verbatim, else the generated one. */
  function ChosenCode(customCode: Option<string>, generated: string): string {
    if HasCustomCode(customCode) then customCode.value else generated
  }

  function TakenMessage(customCode: string): string {
    "Custom code '" + customCode + "' is already taken"
  }

  /**
   * `createUrl`. `generated` is what `nanoid(7)` returned, `newId` and
   * `createdAt` what the database assigns, `ttl` the configured
   * `env.CACHE_TTL_SECONDS`. A database error escapes to the
   * error handler (a 500): while the table is unreachable nothing is
   * created and the cache is not touched.
   */
  method CreateUrl(conn: RedisConfig.RedisSingleton, db: UrlTable.Table, baseUrl: string, ttl: nat, longUrl: string,
                   customCode: Option<string>, generated: string, newId: string, createdAt: int)
    returns (r: Result<Created, Thrown>)
    requires db.Valid() && |generated| == GENERATED_LENGTH
    modifies db`rows, db`lookups, conn.redis
    ensures db.Valid()
    ensures conn.redis != null ==> Cache.ClockAndLinkKept(conn)
    ensures db.lookups == old(db.lookups) + (if HasCustomCode(customCode) then 1 else 0)
    ensures !db.reachable ==> r == Err(Other(UrlTable.DB_UNREACHABLE))
    ensures db.reachable && HasCustomCode(customCode) && UrlTable.FindByCode(old(db.rows), customCode.value).Some? ==>
      r == Err(App(Http.Fail(TakenMessage(customCode.value), 409)))
    ensures var code := ChosenCode(customCode, generated);
      r.Ok? <==> db.reachable && UrlTable.FindById(old(db.rows), newId).None? && UrlTable.FindByCode(old(db.rows), code).None?
    ensures var code := ChosenCode(customCode, generated);
      db.reachable && r.Err? && !(HasCustomCode(customCode) && UrlTable.FindByCode(old(db.rows), code).Some?) ==>
        r == Err(Other(UrlTable.UNIQUE_VIOLATION))
    ensures var code := ChosenCode(customCode, generated);
      r.Ok? ==>
        && r.value == Created(newId, code, ShortUrl(baseUrl, code), longUrl, createdAt)
        && db.rows == old(db.rows) + [UrlTable.UrlRecord(newId, code, longUrl, true, createdAt)]
        && (conn.redis != null ==>
              || conn.redis.entries == old(conn.redis.entries)
              || conn.redis.entries == RedisStore.AfterSetEx(old(conn.redis.entries), conn.redis.now,
                                                             Cache.UrlKey(code), longUrl, ttl))
    ensures r.Err? ==> db.rows == old(db.rows) && (conn.redis != null ==> conn.redis.entries == old(conn.redis.entries))
  {
    var shortcode: string;
    if customCode.Some? && customCode.value != "" {
      var existing := db.FindUniqueByCode(customCode.value);
      match existing
      case Err(e) =>
        return Err(Other(e));
      case Ok(found) =>
        if found.Some? {
          return Err(App(Http.Fail(TakenMessage(customCode.value), 409)));
        }
        shortcode := customCode.value;
    } else {
      shortcode := generated;
    }

    var url := db.Create(newId, shortcode, longUrl, createdAt);
    match url
    case Err(e) =>
      return Err(Other(e));
    case Ok(rec) =>
      Cache.WarmCache(conn, shortcode, longUrl, ttl);
      r := Ok(Created(rec.id, rec.shortcode, ShortUrl(baseUrl, rec.shortcode), rec.longUrl, rec.createdAt));
  }

  /** The rows `where: { isActive: true }`, in table order. */
  function ActiveRows(rows: seq<UrlTable.UrlRecord>): (r: seq<UrlTable.UrlRecord>)
    ensures forall x :: x in r <==> x in rows && x.isActive
    ensures |r| <= |rows|
    decreases |rows|
  {
    if rows == [] then []
    else (if rows[0].isActive then [rows[0]] else []) + ActiveRows(rows[1..])
  }

  function CreatedAt(rec: UrlTable.UrlRecord): int {
    rec.createdAt
  }

  function Listing(rec: UrlTable.UrlRecord, baseUrl: string): Listed {
    Listed(rec.id, rec.shortcode, rec.longUrl, rec.createdAt, ShortUrl(baseUrl, rec.shortcode))
  }

  function ListAll(recs: seq<UrlTable.UrlRecord>, baseUrl: string): (r: seq<Listed>)
    ensures |r| == |recs|
    ensures forall i :: 0 <= i < |recs| ==> r[i] == Listing(recs[i], baseUrl)
    decreases |recs|
  {
    if recs == [] then [] else [Listing(recs[0], baseUrl)] + ListAll(recs[1..], baseUrl)
  }

  /** `listUrls`: the active rows ordered by `createdAt` descending, each with its `shortUrl`. */
  function ListUrls(rows: seq<UrlTable.UrlRecord>, baseUrl: string): seq<Listed> {
    ListAll(Ranking.SortDesc(ActiveRows(rows), CreatedAt), baseUrl)
  }

  /** Listing a sorted sequence of records keeps its order and gives each item its `shortUrl`. */
  lemma ListAllOrdered(sorted: seq<UrlTable.UrlRecord>, baseUrl: string)
    requires Ranking.SortedDesc(sorted, CreatedAt)
    ensures var r := ListAll(sorted, baseUrl);
      && (forall i, j :: 0 <= i < j < |r| ==> r[i].createdAt >= r[j].createdAt)
      && (forall i :: 0 <= i < |r| ==> r[i].shortUrl == ShortUrl(baseUrl, r[i].shortcode))
  {
    var r := ListAll(sorted, baseUrl);
    forall i, j | 0 <= i < j < |r| ensures r[i].createdAt >= r[j].createdAt {
      assert CreatedAt(sorted[i]) >= CreatedAt(sorted[j]);
    }
  }

  /** Listing a permutation of the active rows lists exactly the active rows. */
  lemma ListAllOfActive(rows: seq<UrlTable.UrlRecord>, sorted: seq<UrlTable.UrlRecord>, baseUrl: string)
    requires multiset(sorted) == multiset(ActiveRows(rows))
    ensures var r := ListAll(sorted, baseUrl);
      && (forall i :: 0 <= i < |r| ==> exists rec :: rec in rows && rec.isActive && r[i] == Listing(rec, baseUrl))
      && (forall rec :: rec in rows && rec.isActive ==> Listing(rec, baseUrl) in r)
  {
    var active := ActiveRows(rows);
    var r := ListAll(sorted, baseUrl);
    forall i | 0 <= i < |r| ensures exists rec :: rec in rows && rec.isActive && r[i] == Listing(rec, baseUrl) {
      assert sorted[i] in multiset(active);
    }
    forall rec | rec in rows && rec.isActive ensures Listing(rec, baseUrl) in r {
      assert rec in multiset(sorted);
      var k :| 0 <= k < |sorted| && sorted[k] == rec;
      assert r[k] == Listing(rec, baseUrl);
    }
  }

  /**
   * What `listUrls` answers: one item per active row and nothing else, the
   * newest first, each with `shortUrl` = BASE_URL + "/" + its shortcode; its
   * `count` is the number of items, which is the number of active rows.
   */
  lemma ListUrlsContents(rows: seq<UrlTable.UrlRecord>, baseUrl: string)
    ensures var r := ListUrls(rows, baseUrl);
      && |r| == |ActiveRows(rows)|
      && (forall i, j :: 0 <= i < j < |r| ==> r[i].createdAt >= r[j].createdAt)
      && (forall i :: 0 <= i < |r| ==> r[i].shortUrl == ShortUrl(baseUrl, r[i].shortcode))
      && (forall i :: 0 <= i < |r| ==> exists rec :: rec in rows && rec.isActive && r[i] == Listing(rec, baseUrl))
      && (forall rec :: rec in rows && rec.isActive ==> Listing(rec, baseUrl) in r)
  {
    var sorted := Ranking.SortDesc(ActiveRows(rows), CreatedAt);
    ListAllOrdered(sorted, baseUrl);
    ListAllOfActive(rows, sorted, baseUrl);
  }

  /**
   * `deleteUrl`: 404 for an unknown id, 410 for a deleted one, else soft
   * delete and then cache invalidation. A database error escapes to the
   * error handler (a 500) and then nothing is deleted or invalidated.
   */
  method DeleteUrl(conn: RedisConfig.RedisSingleton, db: UrlTable.Table, id: string) returns (r: Result<string, Thrown>)
    requires db.Valid()
    modifies db`rows, conn.redis
    ensures db.Valid()
    ensures conn.redis != null ==> Cache.ClockAndLinkKept(conn)
    ensures !db.reachable ==> r == Err(Other(UrlTable.DB_UNREACHABLE))
    ensures var rec := UrlTable.FindById(old(db.rows), id);
      && (db.reachable && rec.None? ==> r == Err(App(Http.Fail("URL not found", 404))))
      && (db.reachable && rec.Some? && !rec.value.isActive ==> r == Err(App(Http.Fail("URL is already deleted", 410))))
      && (r.Err? ==> db.rows == old(db.rows) && (conn.redis != null ==> conn.redis.entries == old(conn.redis.entries)))
      && (db.reachable && rec.Some? && rec.value.isActive ==>
            && r == Ok(DELETED_MESSAGE)
            && db.rows == UrlTable.Deactivated(old(db.rows), id)
            && (conn.redis != null ==> (conn.redis.entries ==
                  if conn.redis.reachable
                  then RedisStore.AfterDel(old(conn.redis.entries), Cache.UrlKey(rec.value.shortcode))
                  else old(conn.redis.entries))))
  {
    var found := db.FindUniqueById(id);
    if found.Err? {
      return Err(Other(found.error));
    }
    var url := found.value;
    if url.None? {
      return Err(App(Http.Fail("URL not found", 404)));
    }
    if !url.value.isActive {
      return Err(App(Http.Fail("URL is already deleted", 410)));
    }

    var updated := db.Deactivate(id);
    match updated
    case Err(e) =>
      r := Err(Other(e));
    case Ok(_) =>
      Cache.InvalidateCachedUrl(conn, url.value.shortcode);
      r := Ok(DELETED_MESSAGE);
  }

  /** After a soft delete, looking the id up again finds the same row, now inactive. */
  lemma {:induction false} DeactivatedFindById(rows: seq<UrlTable.UrlRecord>, id: string)
    requires UrlTable.Unique(rows) && UrlTable.FindById(rows, id).Some?
    ensures UrlTable.FindById(UrlTable.Deactivated(rows, id), id) == Some(UrlTable.FindById(rows, id).value.(isActive := false))
  {
    var rec := UrlTable.FindById(rows, id).value;
    var d := UrlTable.Deactivated(rows, id);
    var k :| 0 <= k < |rows| && rows[k] == rec;
    FindByIdExact(d, k);
  }

  /** In a table that keeps its constraints, a lookup by id finds the one row with that id. */
  lemma {:induction false} FindByIdExact(rows: seq<UrlTable.UrlRecord>, i: nat)
    requires i < |rows|
    requires forall a, b :: 0 <= a < b < |rows| ==> rows[a].id != rows[b].id
    ensures UrlTable.FindById(rows, rows[i].id) == Some(rows[i])
    decreases |rows|
  {
    if i > 0 {
      assert rows[0].id != rows[i].id;
      forall a, b | 0 <= a < b < |rows[1..]| ensures rows[1..][a].id != rows[1..][b].id {
        assert rows[1..][a] == rows[a + 1] && rows[1..][b] == rows[b + 1];
      }
      FindByIdExact(rows[1..], i - 1);
      assert rows[1..][i - 1] == rows[i];
    }
  }

  /** Deleting the same id twice: the first call succeeds and the second is a 410. */
  method DeleteTwice(conn: RedisConfig.RedisSingleton, db: UrlTable.Table, id: string) returns (first: Result<string, Thrown>, second: Result<string, Thrown>)
    requires db.Valid() && db.reachable && UrlTable.FindById(db.rows, id).Some? && UrlTable.FindById(db.rows, id).value.isActive
    modifies db`rows, conn.redis
    ensures first == Ok(DELETED_MESSAGE)
    ensures second == Err(App(Http.Fail("URL is already deleted", 410)))
  {
    ghost var rows0 := db.rows;
    first := DeleteUrl(conn, db, id);
    DeactivatedFindById(rows0, id);
    second := DeleteUrl(conn, db, id);
  }
}
