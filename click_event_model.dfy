/**
 * The analytics-worker's `ClickEvent` document, stored in the "clickevents"
 * collection of MongoDB: five required fields, a Date timestamp, and an
 * automatic `createdAt`. `Accepts` is the schema's validation: a document
 * that fails it is refused by `create` and nothing is written.
 */
module ClickEventModel {
  import opened Wrappers
  import opened Json

  const COLLECTION: string := "clickevents"

  const VALIDATION_FAILED: string := "ClickEvent validation failed"
  const STORE_UNREACHABLE: string := "MongoDB unreachable"

  /** A JavaScript Date: a millisecond instant, or Invalid Date. */
  datatype DateValue = ValidDate(ms: int) | InvalidDate

  /** The object handed to `create`: each string field as read from the message (`None` is `undefined`). */
  datatype Doc = Doc(shortcode: Option<Json>, longUrl: Option<Json>, timestamp: DateValue, ip: Option<Json>, userAgent: Option<Json>)

  /** A stored document. */
  datatype StoredEvent = StoredEvent(shortcode: string, longUrl: string, timestamp: int, ip: string, userAgent: string, createdAt: int)

  /** The decimal text of an integer, as `String(n)` writes it. */
  function DecimalText(n: int): (s: string)
    ensures |s| > 0
    decreases if n < 0 then 1 - n else n
  {
    if n < 0 then "-" + DecimalText(-n)
    else if n < 10 then ["0123456789"[n]]
    else DecimalText(n / 10) + ["0123456789"[n % 10]]
  }

  /** The String cast: strings as they are, numbers and booleans as their text; anything else fails, and so does a missing value. */
  function CastString(v: Option<Json>): Option<string> {
    match v
    case Some(JStr(s)) => Some(s)
    case Some(JNum(n)) => Some(DecimalText(n))
    case Some(JBool(b)) => Some(if b then "true" else "false")
    case _ => None
  }

  /** `type: String, required: true`: the cast succeeds and the result is not empty. */
  predicate RequiredString(v: Option<Json>) {
    CastString(v).Some? && CastString(v).value != ""
  }

  /** The schema's validation. */
  predicate Accepts(doc: Doc) {
    && RequiredString(doc.shortcode)
    && RequiredString(doc.longUrl)
    && doc.timestamp.ValidDate?
    && RequiredString(doc.ip)
    && RequiredString(doc.userAgent)
  }

  /** The document `create` stores for an accepted object at time `now`. */
  function ToStored(doc: Doc, now: int): StoredEvent
    requires Accepts(doc)
  {
    StoredEvent(CastString(doc.shortcode).value, CastString(doc.longUrl).value, doc.timestamp.ms,
                CastString(doc.ip).value, CastString(doc.userAgent).value, now)
  }

  /** Each of the five fields is required: leaving any one of them out, or empty, has the document refused. */
  lemma EveryFieldRequired(doc: Doc)
    ensures doc.shortcode.None? || doc.longUrl.None? || doc.ip.None? || doc.userAgent.None? ==> !Accepts(doc)
    ensures doc.shortcode == Some(JStr("")) || doc.longUrl == Some(JStr("")) || doc.ip == Some(JStr("")) || doc.userAgent == Some(JStr("")) ==> !Accepts(doc)
    ensures doc.shortcode == Some(JNull) || doc.longUrl == Some(JNull) || doc.ip == Some(JNull) || doc.userAgent == Some(JNull) ==> !Accepts(doc)
    ensures doc.timestamp == InvalidDate ==> !Accepts(doc)
  {
  }

  /** A document whose five fields are non-empty strings and whose timestamp is a valid Date is stored with exactly those values. */
  lemma StringDocumentStored(shortcode: string, longUrl: string, ms: int, ip: string, userAgent: string, now: int)
    requires shortcode != "" && longUrl != "" && ip != "" && userAgent != ""
    ensures var doc := Doc(Some(JStr(shortcode)), Some(JStr(longUrl)), ValidDate(ms), Some(JStr(ip)), Some(JStr(userAgent)));
      Accepts(doc) && ToStored(doc, now) == StoredEvent(shortcode, longUrl, ms, ip, userAgent, now)
  {
  }

  /** The "clickevents" collection. `now` is the clock `createdAt` is taken from. */
  class EventStore {
    var docs: seq<StoredEvent>
    var reachable: bool
    var now: int

    constructor ()
      ensures docs == [] && reachable && now == 0
    {
      docs := [];
      reachable := true;
      now := 0;
    }

    /** `ClickEventModel.create(doc)`: stores an accepted document with `createdAt` = now; otherwise throws and stores nothing. */
    method Create(doc: Doc) returns (r: Result<StoredEvent, string>)
      modifies this`docs
      ensures r.Ok? <==> reachable && Accepts(doc)
      ensures r.Ok? ==> r.value == ToStored(doc, now) && docs == old(docs) + [r.value]
      ensures r.Err? ==> docs == old(docs)
    {
      if !reachable {
        return Err(STORE_UNREACHABLE);
      }
      if !Accepts(doc) {
        return Err(VALIDATION_FAILED);
      }
      var stored := ToStored(doc, now);
      docs := docs + [stored];
      r := Ok(stored);
    }
  }
}
