/**
 * JSON values as JavaScript sees them after `JSON.parse`, and the two
 * JavaScript behaviours the code relies on: reading a property (which
 * throws a TypeError on `null`) and truthiness.
 */
module Json {
  import opened Wrappers

  /** A parsed JSON value. Numbers are integers; fractions and exponents are not modelled. */
  datatype Json = JNull | JBool(b: bool) | JNum(n: int) | JStr(s: string) | JArr(items: seq<Json>) | JObj(fields: map<string, Json>)

  /**
   * A message body: the UTF-8 text of a JSON value, or text that is not
   * JSON at all. The text itself is not modelled; `Encoded(v)` stands for
   * `JSON.stringify(v)`.
   */
  datatype Body = Encoded(value: Json) | Garbled(text: string)

  /** The TypeError raised by reading a property of `null`. */
  datatype TypeError = CannotReadProperty(key: string)

  /** `JSON.parse(body)`: the encoded value, or a SyntaxError for anything else. */
  function Parse(body: Body): Result<Json, string> {
    match body
    case Encoded(v) => Ok(v)
    case Garbled(_) => Err("SyntaxError")
  }

  /**
   * `v[key]`: a property of an object (`None` is `undefined`), `undefined`
   * for the named fields of any other non-null value, and a TypeError on
   * `null`.
   */
  function Property(v: Json, key: string): Result<Option<Json>, TypeError> {
    match v
    case JNull => Err(CannotReadProperty(key))
    case JObj(fields) => Ok(if key in fields then Some(fields[key]) else None)
    case _ => Ok(None)
  }

  /** JavaScript truthiness of a property that may be `undefined`. */
  predicate Truthy(v: Option<Json>) {
    match v
    case None => false
    case Some(JNull) => false
    case Some(JBool(b)) => b
    case Some(JNum(n)) => n != 0
    case Some(JStr(s)) => s != ""
    case Some(_) => true
  }

  /** `typeof`-style name used in zod's "Expected string, received ..." messages. */
  function TypeName(v: Option<Json>): string {
    match v
    case None => "undefined"
    case Some(JNull) => "null"
    case Some(JBool(_)) => "boolean"
    case Some(JNum(_)) => "number"
    case Some(JStr(_)) => "string"
    case Some(JArr(_)) => "array"
    case Some(JObj(_)) => "object"
  }
}
