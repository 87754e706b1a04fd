/**
 * `createUrlSchema`, the body of `POST /api/urls`: a required `longUrl`
 * that is a URL of at most 2048 characters, and an optional `customCode`
 * of 3 to 20 letters, digits, hyphens and underscores. As in zod, every
 * failing check of a field is reported, and the issues of both fields are
 * collected before the parse fails.
 */
module UrlSchemas {
  import opened Wrappers
  import opened Json
  import Http

  const LONG_URL_MAX: nat := 2048
  const CUSTOM_CODE_MIN: nat := 3
  const CUSTOM_CODE_MAX: nat := 20

  const LONG_URL_REQUIRED: string := "longUrl is required"
  const LONG_URL_NOT_URL: string := "longUrl must be a valid URL including http:// or https://"
  const LONG_URL_TOO_LONG: string := "longUrl must be under 2048 characters"
  const CODE_TOO_SHORT: string := "customCode must be at least 3 characters"
  const CODE_TOO_LONG: string := "customCode must be under 20 characters"
  const CODE_BAD_CHARS: string := "customCode can only contain letters, numbers, hyphens and underscores"

  /** The parsed body, `CreateUrlInput`. */
  datatype CreateUrlInput = CreateUrlInput(longUrl: string, customCode: Option<string>)

  /** One character of `/^[a-zA-Z0-9-_]+$/`. */
  predicate CodeChar(c: char) {
    ('a' <= c <= 'z') || ('A' <= c <= 'Z') || ('0' <= c <= '9') || c == '-' || c == '_'
  }

  predicate AllCodeChars(s: string) {
    forall i :: 0 <= i < |s| ==> CodeChar(s[i])
  }

  function TypeIssue(field: string, v: Option<Json>): Http.Issue {
    Http.Issue([field], "Expected string, received " + TypeName(v))
  }

  /** The issues of `longUrl`; `isUrl` stands for zod's URL check. */
  function LongUrlIssues(v: Option<Json>, isUrl: string -> bool): seq<Http.Issue> {
    match v
    case None => [Http.Issue(["longUrl"], LONG_URL_REQUIRED)]
    case Some(JStr(s)) =>
      (if isUrl(s) then [] else [Http.Issue(["longUrl"], LONG_URL_NOT_URL)])
      + (if |s| <= LONG_URL_MAX then [] else [Http.Issue(["longUrl"], LONG_URL_TOO_LONG)])
    case Some(_) => [TypeIssue("longUrl", v)]
  }

  /** The issues of `customCode`; `.optional()` lets `undefined` through, but not `null`. */
  function CustomCodeIssues(v: Option<Json>): seq<Http.Issue> {
    match v
    case None => []
    case Some(JStr(s)) =>
      (if |s| >= CUSTOM_CODE_MIN then [] else [Http.Issue(["customCode"], CODE_TOO_SHORT)])
      + (if |s| <= CUSTOM_CODE_MAX then [] else [Http.Issue(["customCode"], CODE_TOO_LONG)])
      + (if s != [] && AllCodeChars(s) then [] else [Http.Issue(["customCode"], CODE_BAD_CHARS)])
    case Some(_) => [TypeIssue("customCode", v)]
  }

  function Field(fields: map<string, Json>, key: string): Option<Json> {
    if key in fields then Some(fields[key]) else None
  }

  function AsString(v: Option<Json>): Option<string> {
    if v.Some? && v.value.JStr? then Some(v.value.s) else None
  }

  /** `createUrlSchema.parse(body)`: the input, or the ZodError's issues. */
  function ParseCreateUrl(body: Json, isUrl: string -> bool): Result<CreateUrlInput, seq<Http.Issue>> {
    if !body.JObj? then Err([Http.Issue([], "Expected object, received " + TypeName(Some(body)))])
    else
      var longUrl := Field(body.fields, "longUrl");
      var customCode := Field(body.fields, "customCode");
      var issues := LongUrlIssues(longUrl, isUrl) + CustomCodeIssues(customCode);
      if issues != [] || AsString(longUrl).None? then Err(issues)
      else Ok(CreateUrlInput(AsString(longUrl).value, AsString(customCode)))
  }

  /** The constraints on a custom code, stated on their own. */
  predicate ValidCustomCode(s: string) {
    CUSTOM_CODE_MIN <= |s| <= CUSTOM_CODE_MAX && AllCodeChars(s)
  }

  /** The constraints on a body, stated on their own. */
  predicate ValidBody(body: Json, isUrl: string -> bool) {
    && body.JObj?
    && "longUrl" in body.fields && body.fields["longUrl"].JStr?
    && isUrl(body.fields["longUrl"].s) && |body.fields["longUrl"].s| <= LONG_URL_MAX
    && ("customCode" in body.fields ==> body.fields["customCode"].JStr? && ValidCustomCode(body.fields["customCode"].s))
  }

  /**
   * The schema accepts exactly the bodies that meet every constraint, and
   * then hands on `longUrl` and `customCode` unchanged; a rejected body
   * always carries at least one issue.
   */
  lemma ParseAcceptsExactlyValid(body: Json, isUrl: string -> bool)
    ensures ParseCreateUrl(body, isUrl).Ok? <==> ValidBody(body, isUrl)
    ensures ParseCreateUrl(body, isUrl).Ok? ==>
      && ParseCreateUrl(body, isUrl).value.longUrl == body.fields["longUrl"].s
      && ParseCreateUrl(body, isUrl).value.customCode ==
         (if "customCode" in body.fields then Some(body.fields["customCode"].s) else None)
    ensures ParseCreateUrl(body, isUrl).Err? ==> |ParseCreateUrl(body, isUrl).error| > 0
  {
  }

  /** A missing `longUrl` is reported with the schema's own message, whatever the custom code. */
  lemma MissingLongUrl(fields: map<string, Json>, isUrl: string -> bool)
    requires "longUrl" !in fields
    ensures ParseCreateUrl(JObj(fields), isUrl).Err?
    ensures Http.Issue(["longUrl"], LONG_URL_REQUIRED) in ParseCreateUrl(JObj(fields), isUrl).error
  {
  }

  /** A custom code reports each failed bound and the character check independently. */
  lemma CustomCodeChecks(s: string)
    ensures Http.Issue(["customCode"], CODE_TOO_SHORT) in CustomCodeIssues(Some(JStr(s))) <==> |s| < CUSTOM_CODE_MIN
    ensures Http.Issue(["customCode"], CODE_TOO_LONG) in CustomCodeIssues(Some(JStr(s))) <==> |s| > CUSTOM_CODE_MAX
    ensures Http.Issue(["customCode"], CODE_BAD_CHARS) in CustomCodeIssues(Some(JStr(s))) <==> !AllCodeChars(s) || s == []
    ensures CustomCodeIssues(Some(JStr(s))) == [] <==> ValidCustomCode(s)
  {
  }
}
