/**
 * Reading the access token from an `Authorization: Bearer <token>` header,
 * as all three `authenticate` middlewares do: the header must start with
 * "Bearer ", and the token is the second piece of `header.split(" ")`,
 * which must not be empty.
 */
module Bearer {
  import opened Wrappers
  import opened Http

  const SCHEME: string := "Bearer "
  const NO_TOKEN: string := "No token provided"

  /** `s.split(" ")`: the pieces between single spaces, empty pieces included. */
  function Split(s: string): (parts: seq<string>)
    ensures |parts| >= 1
    ensures forall i :: 0 <= i < |parts| ==> ' ' !in parts[i]
    decreases |s|
  {
    if s == [] then [""]
    else if s[0] == ' ' then [""] + Split(s[1..])
    else
      var rest := Split(s[1..]);
      [[s[0]] + rest[0]] + rest[1..]
  }

  /** `parts.join(" ")`. */
  function Join(parts: seq<string>): string
    requires |parts| >= 1
    decreases |parts|
  {
    if |parts| == 1 then parts[0] else parts[0] + " " + Join(parts[1..])
  }

  /** Splitting loses nothing: joining the pieces with single spaces gives the text back. */
  lemma {:induction false} JoinSplit(s: string)
    ensures Join(Split(s)) == s
    decreases |s|
  {
    if s == [] {
    } else if s[0] == ' ' {
      JoinSplit(s[1..]);
      assert Split(s)[1..] == Split(s[1..]);
    } else {
      JoinSplit(s[1..]);
      var rest := Split(s[1..]);
      if |rest| > 1 {
        assert Split(s)[1..] == rest[1..];
        assert Join(rest) == rest[0] + " " + Join(rest[1..]);
      }
    }
  }

  /** The part of `s` before its first space: free of spaces, a prefix of `s`, and followed by a space unless it is all of `s`. */
  function UpToSpace(s: string): (w: string)
    ensures ' ' !in w && w <= s
    ensures |w| < |s| ==> s[|w|] == ' '
    decreases |s|
  {
    if s == [] || s[0] == ' ' then [] else [s[0]] + UpToSpace(s[1..])
  }

  /** The first piece of a split is the text up to the first space. */
  lemma {:induction false} SplitHead(s: string)
    ensures Split(s)[0] == UpToSpace(s)
    decreases |s|
  {
    if s != [] && s[0] != ' ' {
      SplitHead(s[1..]);
    }
  }

  /** A space-free word followed by a space splits into that word and the split of the rest. */
  lemma {:induction false} SplitAfterWord(w: string, rest: string)
    requires ' ' !in w
    ensures Split(w + " " + rest) == [w] + Split(rest)
    decreases |w|
  {
    if w == [] {
      assert (w + " " + rest)[1..] == rest;
    } else {
      assert (w + " " + rest)[1..] == w[1..] + " " + rest;
      SplitAfterWord(w[1..], rest);
      assert [w[0]] + w[1..] == w;
    }
  }

  /** The token of a header, or the 401 the middleware throws when there is none. */
  function Token(header: Option<string>): Result<string, AppError> {
    if header.None? || header.value == "" || !(SCHEME <= header.value) then Err(Fail(NO_TOKEN, 401))
    else
      var parts := Split(header.value);
      if |parts| < 2 || parts[1] == "" then Err(Fail(NO_TOKEN, 401)) else Ok(parts[1])
  }

  /** For a "Bearer " header the token is exactly the non-empty text after the scheme up to the next space. */
  lemma TokenAfterScheme(rest: string)
    ensures Token(Some(SCHEME + rest)) == if UpToSpace(rest) == "" then Err(Fail(NO_TOKEN, 401)) else Ok(UpToSpace(rest))
  {
    assert SCHEME + rest == "Bearer" + " " + rest;
    SplitAfterWord("Bearer", rest);
    SplitHead(rest);
  }

  /** A token is only ever found after "Bearer ", and then it is the space-free word that follows; otherwise the answer is 401 "No token provided". */
  lemma TokenCases(header: Option<string>)
    ensures Token(header).Ok? <==>
      header.Some? && SCHEME <= header.value && UpToSpace(header.value[|SCHEME|..]) != ""
    ensures Token(header).Ok? ==>
      Token(header).value == UpToSpace(header.value[|SCHEME|..]) && ' ' !in Token(header).value
    ensures Token(header).Err? ==> Token(header).error == Fail(NO_TOKEN, 401)
  {
    if header.Some? && SCHEME <= header.value {
      var rest := header.value[|SCHEME|..];
      assert header.value == SCHEME + rest;
      TokenAfterScheme(rest);
    }
  }
}
