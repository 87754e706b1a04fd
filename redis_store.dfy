/**
 * The Redis key/value store that the url-service's cache and rate limiter
 * share. Only the commands those two use are modelled: INCR, EXPIRE, TTL,
 * GET, SET with EX, and DEL. Time is a whole number of seconds; a key whose
 * expiry time has been reached no longer exists.
 *
 * The commands are pure functions over the key space, so that lemmas can
 * follow several commands in a row; `Store` is the server whose state the
 * services change, one command at a time.
 */
module RedisStore {
  import opened Wrappers

  /** What a key holds: a string written by SET, or a counter written by INCR. */
  datatype Value = Text(s: string) | Counter(n: int)

  /** A key's value and its absolute expiry time (seconds), if it has one. */
  datatype Entry = Entry(value: Value, expiresAt: Option<nat>)

  type Entries = map<string, Entry>

  /** The two ways a command can fail: the server cannot be reached, or the key holds the other kind of value. */
  datatype StoreError = Unreachable | WrongType | InvalidExpire

  /** A key exists at time `now` when it is present and its expiry, if any, lies in the future. */
  predicate Live(m: Entries, now: nat, k: string) {
    k in m && (m[k].expiresAt.Some? ==> now < m[k].expiresAt.value)
  }

  // ─── INCR ────────────────────────────────────────────────

  /**
   * The reply of INCR: a missing key counts from 0, so its first INCR answers 1.
   * Redis keeps a counter as a string of digits, so INCR of a text value
   * that reads as an integer would count on from it; here every text value
   * is refused. No path of the model reaches that case, since counters live
   * under "rl:" keys and text under "url:" keys.
   */
  function IncrReply(m: Entries, now: nat, k: string): Result<int, StoreError> {
    if !Live(m, now, k) then Ok(1)
    else match m[k].value
      case Counter(n) => Ok(n + 1)
      case Text(_) => Err(WrongType)
  }

  /** The key space after INCR: a new counter has no expiry; an existing one keeps its expiry. */
  function AfterIncr(m: Entries, now: nat, k: string): Entries {
    if !Live(m, now, k) then m[k := Entry(Counter(1), None)]
    else match m[k].value
      case Counter(n) => m[k := Entry(Counter(n + 1), m[k].expiresAt)]
      case Text(_) => m
  }

  // ─── EXPIRE ──────────────────────────────────────────────

  /** EXPIRE key secs: an existing key expires `secs` seconds from now (at once if secs is 0). */
  function AfterExpire(m: Entries, now: nat, k: string, secs: nat): Entries {
    if !Live(m, now, k) then m
    else if secs == 0 then m - {k}
    else m[k := m[k].(expiresAt := Some(now + secs))]
  }

  // ─── TTL ─────────────────────────────────────────────────

  /** TTL: -2 for a missing key, -1 for a key without expiry, else the seconds left. */
  function TtlReply(m: Entries, now: nat, k: string): int {
    if !Live(m, now, k) then -2
    else match m[k].expiresAt
      case None => -1
      case Some(t) => t - now
  }

  // ─── GET / SET EX / DEL ──────────────────────────────────

  /**
   * GET: the string a key holds, or nothing when the key does not exist.
   * Redis would answer GET of a counter with its digits; here it is refused,
   * a case no path of the model reaches, as with INCR above.
   */
  function GetReply(m: Entries, now: nat, k: string): Result<Option<string>, StoreError> {
    if !Live(m, now, k) then Ok(None)
    else match m[k].value
      case Text(s) => Ok(Some(s))
      case Counter(_) => Err(WrongType)
  }

  /** SET key value EX secs: overwrites the key whatever it held, expiring `secs` seconds from now. */
  function AfterSetEx(m: Entries, now: nat, k: string, v: string, secs: nat): Entries {
    if secs == 0 then m else m[k := Entry(Text(v), Some(now + secs))]
  }

  /** DEL key. */
  function AfterDel(m: Entries, k: string): Entries {
    m - {k}
  }

  // ─── Facts about the commands ────────────────────────────

  /** A key that exists now also exists at every earlier moment it already existed; going forward, keys only disappear. */
  lemma LiveShrinksOverTime(m: Entries, now: nat, later: nat, k: string)
    requires now <= later
    ensures Live(m, later, k) ==> Live(m, now, k)
  {
  }

  /** SET EX then GET, before the expiry, answers the value just written. */
  lemma SetThenGet(m: Entries, now: nat, k: string, v: string, secs: nat, later: nat)
    requires secs > 0 && now <= later < now + secs
    ensures GetReply(AfterSetEx(m, now, k, v, secs), later, k) == Ok(Some(v))
  {
  }

  /** DEL then GET answers nothing, at any time. */
  lemma DelThenGet(m: Entries, k: string, later: nat)
    ensures GetReply(AfterDel(m, k), later, k) == Ok(None)
  {
  }

  /** The server. Each method is one command; a command sent while the server cannot be reached changes nothing. */
  class Store {
    var entries: Entries
    var now: nat
    var reachable: bool

    constructor ()
      ensures entries == map[] && now == 0 && reachable
    {
      entries := map[];
      now := 0;
      reachable := true;
    }

    method Incr(k: string) returns (r: Result<int, StoreError>)
      modifies this`entries
      ensures r == (if reachable then IncrReply(old(entries), now, k) else Err(Unreachable))
      ensures entries == (if reachable then AfterIncr(old(entries), now, k) else old(entries))
    {
      if !reachable {
        r := Err(Unreachable);
      } else {
        r := IncrReply(entries, now, k);
        entries := AfterIncr(entries, now, k);
      }
    }

    method Expire(k: string, secs: nat) returns (r: Result<bool, StoreError>)
      modifies this`entries
      ensures r == (if reachable then Ok(Live(old(entries), now, k)) else Err(Unreachable))
      ensures entries == (if reachable then AfterExpire(old(entries), now, k, secs) else old(entries))
    {
      if !reachable {
        r := Err(Unreachable);
      } else {
        r := Ok(Live(entries, now, k));
        entries := AfterExpire(entries, now, k, secs);
      }
    }

    method Ttl(k: string) returns (r: Result<int, StoreError>)
      ensures r == (if reachable then Ok(TtlReply(entries, now, k)) else Err(Unreachable))
    {
      if !reachable {
        r := Err(Unreachable);
      } else {
        r := Ok(TtlReply(entries, now, k));
      }
    }

    method Get(k: string) returns (r: Result<Option<string>, StoreError>)
      ensures r == (if reachable then GetReply(entries, now, k) else Err(Unreachable))
    {
      if !reachable {
        r := Err(Unreachable);
      } else {
        r := GetReply(entries, now, k);
      }
    }

    method SetEx(k: string, v: string, secs: nat) returns (r: Result<bool, StoreError>)
      modifies this`entries
      ensures r == (if !reachable then Err(Unreachable) else if secs == 0 then Err(InvalidExpire) else Ok(true))
      ensures entries == (if reachable then AfterSetEx(old(entries), now, k, v, secs) else old(entries))
    {
      if !reachable {
        r := Err(Unreachable);
      } else if secs == 0 {
        r := Err(InvalidExpire);
      } else {
        r := Ok(true);
        entries := AfterSetEx(entries, now, k, v, secs);
      }
    }

    method Del(k: string) returns (r: Result<bool, StoreError>)
      modifies this`entries
      ensures r == (if reachable then Ok(k in old(entries)) else Err(Unreachable))
      ensures entries == (if reachable then AfterDel(old(entries), k) else old(entries))
    {
      if !reachable {
        r := Err(Unreachable);
      } else {
        r := Ok(k in entries);
        entries := AfterDel(entries, k);
      }
    }

    /** The passage of time, which is what makes keys expire. */
    method Advance(seconds: nat)
      modifies this`now
      ensures now == old(now) + seconds
    {
      now := now + seconds;
    }

    /** An outage starting or ending. */
    method SetReachable(up: bool)
      modifies this`reachable
      ensures reachable == up
    {
      reachable := up;
    }
  }
}
