/**
 * The analytics-service's statistics: counts over the stored click events,
 * and the five most frequent user agents (per shortcode) or shortcodes
 * (over all events). The database queries are modelled as the functions
 * they compute over the sequence of stored events.
 */
module Stats {
  import opened Wrappers
  import opened Http
  import ClickEventModel
  import Ranking

  type Event = ClickEventModel.StoredEvent

  /** 24 * 60 * 60 * 1000 and 7 * 24 * 60 * 60 * 1000. */
  const DAY_MS: int := 86400000
  const WEEK_MS: int := 604800000

  /** `$limit: 5`. */
  const TOP_N: nat := 5

  /** One row of a `$group ... $sort ... $limit` result: a value and how many events carry it. */
  datatype Tally = Tally(key: string, count: nat)

  datatype StatsData = StatsData(shortcode: string, totalClicks: nat, clicksToday: nat, clicksThisWeek: nat, topUserAgents: seq<Tally>)

  datatype SummaryData = SummaryData(totalClicks: nat, totalUrls: nat, clicksToday: nat, topShortcodes: seq<Tally>)

  // ─── Filters and counts ──────────────────────────────────

  /** The events of one shortcode, in store order (`{ shortcode }`). */
  function OfCode(events: seq<Event>, code: string): (r: seq<Event>)
    ensures |r| <= |events|
    ensures forall e :: e in r <==> e in events && e.shortcode == code
    decreases |events|
  {
    if events == [] then []
    else (if events[0].shortcode == code then [events[0]] else []) + OfCode(events[1..], code)
  }

  /** The events at or after an instant (`timestamp: { $gte: since }`). */
  function Since(events: seq<Event>, since: int): (r: seq<Event>)
    ensures |r| <= |events|
    ensures forall e :: e in r <==> e in events && e.timestamp >= since
    decreases |events|
  {
    if events == [] then []
    else (if events[0].timestamp >= since then [events[0]] else []) + Since(events[1..], since)
  }

  /** A later cut-off keeps fewer events: counting from `b` never gives more than counting from `a <= b`. */
  lemma {:induction false} SinceMonotone(events: seq<Event>, a: int, b: int)
    requires a <= b
    ensures |Since(events, b)| <= |Since(events, a)|
    decreases |events|
  {
    if events != [] {
      SinceMonotone(events[1..], a, b);
    }
  }

  /** Both filters commute, so the count of a shortcode's recent events is well defined either way round. */
  lemma {:induction false} FiltersCommute(events: seq<Event>, code: string, since: int)
    ensures Since(OfCode(events, code), since) == OfCode(Since(events, since), code)
    decreases |events|
  {
    if events != [] {
      FiltersCommute(events[1..], code, since);
      var e := events[0];
      assert Since(OfCode(events, code), since) ==
        Since((if e.shortcode == code then [e] else []) + OfCode(events[1..], code), since);
      SinceAppend(if e.shortcode == code then [e] else [], OfCode(events[1..], code), since);
      OfCodeAppend(if e.timestamp >= since then [e] else [], Since(events[1..], since), code);
    }
  }

  lemma {:induction false} SinceAppend(a: seq<Event>, b: seq<Event>, since: int)
    ensures Since(a + b, since) == Since(a, since) + Since(b, since)
    decreases |a|
  {
    if a == [] {
      assert a + b == b;
    } else {
      assert (a + b)[0] == a[0] && (a + b)[1..] == a[1..] + b;
      SinceAppend(a[1..], b, since);
    }
  }

  lemma {:induction false} OfCodeAppend(a: seq<Event>, b: seq<Event>, code: string)
    ensures OfCode(a + b, code) == OfCode(a, code) + OfCode(b, code)
    decreases |a|
  {
    if a == [] {
      assert a + b == b;
    } else {
      assert (a + b)[0] == a[0] && (a + b)[1..] == a[1..] + b;
      OfCodeAppend(a[1..], b, code);
    }
  }

  // ─── Grouping ────────────────────────────────────────────

  predicate NoDuplicates<T(==)>(s: seq<T>) {
    forall i, j :: 0 <= i < j < |s| ==> s[i] != s[j]
  }

  /** The distinct values of a sequence, in order of first appearance (`distinct`, `$group`). */
  function Distinct(s: seq<string>): (r: seq<string>)
    ensures NoDuplicates(r)
    ensures forall x :: x in r <==> x in s
    ensures |r| <= |s|
    decreases |s|
  {
    if s == [] then []
    else
      var rest := Distinct(s[1..]);
      if s[0] in rest then rest else [s[0]] + rest
  }

  /** `{ $group: { _id: key, count: { $sum: 1 } } }`: one tally per distinct value. */
  function TallyAll(distinct: seq<string>, keys: seq<string>): (r: seq<Tally>)
    ensures |r| == |distinct|
    ensures forall i :: 0 <= i < |r| ==> r[i] == Tally(distinct[i], multiset(keys)[distinct[i]])
    decreases |distinct|
  {
    if distinct == [] then [] else [Tally(distinct[0], multiset(keys)[distinct[0]])] + TallyAll(distinct[1..], keys)
  }

  function CountOf(t: Tally): int {
    t.count
  }

  /** The tallies of every distinct value, in order of first appearance. */
  function Tallies(keys: seq<string>): seq<Tally> {
    TallyAll(Distinct(keys), keys)
  }

  /** `$sort: { count: -1 }` over the tallies. */
  function Ranked(keys: seq<string>): seq<Tally> {
    Ranking.SortDesc(Tallies(keys), CountOf)
  }

  /** `$group`, `$sort: { count: -1 }`, `$limit: 5`. */
  function Top(keys: seq<string>): seq<Tally> {
    var ranked := Ranked(keys);
    ranked[..if |ranked| < TOP_N then |ranked| else TOP_N]
  }

  lemma {:induction false} NoDuplicatesMultiset<T>(s: seq<T>, x: T)
    requires NoDuplicates(s)
    ensures multiset(s)[x] <= 1
    decreases |s|
  {
    if s != [] {
      assert s == [s[0]] + s[1..];
      assert NoDuplicates(s[1..]) by {
        forall i, j | 0 <= i < j < |s[1..]| ensures s[1..][i] != s[1..][j] {
          assert s[1..][i] == s[i + 1] && s[1..][j] == s[j + 1];
        }
      }
      NoDuplicatesMultiset(s[1..], x);
      if s[0] == x {
        assert x !in s[1..];
      }
    }
  }

  lemma RepeatedMultiset<T>(s: seq<T>, i: nat, j: nat)
    requires i < j < |s| && s[i] == s[j]
    ensures multiset(s)[s[i]] >= 2
  {
    assert s == s[..j] + s[j..];
    assert s[i] in s[..j];
    assert s[j] in s[j..];
    assert multiset(s) == multiset(s[..j]) + multiset(s[j..]);
  }

  /** A tally that names a value of `keys` with its number of occurrences there. */
  predicate Counted(t: Tally, keys: seq<string>) {
    t.key in keys && t.count == multiset(keys)[t.key]
  }

  /** The tallies name each distinct value once, with its number of occurrences. */
  lemma TalliesFacts(keys: seq<string>)
    ensures NoDuplicates(Tallies(keys))
    ensures forall t :: t in Tallies(keys) <==> Counted(t, keys)
  {
    var distinct := Distinct(keys);
    var tallies := Tallies(keys);
    forall i, j | 0 <= i < j < |tallies| ensures tallies[i] != tallies[j] {
      assert tallies[i].key == distinct[i] && tallies[j].key == distinct[j];
    }
    forall t: Tally | Counted(t, keys) ensures t in tallies {
      var d :| 0 <= d < |distinct| && distinct[d] == t.key;
      assert tallies[d] == t;
    }
  }

  /** A reordering of the tallies still holds only counted tallies, one per value, and one for every value. */
  lemma {:induction false} PermutedTallies(tallies: seq<Tally>, ranked: seq<Tally>, keys: seq<string>)
    requires multiset(ranked) == multiset(tallies) && NoDuplicates(tallies)
    requires forall t :: t in tallies <==> Counted(t, keys)
    ensures forall i :: 0 <= i < |ranked| ==> Counted(ranked[i], keys)
    ensures forall i, j :: 0 <= i < j < |ranked| ==> ranked[i].key != ranked[j].key
    ensures forall k :: k in keys ==> exists p :: 0 <= p < |ranked| && ranked[p].key == k
  {
    forall i | 0 <= i < |ranked| ensures Counted(ranked[i], keys) {
      assert ranked[i] in multiset(tallies);
    }
    forall i, j | 0 <= i < j < |ranked| ensures ranked[i].key != ranked[j].key {
      if ranked[i].key == ranked[j].key {
        assert ranked[i] in multiset(tallies) && ranked[j] in multiset(tallies);
        assert ranked[i] == ranked[j];
        RepeatedMultiset(ranked, i, j);
        NoDuplicatesMultiset(tallies, ranked[i]);
      }
    }
    forall k | k in keys ensures exists p :: 0 <= p < |ranked| && ranked[p].key == k {
      var t := Tally(k, multiset(keys)[k]);
      assert t in tallies;
      assert t in multiset(ranked);
    }
  }

  /** The ranked tallies: sorted by count, each distinct value once, with its number of occurrences. */
  lemma RankedFacts(keys: seq<string>)
    ensures |Ranked(keys)| == |Distinct(keys)|
    ensures Ranking.SortedDesc(Ranked(keys), CountOf)
    ensures forall i :: 0 <= i < |Ranked(keys)| ==> Counted(Ranked(keys)[i], keys)
    ensures forall i, j :: 0 <= i < j < |Ranked(keys)| ==> Ranked(keys)[i].key != Ranked(keys)[j].key
    ensures forall k :: k in keys ==> exists p :: 0 <= p < |Ranked(keys)| && Ranked(keys)[p].key == k
  {
    TalliesFacts(keys);
    PermutedTallies(Tallies(keys), Ranked(keys), keys);
  }

  /** The first `n` rows of a sorted, duplicate-free ranking of counted tallies are again sorted, duplicate-free and counted. */
  lemma {:induction false} PrefixOfRanking(ranked: seq<Tally>, n: nat, keys: seq<string>)
    requires n <= |ranked|
    requires Ranking.SortedDesc(ranked, CountOf)
    requires forall i :: 0 <= i < |ranked| ==> Counted(ranked[i], keys)
    requires forall i, j :: 0 <= i < j < |ranked| ==> ranked[i].key != ranked[j].key
    ensures forall i, j :: 0 <= i < j < n ==> ranked[..n][i].key != ranked[..n][j].key
    ensures forall i :: 0 <= i < n ==> ranked[..n][i].key in keys && ranked[..n][i].count == multiset(keys)[ranked[..n][i].key]
    ensures forall i, j :: 0 <= i < j < n ==> ranked[..n][i].count >= ranked[..n][j].count
  {
    var t := ranked[..n];
    assert forall i :: 0 <= i < n ==> t[i] == ranked[i];
    assert forall i :: 0 <= i < n ==> Counted(t[i], keys);
    forall i, j | 0 <= i < j < n ensures t[i].count >= t[j].count {
      assert CountOf(ranked[i]) >= CountOf(ranked[j]);
    }
  }

  /** No value left out of the first `n` rows of a sorted ranking that names every value occurs more often than a listed one. */
  lemma {:induction false} PrefixIsTop(ranked: seq<Tally>, n: nat, keys: seq<string>)
    requires n <= |ranked|
    requires Ranking.SortedDesc(ranked, CountOf)
    requires forall i :: 0 <= i < |ranked| ==> Counted(ranked[i], keys)
    requires forall k :: k in keys ==> exists p :: 0 <= p < |ranked| && ranked[p].key == k
    ensures forall k :: k in keys && (forall i :: 0 <= i < n ==> ranked[..n][i].key != k) ==>
      forall i :: 0 <= i < n ==> ranked[..n][i].count >= multiset(keys)[k]
  {
    var t := ranked[..n];
    forall k | k in keys && (forall i :: 0 <= i < n ==> t[i].key != k)
      ensures forall i :: 0 <= i < n ==> t[i].count >= multiset(keys)[k]
    {
      var p :| 0 <= p < |ranked| && ranked[p].key == k;
      if n > 0 {
        // k is left out, so its row comes after the first n
        assert p >= n;
        Ranking.TakeOfSorted(ranked, CountOf, n, p);
        forall i | 0 <= i < n ensures t[i].count >= multiset(keys)[k] {
          assert CountOf(t[i]) >= CountOf(t[n - 1]);
          assert t[n - 1] == ranked[n - 1];
          assert Counted(ranked[p], keys);
        }
      }
    }
  }

  /** The first five rows of a sorted ranking that names every value once, with its count, form a top-five list. */
  lemma TopOfRanking(ranked: seq<Tally>, keys: seq<string>)
    requires Ranking.SortedDesc(ranked, CountOf)
    requires forall i :: 0 <= i < |ranked| ==> Counted(ranked[i], keys)
    requires forall i, j :: 0 <= i < j < |ranked| ==> ranked[i].key != ranked[j].key
    requires forall k :: k in keys ==> exists p :: 0 <= p < |ranked| && ranked[p].key == k
    ensures var t := ranked[..if |ranked| < TOP_N then |ranked| else TOP_N];
      && (forall i, j :: 0 <= i < j < |t| ==> t[i].count >= t[j].count)
      && (forall i, j :: 0 <= i < j < |t| ==> t[i].key != t[j].key)
      && (forall i :: 0 <= i < |t| ==> t[i].key in keys && t[i].count == multiset(keys)[t[i].key])
      && (forall k :: k in keys && (forall i :: 0 <= i < |t| ==> t[i].key != k) ==>
            forall i :: 0 <= i < |t| ==> t[i].count >= multiset(keys)[k])
  {
    var n := if |ranked| < TOP_N then |ranked| else TOP_N;
    PrefixOfRanking(ranked, n, keys);
    PrefixIsTop(ranked, n, keys);
  }

  /**
   * What a top-five list holds: at most five rows, the largest count first,
   * each value once, each count the number of times its value occurs, and
   * no value left out that occurs more often than one listed.
   */
  lemma TopContents(keys: seq<string>)
    ensures var t := Top(keys);
      && |t| == (if |Distinct(keys)| < TOP_N then |Distinct(keys)| else TOP_N)
      && (forall i, j :: 0 <= i < j < |t| ==> t[i].count >= t[j].count)
      && (forall i, j :: 0 <= i < j < |t| ==> t[i].key != t[j].key)
      && (forall i :: 0 <= i < |t| ==> t[i].key in keys && t[i].count == multiset(keys)[t[i].key])
      && (forall k :: k in keys && (forall i :: 0 <= i < |t| ==> t[i].key != k) ==>
            forall i :: 0 <= i < |t| ==> t[i].count >= multiset(keys)[k])
  {
    RankedFacts(keys);
    TopOfRanking(Ranked(keys), keys);
  }

  // ─── The two endpoints ───────────────────────────────────

  function UserAgents(events: seq<Event>): (r: seq<string>)
    ensures |r| == |events|
    ensures forall i :: 0 <= i < |events| ==> r[i] == events[i].userAgent
    decreases |events|
  {
    if events == [] then [] else [events[0].userAgent] + UserAgents(events[1..])
  }

  function Shortcodes(events: seq<Event>): (r: seq<string>)
    ensures |r| == |events|
    ensures forall i :: 0 <= i < |events| ==> r[i] == events[i].shortcode
    decreases |events|
  {
    if events == [] then [] else [events[0].shortcode] + Shortcodes(events[1..])
  }

  /** `getStats`: the counts for one shortcode at instant `nowMs`; a missing or empty shortcode is a 400. */
  function GetStats(events: seq<Event>, shortcode: Option<string>, nowMs: int): Result<StatsData, AppError> {
    if shortcode.None? || shortcode.value == "" then Err(Http.Fail("Shortcode is required", 400))
    else
      var mine := OfCode(events, shortcode.value);
      Ok(StatsData(shortcode.value, |mine|, |Since(mine, nowMs - DAY_MS)|, |Since(mine, nowMs - WEEK_MS)|,
                   Top(UserAgents(mine))))
  }

  /**
   * The stats for a shortcode: the counts are the shortcode's events, those
   * of the last day and those of the last week, so today <= this week <=
   * total; the user agents are the top five of that shortcode's events.
   */
  lemma {:induction false} GetStatsCounts(events: seq<Event>, shortcode: string, nowMs: int)
    requires shortcode != ""
    ensures var r := GetStats(events, Some(shortcode), nowMs);
      && r.Ok?
      && r.value.totalClicks == |OfCode(events, shortcode)|
      && r.value.clicksToday == |OfCode(Since(events, nowMs - DAY_MS), shortcode)|
      && r.value.clicksThisWeek == |OfCode(Since(events, nowMs - WEEK_MS), shortcode)|
      && r.value.clicksToday <= r.value.clicksThisWeek <= r.value.totalClicks
      && r.value.topUserAgents == Top(UserAgents(OfCode(events, shortcode)))
  {
    var mine := OfCode(events, shortcode);
    FiltersCommute(events, shortcode, nowMs - DAY_MS);
    FiltersCommute(events, shortcode, nowMs - WEEK_MS);
    SinceMonotone(mine, nowMs - WEEK_MS, nowMs - DAY_MS);
  }

  /** The route parameter is required. */
  lemma GetStatsRequiresShortcode(events: seq<Event>, nowMs: int)
    ensures GetStats(events, None, nowMs) == Err(AppError("AppError", "Shortcode is required", 400))
    ensures GetStats(events, Some(""), nowMs) == Err(AppError("AppError", "Shortcode is required", 400))
  {
  }

  /** `getSummary`. `userId` is read from the token and then not used. */
  function GetSummary(events: seq<Event>, userId: string, nowMs: int): SummaryData {
    var codes := Shortcodes(events);
    SummaryData(|events|, |Distinct(codes)|, |Since(events, nowMs - DAY_MS)|, Top(codes))
  }

  /**
   * The summary covers every stored event, whoever asks: totalUrls is the
   * number of distinct shortcodes clicked, totalClicks the number of
   * events, and clicksToday is at most totalClicks.
   */
  lemma SummaryCounts(events: seq<Event>, userId: string, otherUser: string, nowMs: int)
    ensures var s := GetSummary(events, userId, nowMs);
      && s == GetSummary(events, otherUser, nowMs)
      && s.totalClicks == |events|
      && s.totalUrls == |set e | e in events :: e.shortcode|
      && s.clicksToday <= s.totalClicks
      && s.topShortcodes == Top(Shortcodes(events))
  {
    DistinctShortcodes(events);
  }

  /** The distinct shortcodes of the events are as many as the set of shortcodes clicked. */
  lemma DistinctShortcodes(events: seq<Event>)
    ensures |Distinct(Shortcodes(events))| == |set e | e in events :: e.shortcode|
  {
    var codes := Shortcodes(events);
    DistinctCardinality(Distinct(codes));
    assert (set x | x in Distinct(codes)) == (set e | e in events :: e.shortcode) by {
      forall x | x in Distinct(codes) ensures x in (set e | e in events :: e.shortcode) {
        var i :| 0 <= i < |codes| && codes[i] == x;
        assert events[i] in events;
      }
      forall e | e in events ensures e.shortcode in Distinct(codes) {
        var i :| 0 <= i < |events| && events[i] == e;
        assert codes[i] == e.shortcode;
      }
    }
  }

  /** A sequence without duplicates has as many elements as its set of elements. */
  lemma {:induction false} DistinctCardinality(s: seq<string>)
    requires NoDuplicates(s)
    ensures |set x | x in s| == |s|
    decreases |s|
  {
    if s != [] {
      assert NoDuplicates(s[1..]) by {
        forall i, j | 0 <= i < j < |s[1..]| ensures s[1..][i] != s[1..][j] {
          assert s[1..][i] == s[i + 1] && s[1..][j] == s[j + 1];
        }
      }
      DistinctCardinality(s[1..]);
      assert (set x | x in s) == (set x | x in s[1..]) + {s[0]};
      assert s[0] !in s[1..];
    }
  }
}
