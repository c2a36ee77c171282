/** Selecting the saved queries whose next run is due
    (`getRelevantQueries`). */
module QueryFilter {
  import opened Wrappers
  import opened Freshness

  datatype Platform = SoundCloud | YouTube

  /** A saved search (`SingleQuery`). The interval is a number of days. */
  datatype SingleQuery = SingleQuery(
    name: string,
    term: string,
    interval: int,
    platform: Platform,
    lastResult: string,
    durationFrom: Option<int>,
    durationTo: Option<int>,
    nextRun: Option<string>)

  /** A query is due when it has a non-empty `nextRun` and a non-zero
      interval, `nextRun` parses as a date, and `interval` days after it is
      not later than `now`. An unparsable date never compares as due. */
  predicate IsDue(parse: string -> Option<int>, now: int, q: SingleQuery) {
    q.nextRun.Some? && q.nextRun.value != "" && q.interval != 0
    && parse(q.nextRun.value).Some?
    && parse(q.nextRun.value).value + q.interval * MsPerDay <= now
  }

  /** The due queries, in their input order. */
  function FilterDue(parse: string -> Option<int>, now: int, queries: seq<SingleQuery>): seq<SingleQuery>
    decreases |queries|
  {
    if |queries| == 0 then []
    else
      var last := queries[|queries| - 1];
      FilterDue(parse, now, queries[..|queries| - 1]) + (if IsDue(parse, now, last) then [last] else [])
  }

  /** `getRelevantQueries`: a loop that skips a query without `nextRun` or
      interval and keeps it when it is due. */
  method GetRelevantQueries(parse: string -> Option<int>, now: int, queries: seq<SingleQuery>)
    returns (relevant: seq<SingleQuery>)
    ensures relevant == FilterDue(parse, now, queries)
  {
    relevant := [];
    var i := 0;
    while i < |queries|
      invariant 0 <= i <= |queries|
      invariant relevant == FilterDue(parse, now, queries[..i])
    {
      var query := queries[i];
      assert queries[..i + 1][..i] == queries[..i];
      i := i + 1;
      if query.nextRun.None? || query.nextRun.value == "" || query.interval == 0 {
        continue;
      }
      var nextRun := parse(query.nextRun.value);
      var interval := query.interval;
      if nextRun.Some? && nextRun.value + interval * MsPerDay <= now {
        relevant := relevant + [query];
      }
    }
    assert queries[..i] == queries;
  }

  /** The selection keeps exactly the due queries. */
  lemma {:induction false} FilterDueMembers(parse: string -> Option<int>, now: int, queries: seq<SingleQuery>)
    ensures forall q :: q in FilterDue(parse, now, queries) <==> q in queries && IsDue(parse, now, q)
    ensures |FilterDue(parse, now, queries)| <= |queries|
    decreases |queries|
  {
    if |queries| > 0 {
      var pre := queries[..|queries| - 1];
      FilterDueMembers(parse, now, pre);
      assert queries == pre + [queries[|queries| - 1]];
    }
  }

  /** Selection distributes over concatenation, so the kept queries come in
      their input order. */
  lemma {:induction false} FilterDueAppend(parse: string -> Option<int>, now: int, a: seq<SingleQuery>, b: seq<SingleQuery>)
    ensures FilterDue(parse, now, a + b) == FilterDue(parse, now, a) + FilterDue(parse, now, b)
    decreases |b|
  {
    if |b| == 0 {
      assert a + b == a;
    } else {
      var pre := b[..|b| - 1];
      FilterDueAppend(parse, now, a, pre);
      assert (a + b)[..|a + b| - 1] == a + pre;
    }
  }

  /** Selecting again selects nothing more and drops nothing. */
  lemma {:induction false} FilterDueIdempotent(parse: string -> Option<int>, now: int, queries: seq<SingleQuery>)
    ensures FilterDue(parse, now, FilterDue(parse, now, queries)) == FilterDue(parse, now, queries)
    decreases |queries|
  {
    if |queries| > 0 {
      var pre := queries[..|queries| - 1];
      var last := queries[|queries| - 1];
      FilterDueIdempotent(parse, now, pre);
      var tail := if IsDue(parse, now, last) then [last] else [];
      FilterDueAppend(parse, now, FilterDue(parse, now, pre), tail);
      if IsDue(parse, now, last) {
        assert [last][..0] == [];
      }
    }
  }

  /** A query that is due stays due as time passes. */
  lemma {:induction false} DueStaysDue(parse: string -> Option<int>, now: int, later: int, q: SingleQuery)
    requires now <= later && IsDue(parse, now, q)
    ensures IsDue(parse, later, q)
  {
  }

  /** A query without a next run, with a zero interval, or with a next run
      that does not parse is never selected. */
  lemma {:induction false} NeverDue(parse: string -> Option<int>, now: int, queries: seq<SingleQuery>, q: SingleQuery)
    requires q.nextRun.None? || q.interval == 0 || parse(q.nextRun.value).None?
    ensures q !in FilterDue(parse, now, queries)
  {
    FilterDueMembers(parse, now, queries);
  }
}
