/** league.py `get_results_for_week`: a week's results are computed once and then served from
    `results_cache`, keyed by the week number. */
module Cache {
  import opened Wrappers
  import opened Errors
  import opened Matchup
  import opened RoundRobin

  /** The tuple `(teams, win_record, total_record)` stored per week. */
  datatype WeekResults = WeekResults(teams: TeamStats, standings: Standings)

  /** `results_cache`: week number to that week's results. */
  type ResultsCache = map<int, WeekResults>

  /** The result of a request and the cache after it. `fetched` stands for the statistics the
      league's API reports for `week`; it is consulted only when the week is not cached. */
  function GetResultsForWeek(cache: ResultsCache, week: int, fetched: TeamStats): (r: (Result<WeekResults, Error>, ResultsCache))
    requires WellFormed(fetched)
    ensures r.0.Success? ==> week in r.1 && r.1[week] == r.0.value
    ensures r.0.Failure? ==> r.1 == cache && week !in cache
    ensures r.1.Keys == cache.Keys || r.1.Keys == cache.Keys + {week}
    ensures forall w :: w in cache && (w != week || r.0.Success?) ==> w in r.1 && (w != week ==> r.1[w] == cache[w])
  {
    if week in cache then (Success(cache[week]), cache)
    else match SimulateMatchups(fetched)
      case Failure(e) => (Failure(e), cache)
      case Success(st) =>
        var results := WeekResults(fetched, st);
        (Success(results), cache[week := results])
  }

  /** A cached week is served as stored, whatever the API would report now, and the cache does
      not change. */
  lemma CacheHit(cache: ResultsCache, week: int, fetched: TeamStats)
    requires WellFormed(fetched) && week in cache
    ensures GetResultsForWeek(cache, week, fetched) == (Success(cache[week]), cache)
  {
  }

  /** An uncached week is computed from the fetched statistics by the round-robin aggregator, and
      the cache learns it only if the computation completes. */
  lemma CacheMiss(cache: ResultsCache, week: int, fetched: TeamStats)
    requires WellFormed(fetched) && week !in cache
    ensures var (r, cache') := GetResultsForWeek(cache, week, fetched);
      && r.Success? == SimulateMatchups(fetched).Success?
      && (r.Success? ==> r.value == WeekResults(fetched, SimulateMatchups(fetched).value) && cache' == cache[week := r.value])
      && (r.Failure? ==> r.error == SimulateMatchups(fetched).error && cache' == cache)
  {
  }

  /** Asking twice for the same week gives the same answer, even if the league's statistics
      changed in between, and the second request leaves the cache as the first left it. */
  lemma CacheIdempotent(cache: ResultsCache, week: int, first: TeamStats, second: TeamStats)
    requires WellFormed(first) && WellFormed(second)
    requires GetResultsForWeek(cache, week, first).0.Success?
    ensures var (r1, c1) := GetResultsForWeek(cache, week, first);
      GetResultsForWeek(c1, week, second) == (r1, c1)
  {
  }

  /** A request never changes what is cached for any other week. */
  lemma CacheOtherWeeks(cache: ResultsCache, week: int, fetched: TeamStats, other: int)
    requires WellFormed(fetched) && other != week
    ensures var c := GetResultsForWeek(cache, week, fetched).1;
      (other in c <==> other in cache) && (other in cache ==> c[other] == cache[other])
  {
  }
}
