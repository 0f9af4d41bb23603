# Fantasy weekly winner — a Dafny model of the round-robin scorer

Fantasy-Weekly-Winner scores a head-to-head, nine-category basketball league for one week. Every
team is matched against every other team. Each category goes to the team with the better value,
where fewer turnovers (TO) is better and a larger value is better for the other eight. A matchup goes
to the team that takes more categories, and a category split leaves it undecided. Over the week
each team collects:

- a count of opponents it beat;
- a cumulative `[wins, losses, ties]` record in category units.

Teams are ranked by the first, with category wins and then fewest category losses breaking ties.

The model follows the repository's three Python files:

- `league.py`. The `YahooLeague` engine: `_process_stat`, `_simulate_matchup`,
  `_simulate_matchups`, the `STAT_ID_MAP` table and the per-week cache of `get_results_for_week`.
- `main.py`. The older stand-alone script. It has the same matchup rules written inline, a
  `defaultdict` win counter, the week range check and the sorted printouts.
- `app.py`. The Streamlit page: the week selector, the "Winner"/"Leader" label, the `max` that picks
  the leader, and the tables sorted with `sorted(..., reverse=True)`.

Modules, leaves first:

| module | file | models |
|---|---|---|
| `Wrappers`, `Errors` | wrappers.dfy, errors.dfy | `Option`/`Result`; the exceptions the code raises (KeyError, TypeError, ValueError) |
| `Dicts` | dicts.dfy | insertion-ordered Python dictionaries: an iteration order plus a map |
| `Records` | records.dfy | the `[wins, losses, ties]` lists and the slot `_process_stat` increments |
| `Registry` | registry.dfy | `STAT_ID_MAP`: the nine categories, their labels and their polarity |
| `Comparator` | comparator.dfy | `_process_stat` |
| `Matchup` | matchup.dfy | `_simulate_matchup` |
| `Pairs` | pairs.dfy | `itertools.combinations(teams, 2)` |
| `RoundRobin` | roundrobin.dfy | `_simulate_matchups`, repaired as described under Findings |
| `Script` | script.dfy | main.py: `simulate_matchup`, `update_win_record`, the pair loop and the week check |
| `Ranking` | ranking.dfy | tuple comparison, `max`, stable descending `sorted`, the week options and label |
| `Cache` | cache.dfy | `get_results_for_week` and `results_cache` |
| `LeagueAsWritten` | aswritten.dfy | `_simulate_matchups` lines 142 and 144-145 as written, for the Findings; `FoldAsWritten` repairs line 142 so that line 145 is reached |

### Conventions

- A statistic that team 2 lacks makes `t2_stats[stat]` raise KeyError, and the model returns that
  as `Failure(KeyError(stat))`.
- The data the league's API returns for a week is a parameter of the cache.
- A dictionary's iteration order is explicit, because it decides:
  - which pairs `combinations` forms and in what order;
  - which team `max` returns;
  - how rows with equal keys are ordered.

### Ties on all three keys

Python fixes the order of teams that tie on all three keys, and the model follows it:

- `max` keeps the first maximal item, in the win dictionary's iteration order.
- `sorted(..., reverse=True)` is stable, so tied rows keep that order too.
- `Ranking.LeaderHeadsTable` proves that the leader is the first row of the Wins table.

## Model

| member | source | states |
|---|---|---|
| Registry.RegistryWellFormed | league.py:36-46 | the stat-id table lists nine categories, none twice, under nine distinct stat ids |
| Registry.LabelRoundTrip | league.py:36-46 | every category's label maps back to that category, so labels identify categories |
| Registry.OnlyTurnoversInverted | league.py:170-185 | turnovers are the one category where the lower value is better |
| Comparator.ProcessStat | league.py:170-185 | team 2 always gets the opposite slot of team 1; the slot is a tie exactly when the values are equal |
| Comparator.ProcessStatPolarity | league.py:170-185 | team 1 wins a category exactly when its value is the better one for that category's polarity, and loses exactly when team 2's is |
| Comparator.ProcessStatIndices | league.py:170-185 | the only index pairs returned are (0,1), (1,0) and (2,2) |
| Comparator.ProcessStatSwap | league.py:170-185 | exchanging the two values exchanges the two returned indices (antisymmetry) |
| Comparator.ProcessStatExamples | league.py:170-185 | 10 TO beat 15 TO, 100 PTS beat 90 PTS, equal TO tie |
| Matchup.Tally | league.py:157-160 | the loop over team 1's stats completes exactly when team 2 reports every one of them; otherwise KeyError names the first missing stat; completed records mirror each other |
| Matchup.CountTotal | league.py:156-160 | a record counts every category it visited once |
| Matchup.Count | league.py:156-160 | the two records built over categories team 2 also reports mirror each other |
| Matchup.SimulateMatchup | league.py:152-168 | a winner, when there is one, is one of the two teams |
| Matchup.SimulateMatchupSucceedsIff | league.py:155-160 | the matchup completes exactly when team 1's categories are among team 2's; a failure is a KeyError on a category only team 1 reports |
| Matchup.SimulateMatchupRecords | league.py:156-168 | the two records mirror each other and sum to team 1's category count; the winner is the team with strictly more category wins, None on equality |
| Matchup.SimulateMatchupUniform | league.py:152-168 | with shared categories the matchup completes, each record counts C categories, and a team wins exactly when it takes more categories than it loses |
| Matchup.SimulateMatchupSymmetric | league.py:152-168 | simulating the pair the other way round swaps the records and keeps the winner |
| Pairs.CombinationsMember | league.py:140 | a pair is enumerated exactly when it is two positions of the team order in increasing order |
| Pairs.CombinationsLength | league.py:140 | n teams give n(n-1)/2 pairs |
| Pairs.CombinationsDistinct | league.py:140 | over distinct teams no pair is enumerated twice |
| Pairs.CombinationsOnce | league.py:140 | each unordered pair of teams appears once, in order, never reversed |
| Pairs.OccurrencesCombinations | league.py:140 | every team plays n-1 of the pairs, and a non-member plays none |
| RoundRobin.Init | league.py:137-138 | both dictionaries are keyed by exactly the teams, with zero wins and an empty record |
| RoundRobin.CreditWinner | league.py:144-145 | the winner, if any, gains one win and nobody else changes |
| RoundRobin.AddRecord | league.py:147-148 | the team's record grows by its side of the matchup and no other record changes |
| RoundRobin.Apply | league.py:141-148 | one iteration keeps both dictionaries keyed by the same teams |
| RoundRobin.Fold | league.py:141-148 | the loop over the pairs keeps both dictionaries keyed by the same teams |
| RoundRobin.Outcomes | league.py:141-142 | a completed loop has one matchup outcome per pair |
| RoundRobin.OutcomesSucceedIff | league.py:141-142 | the loop completes exactly when every pair's matchup completes |
| RoundRobin.OutcomesFirstFailure | league.py:141-142 | an aborted loop reports the error of the first pair whose matchup fails |
| RoundRobin.OutcomesValues | league.py:141-142 | each outcome of a completed loop is its own pair's matchup |
| RoundRobin.WeekOutcomes | league.py:140-142 | every completed matchup of `combinations(teams, 2)` credits one of its two teams or nobody |
| RoundRobin.Tabulate | league.py:137-148 | the standings after all pairs are keyed by exactly the teams |
| RoundRobin.SimulateMatchups | league.py:133-150 | a completed week has both dictionaries keyed by exactly the teams |
| RoundRobin.SimulateMatchupsSucceedsIff | league.py:133-150 | the week completes exactly when each team's categories are reported by every team after it |
| RoundRobin.ApplyWins | league.py:144-145 | one iteration credits only the winner, and the win sum grows by one exactly when there is one |
| RoundRobin.ApplyTotals | league.py:147-148 | one iteration grows both teams' totals by their records and nobody else's |
| RoundRobin.FoldTotals | league.py:141-148 | each team's total grows by C categories for every pair it plays |
| RoundRobin.FoldWins | league.py:141-148 | each team's win count grows by at most one per pair it plays; the win sum grows by the decisive pairs |
| RoundRobin.ApplyTotalsExact | league.py:147-148 | one iteration adds each team's side of the matchup to its total, category by category; other teams are unchanged |
| RoundRobin.FoldWinsExact | league.py:141-145 | each team's win count grows by exactly the number of matchups it wins |
| RoundRobin.FoldTotalsExact | league.py:141-148 | each team's total grows by the element-wise sum of its sides of the matchups it plays |
| RoundRobin.TabulateValues | league.py:137-148 | after the loop over all pairs, a team's win count is the number of matchups it won and its record the sum of its sides |
| RoundRobin.SimulateMatchupsValues | league.py:133-150 | the week completes exactly when every matchup does; then each team's wins and cumulative record are the values above |
| RoundRobin.RoundRobinCounts | league.py:133-150 | each total counts (n-1)×C categories, no team wins more than n-1 matchups, and the wins sum to the decisive pairs, at most n(n-1)/2 |
| RoundRobin.SimulateMatchupsProperties | league.py:133-150 | for teams with shared categories the week completes and the round-robin counts hold |
| RoundRobin.OneTeamLeague | league.py:137-140 | a one-team league plays nothing and keeps zero wins and an empty record |
| Script.ScriptBump | main.py:68-84 | each inline branch adds one category to both records and keeps them mirrored |
| Script.ScriptBumpAgrees | main.py:68-84 | the inline branches increment the slots `_process_stat` returns |
| Script.ScriptLoop | main.py:67-85 | the records built so far mirror each other |
| Script.ScriptLoopTotal | main.py:67-85 | after visiting k categories each record counts k |
| Script.ScriptLoopTally | main.py:67-85 | the script's loop fails exactly when the league's tally does, with the same KeyError, and otherwise builds the same records |
| Script.SimulateMatchupScript | main.py:62-85 | the returned records mirror each other |
| Script.SimulateMatchupScriptAgrees | main.py:62-85 | the script's matchup and the league's fail together with the same error, or give the same records |
| Script.SimulateMatchupScriptRecords | main.py:62-85 | the matchup completes exactly when team 2 reports team 1's categories, and both records then count all of them; a failure is a KeyError on a category only team 1 reports |
| Script.UpdateWinRecord | main.py:88-93 | the team gains an entry in both dictionaries and no entry is lost |
| Script.UpdateWinRecordEffect | main.py:88-93 | one more win exactly when wins > losses, unchanged otherwise; the first record is stored as it is and later ones are added element-wise to the stored one; nobody else changes |
| Script.Run | main.py:119-126 | a completed loop keeps every team already present |
| Script.RunCovers | main.py:119-126 | every team of a played pair has an entry afterwards |
| Script.RunAgrees | main.py:119-126 | the script's loop and the league's loop over the same pairs fail together with the same error, or agree team by team |
| Script.ScriptAgreesWithWeek | main.py:119-126 | the script and the league's week fail together with the same error, or agree team by team |
| Script.ScriptCoversAll | main.py:119-126 | with two or more teams, every team ends up with an entry |
| Script.ScriptMatchesLeague | main.py:119-126 | with two or more teams the script ends with exactly the league's dictionaries, or the same error |
| Script.ScriptOneTeam | main.py:119-126 | with at most one team the script's dictionaries stay empty |
| Script.CheckWeek | main.py:103-104 | a week is accepted exactly when 0 < week ≤ current week; otherwise ValueError |
| Ranking.BelowTotal | app.py:50-51 | tuple comparison orders any two keys |
| Ranking.BelowTransitive | app.py:50-51 | tuple comparison is transitive |
| Ranking.BelowAsymmetric | app.py:50-51 | no two keys are each below the other |
| Ranking.WinKey | app.py:50 | the key is (wins, category wins, −category losses) |
| Ranking.WinKeyBeatsFirst | main.py:140 | more opponents beaten ranks higher whatever the category totals |
| Ranking.WinKeyTieBreaks | main.py:140 | on equal wins, more category wins ranks higher, then fewer category losses; equal on all three gives equal keys |
| Ranking.TotalKey | app.py:65 | the key is (category wins, −category losses) |
| Ranking.WinItems | app.py:50-51 | one item per team of the wins dictionary, in its order, carrying that team's win key |
| Ranking.TotalItems | app.py:62-65 | one item per team of the totals dictionary, in its order, carrying that team's total key |
| Ranking.Leader | app.py:51 | `max` succeeds exactly on a nonempty dictionary and otherwise raises ValueError |
| Ranking.MaxFrom | app.py:51 | the `max` loop's answer is a position at or after the best one seen so far |
| Ranking.MaxIndex | app.py:51 | `max` returns a position of the sequence |
| Ranking.FirstMaximalUnique | app.py:51 | only one position is the first maximal one, so `max`'s answer is determined |
| Ranking.MaxFromFirstMaximal | app.py:51 | the `max` loop keeps the first position whose key no item exceeds |
| Ranking.LeaderIsFirstMaximal | app.py:50-51 | the leader's key is maximal, and every earlier team's key is strictly smaller |
| Ranking.SortDescSpec | app.py:18-20 | the sorted table is a permutation of the items, in non-increasing key order, with equal-key items in their original order |
| Ranking.SortDescHead | app.py:18-20 | the first row of the sorted table is the first item with a maximal key |
| Ranking.Insert | app.py:20 | inserting an item adds exactly that item to the table |
| Ranking.SortDesc | app.py:20 | sorting keeps the number of rows |
| Ranking.LeaderHeadsTable | app.py:49-61 | the leader named above the tables is the first row of the Wins table |
| Ranking.WinsTableRanked | main.py:140 | the Wins table lists every team once and never ranks a team above one with a larger key |
| Ranking.TotalTableRanked | app.py:62-67 | the Total table lists every team once and never ranks a team above one with a larger key |
| Ranking.WinsTable | app.py:55-61 | the Wins table has one row per team of the dictionary |
| Ranking.TotalTable | app.py:62-67 | the Total table has one row per team of the dictionary |
| Ranking.WeekOptions | league.py:65-67 | the options are start_week, start_week+1, …, current_week, or none |
| Ranking.IndexOf | app.py:49 | `index` returns the first position of the week, or ValueError when it is absent |
| Ranking.WeekLabel | app.py:49 | the label exists exactly for an offered week and is "Winner" or "Leader" |
| Ranking.WeekLabelSeason | app.py:49 | in a season's options, the label is "Leader" exactly for the current week |
| Ranking.DefaultWeekIsLeader | app.py:44-45 | the selector opens on the current week, labelled "Leader" |
| Script.WeekOptionsAccepted | main.py:103-104 | every week the app offers in a season starting at week 1 or later passes the script's range check |
| Cache.GetResultsForWeek | league.py:91-102 | a computed week is stored under its number; a failure stores nothing; other weeks are untouched |
| Cache.CacheHit | league.py:92-93 | a cached week is returned as stored, whatever the league now reports |
| Cache.CacheMiss | league.py:95-102 | an uncached week is computed by the aggregator and stored only if the computation completes |
| Cache.CacheIdempotent | league.py:91-102 | a second request for a week returns the first answer and leaves the cache unchanged |
| Cache.CacheOtherWeeks | league.py:101 | a request never changes another week's entry |
| LeagueAsWritten.SimulateMatchupsAsWritten | league.py:137-142 | as written, the week completes exactly when there is at most one team, and otherwise raises TypeError |
| LeagueAsWritten.SimulateMatchupsAsWrittenFails | league.py:142 | every league of two or more teams with shared categories raises TypeError as written but completes once repaired |
| LeagueAsWritten.SimulateMatchupsAsWrittenSmall | league.py:137-140 | with at most one team the written and repaired code agree |
| LeagueAsWritten.CreditWinnerAsWritten | league.py:144-145 | as written, crediting succeeds, and changes nothing, exactly when there is no winner or the winner's name is "" |
| LeagueAsWritten.CreditWinnerAsWrittenAgrees | league.py:144-145 | the written and repaired crediting agree exactly on tied matchups |
| LeagueAsWritten.CreditWinnerAsWrittenRaises | league.py:145 | a win by "A" raises TypeError as written, where the repair credits "A" |
| LeagueAsWritten.CreditWinnerAsWrittenSkipsEmptyName | league.py:144 | a win by a team named "" is not credited as written |
| LeagueAsWritten.FoldAsWritten | league.py:141-148 | as written, the loop either leaves the win counts untouched or raises TypeError |
| LeagueAsWritten.FoldAsWrittenIff | league.py:141-148 | as written, the loop completes exactly when no winner has a non-empty name, and with all matchups tied it equals the repaired loop |

## Left out

- The Yahoo OAuth login, the `yahoo_fantasy_api` calls and the JSON they return are I/O:
  - `_get_auth` and `_get_league`;
  - `_get_team_stats_from_matchups` and `_convert_team_stats`;
  - `digest_team_stats` and `digest_matchup_stats`.
  The statistics they produce are an input of the model.
- Statistic values are `real`, standing in for Python floats. Float rounding and NaN are not modelled.
- Stat keys outside the nine categories cannot be represented. The stat-id table drops every other
  id before the engine sees the data.
- Streamlit and pandas output, `print_obj_map`'s data frame, `pretty_print`, the league name and the
  URL are presentation only. The tables are modelled as the ordered list of team names.
- main.py's command-line parsing (`sys.argv`, `int(...)`) is left out. The week is an `int` input.
- The text of main.py's range-check message is left out. It says "> 1", but the check is `0 < week`,
  and `Script.CheckWeek` models the check.
- `Ranking.DefaultWeekIsLeader`: the default index is only described when the season offers at least
  one week. With no week, `len(week_opts) - 1` is −1, and the selector's handling of −1 lies
  outside this code.
- `RoundRobin.SimulateMatchups` computes every matchup first and then applies them in order, where
  the source interleaves the two. The two give the same result, because a matchup only reads
  `teams`, which the loop never writes.
- `Script.ScriptBump` tests the category rather than the label string "TO".
  `Registry.LabelIsTurnovers` shows the two tests are the same.
- The cache is a value passed in and returned. The single-threaded mutation of `self.results_cache`
  is not modelled as shared state.

## Findings

| source | as written | input that shows it | evidently intended | confidence | as-written member | corrected member |
|---|---|---|---|---|---|---|
| league.py:142 | `self._simulate_matchup(t1_name, t2_name)` omits the `teams` parameter, so Python raises TypeError at the first pair | any league of two teams | `self._simulate_matchup(teams, t1_name, t2_name)` | high, not executed | LeagueAsWritten.SimulateMatchupsAsWrittenFails | RoundRobin.SimulateMatchups |
| league.py:145 | `win_record[winner][0] += 1` subscripts the integer win count and raises TypeError | a matchup won by "A" | `win_record[winner] += 1` | high, not executed | LeagueAsWritten.CreditWinnerAsWrittenRaises | RoundRobin.CreditWinner |
| league.py:144 | `if winner:` is false for a team named "", so that team's wins are never counted | a matchup won by a team named "" | `if winner is not None:` | low, not executed | LeagueAsWritten.CreditWinnerAsWrittenSkipsEmptyName | RoundRobin.CreditWinner |
