/** league.py `_simulate_matchups` lines 142 and 144-145 as written, beside the repaired aggregator
    in `RoundRobin`: line 142 calls `_simulate_matchup` without its `teams` argument, and line 145
    subscripts the integer win count. `FoldAsWritten` repairs line 142 so that line 145 is
    reached. */
module LeagueAsWritten {
  import opened Wrappers
  import opened Errors
  import opened Records
  import opened Registry
  import opened Matchup
  import opened Pairs
  import opened RoundRobin

  /** Lines 137-150 as written: the dictionaries start at zero, and the first pair's call at line
      142 raises TypeError (a required positional argument is missing), so the loop only finishes
      when there is no pair at all. */
  function SimulateMatchupsAsWritten(teams: TeamStats): (r: Result<Standings, Error>)
    requires WellFormed(teams)
    ensures r.Success? <==> |teams.order| <= 1
    ensures r.Failure? ==> r.error == TypeError
  {
    CombinationsLength(teams.order);
    if |Combinations(teams.order)| == 0 then Success(Init(teams.order)) else Failure(TypeError)
  }

  /** Every league of two or more teams that report the same categories breaks the written code,
      while the repaired aggregator completes for it. */
  lemma SimulateMatchupsAsWrittenFails(teams: TeamStats, keys: set<Stat>)
    requires WellFormed(teams) && Uniform(teams, keys) && |teams.order| >= 2
    ensures SimulateMatchupsAsWritten(teams) == Failure(TypeError)
    ensures SimulateMatchups(teams).Success?
  {
    SimulateMatchupsProperties(teams, keys);
  }

  /** With at most one team no matchup is simulated, and the written code agrees with the
      repaired aggregator. */
  lemma SimulateMatchupsAsWrittenSmall(teams: TeamStats)
    requires WellFormed(teams) && |teams.order| <= 1
    ensures SimulateMatchupsAsWritten(teams) == SimulateMatchups(teams)
  {
    assert Combinations(teams.order) == [];
  }

  /** Lines 144-145 as written: `if winner:` skips `None` and also a winner named "" (an empty
      string is false in Python); any other winner reaches `win_record[winner][0] += 1`, which
      subscripts an `int` and raises TypeError. */
  function CreditWinnerAsWritten(wins: map<string, nat>, winner: Option<string>): (r: Result<map<string, nat>, Error>)
    requires winner.Some? ==> winner.value in wins
    ensures r.Success? <==> winner.None? || winner.value == ""
    ensures r.Success? ==> r.value == wins
    ensures r.Failure? ==> r.error == TypeError
  {
    if winner.Some? && winner.value != "" then Failure(TypeError) else Success(wins)
  }

  /** The written crediting agrees with the repaired `CreditWinner` exactly for a tied matchup. */
  lemma CreditWinnerAsWrittenAgrees(wins: map<string, nat>, winner: Option<string>)
    requires winner.Some? ==> winner.value in wins
    ensures CreditWinnerAsWritten(wins, winner) == Success(CreditWinner(wins, winner)) <==> winner.None?
  {
    if winner.Some? {
      var t := winner.value;
      assert CreditWinner(wins, winner)[t] == wins[t] + 1;
    }
  }

  /** A decisive matchup won by "A" raises TypeError where the repaired code credits "A". */
  lemma CreditWinnerAsWrittenRaises()
    ensures CreditWinnerAsWritten(map["A" := 0], Some("A")) == Failure(TypeError)
    ensures CreditWinner(map["A" := 0], Some("A")) == map["A" := 1]
  {
  }

  /** A matchup won by a team named "" is not credited as written. */
  lemma CreditWinnerAsWrittenSkipsEmptyName()
    ensures CreditWinnerAsWritten(map["" := 0], Some("")) == Success(map["" := 0])
    ensures CreditWinner(map["" := 0], Some("")) == map["" := 1]
  {
  }

  /** The loop of lines 141-148 with the call at line 142 repaired and lines 144-145 as written,
      applied to the matchups' outcomes in order. */
  function FoldAsWritten(st: Standings, pairs: seq<(string, string)>, outcomes: seq<Outcome>): (r: Result<Standings, Error>)
    requires Among(pairs, st.wins.Keys) && Among(pairs, st.totals.Keys) && Credible(pairs, outcomes)
    ensures r.Success? ==> r.value.wins == st.wins
    ensures r.Failure? ==> r.error == TypeError
    decreases |pairs|
  {
    if |pairs| == 0 then Success(st)
    else
      var p, o := pairs[0], outcomes[0];
      match CreditWinnerAsWritten(st.wins, o.winner)
      case Failure(e) => Failure(e)
      case Success(wins) =>
        var next := Standings(wins, AddRecord(AddRecord(st.totals, p.0, o.record1), p.1, o.record2));
        assert forall i :: 0 < i < |pairs| ==> pairs[i] == pairs[1..][i - 1] && outcomes[i] == outcomes[1..][i - 1];
        FoldAsWritten(next, pairs[1..], outcomes[1..])
  }

  /** Whether no outcome credits a team the written code would subscript. */
  predicate Creditless(outcomes: seq<Outcome>) {
    forall i :: 0 <= i < |outcomes| ==> outcomes[i].winner.None? || outcomes[i].winner.value == ""
  }

  /** The written loop completes exactly when no matchup has a winner with a non-empty name, and
      when every matchup is tied it computes what the repaired loop computes. */
  lemma {:induction false} FoldAsWrittenIff(st: Standings, pairs: seq<(string, string)>, outcomes: seq<Outcome>)
    requires Among(pairs, st.wins.Keys) && Among(pairs, st.totals.Keys) && Credible(pairs, outcomes)
    ensures FoldAsWritten(st, pairs, outcomes).Success? <==> Creditless(outcomes)
    ensures (forall i :: 0 <= i < |outcomes| ==> outcomes[i].winner.None?) ==>
      FoldAsWritten(st, pairs, outcomes) == Success(Fold(st, pairs, outcomes))
    decreases |pairs|
  {
    if |pairs| > 0 {
      var p, o := pairs[0], outcomes[0];
      var tailPairs, tailOutcomes := pairs[1..], outcomes[1..];
      assert forall i :: 0 < i < |pairs| ==> pairs[i] == tailPairs[i - 1] && outcomes[i] == tailOutcomes[i - 1];
      var credited := CreditWinnerAsWritten(st.wins, o.winner);
      if credited.Success? {
        var next := Standings(st.wins, AddRecord(AddRecord(st.totals, p.0, o.record1), p.1, o.record2));
        FoldAsWrittenIff(next, tailPairs, tailOutcomes);
        assert FoldAsWritten(st, pairs, outcomes) == FoldAsWritten(next, tailPairs, tailOutcomes);
        if o.winner.None? {
          assert Apply(st, p, o) == next;
        }
      } else {
        assert !Creditless(outcomes);
      }
    }
  }
}
