/** The stand-alone script main.py: the same round robin, written with inline comparisons and with
    dictionaries that gain a team at its first matchup. */
module Script {
  import opened Wrappers
  import opened Errors
  import opened Dicts
  import opened Records
  import opened Registry
  import opened Comparator
  import opened Matchup
  import opened Pairs
  import opened RoundRobin
  import opened Ranking

  /** The records after bumping both sides for one category, team 1 holding `v1` and team 2 `v2`:
      the inline branches of main.py:68-84. The script tests the category's label against "TO";
      only turnovers carry that label (`LabelIsTurnovers`), so the test is written on the category. */
  function ScriptBump(stat: Stat, v1: real, v2: real, rec1: Record, rec2: Record): (r: (Record, Record))
    ensures r.0.Total() == rec1.Total() + 1 && r.1.Total() == rec2.Total() + 1
    ensures rec2 == rec1.Mirror() ==> r.1 == r.0.Mirror()
  {
    if v1 > v2 then
      if stat == TO then (rec1.(losses := rec1.losses + 1), rec2.(wins := rec2.wins + 1))
      else (rec1.(wins := rec1.wins + 1), rec2.(losses := rec2.losses + 1))
    else if v1 < v2 then
      if stat == TO then (rec1.(wins := rec1.wins + 1), rec2.(losses := rec2.losses + 1))
      else (rec1.(losses := rec1.losses + 1), rec2.(wins := rec2.wins + 1))
    else
      (rec1.(ties := rec1.ties + 1), rec2.(ties := rec2.ties + 1))
  }

  /** The inline branches bump the slots the league's comparator returns. */
  lemma ScriptBumpAgrees(stat: Stat, v1: real, v2: real, rec1: Record, rec2: Record)
    ensures var slots := ProcessStat(stat, v1, v2);
      ScriptBump(stat, v1, v2, rec1, rec2) == (rec1.Bump(slots.0), rec2.Bump(slots.1))
  {
  }

  /** The state of the loop of main.py:67-84 once it has visited `stats`, a prefix of team 1's
      categories: both records, or the KeyError raised by the subscript of team 2's stats at the
      first category team 2 lacks. The two records mirror each other. */
  function ScriptLoop(stats: seq<Stat>, s1: map<Stat, real>, s2: map<Stat, real>): (r: Result<(Record, Record), Error>)
    requires AllIn(stats, s1)
    ensures r.Success? ==> r.value.1 == r.value.0.Mirror()
    decreases |stats|
  {
    if |stats| == 0 then Success((Zero, Zero))
    else
      var n := |stats| - 1;
      var last := stats[n];
      assert stats == stats[..n] + [last];
      AllInAppend(stats[..n], [last], s1);
      var before := ScriptLoop(stats[..n], s1, s2);
      if before.Failure? then before
      else if last !in s2 then Failure(KeyError(last))
      else Success(ScriptBump(last, s1[last], s2[last], before.value.0, before.value.1))
  }

  /** Each record counts every visited category once. */
  lemma {:induction false} ScriptLoopTotal(stats: seq<Stat>, s1: map<Stat, real>, s2: map<Stat, real>)
    requires AllIn(stats, s1)
    ensures ScriptLoop(stats, s1, s2).Success? ==> ScriptLoop(stats, s1, s2).value.0.Total() == |stats|
    decreases |stats|
  {
    if |stats| > 0 {
      var n := |stats| - 1;
      assert stats == stats[..n] + [stats[n]];
      AllInAppend(stats[..n], [stats[n]], s1);
      ScriptLoopTotal(stats[..n], s1, s2);
    }
  }

  /** The script's loop computes what the league's tally does. */
  lemma {:induction false} ScriptLoopTally(stats: seq<Stat>, s1: map<Stat, real>, s2: map<Stat, real>)
    requires AllIn(stats, s1)
    ensures var r, t := ScriptLoop(stats, s1, s2), Tally(stats, s1, s2);
      && r.Success? == t.Success?
      && (r.Failure? ==> r.error == t.error)
      && (r.Success? ==> r.value == t.value)
    decreases |stats|
  {
    if |stats| > 0 {
      var n := |stats| - 1;
      var before, last := stats[..n], stats[n];
      assert stats == before + [last];
      AllInAppend(before, [last], s1);
      ScriptLoopTally(before, s1, s2);
      var r := ScriptLoop(before, s1, s2);
      if !AllIn(before, s2) {
        FirstMissingSnoc(before, last, s2);
        assert ScriptLoop(stats, s1, s2) == r;
      } else if last !in s2 {
        FirstMissingLast(before, last, s2);
        assert ScriptLoop(stats, s1, s2) == Failure(KeyError(last));
      } else {
        CountSnoc(before, last, s1, s2);
        ScriptBumpAgrees(last, s1[last], s2[last], r.value.0, r.value.1);
        assert ScriptLoop(stats, s1, s2) == Success(ScriptBump(last, s1[last], s2[last], r.value.0, r.value.1));
      }
    }
  }

  /** main.py `simulate_matchup`: both teams' records, or the KeyError of the first category of team 1
      that team 2 lacks. The two records mirror each other. */
  function SimulateMatchupScript(teams: TeamStats, t1: string, t2: string): (r: Result<(Record, Record), Error>)
    requires WellFormed(teams) && t1 in teams.entries && t2 in teams.entries
    ensures r.Success? ==> r.value.1 == r.value.0.Mirror()
  {
    var s1 := teams.entries[t1];
    AllInIff(s1.order, s1.entries);
    ScriptLoop(s1.order, s1.entries, teams.entries[t2].entries)
  }

  /** The script's matchup and the league's fail together with the same KeyError and otherwise
      build the same records. */
  lemma SimulateMatchupScriptAgrees(teams: TeamStats, t1: string, t2: string)
    requires WellFormed(teams) && t1 in teams.entries && t2 in teams.entries
    ensures var s, m := SimulateMatchupScript(teams, t1, t2), SimulateMatchup(teams, t1, t2);
      && s.Success? == m.Success?
      && (s.Failure? ==> s.error == m.error)
      && (s.Success? ==> s.value == (m.value.record1, m.value.record2))
  {
    var s1, s2 := teams.entries[t1], teams.entries[t2];
    AllInIff(s1.order, s1.entries);
    ScriptLoopTally(s1.order, s1.entries, s2.entries);
  }

  /** The script's matchup completes exactly when team 2 reports every category team 1 does, and then
      each record counts every category; otherwise it raises KeyError on a category only team 1
      reports. */
  lemma SimulateMatchupScriptRecords(teams: TeamStats, t1: string, t2: string)
    requires WellFormed(teams) && t1 in teams.entries && t2 in teams.entries
    ensures var r := SimulateMatchupScript(teams, t1, t2);
      && (r.Success? <==> teams.entries[t1].entries.Keys <= teams.entries[t2].entries.Keys)
      && (r.Success? ==> r.value.0.Total() == r.value.1.Total() == |teams.entries[t1].entries|)
      && (r.Failure? ==> r.error.KeyError? && r.error.stat in teams.entries[t1].entries
                         && r.error.stat !in teams.entries[t2].entries)
  {
    var s1 := teams.entries[t1];
    AllInIff(s1.order, s1.entries);
    DictCard(s1);
    ScriptLoopTotal(s1.order, s1.entries, teams.entries[t2].entries);
    SimulateMatchupSucceedsIff(teams, t1, t2);
    SimulateMatchupScriptAgrees(teams, t1, t2);
  }

  /** `wins.get(name, 0)` of the script's `defaultdict(int)`. */
  function WinsOf(wins: map<string, nat>, name: string): nat {
    if name in wins then wins[name] else 0
  }

  /** main.py `update_win_record`: `wins[name] += 1 if record[0] > record[1] else 0` on a
      `defaultdict(int)`, and the record stored as it is or added to the stored one. */
  function UpdateWinRecord(st: Standings, name: string, record: Record): (r: Standings)
    ensures r.wins.Keys == st.wins.Keys + {name} && r.totals.Keys == st.totals.Keys + {name}
  {
    var wins := st.wins[name := WinsOf(st.wins, name) + if record.wins > record.losses then 1 else 0];
    var totals := if name !in st.totals then st.totals[name := record]
                  else st.totals[name := record.Plus(st.totals[name])];
    Standings(wins, totals)
  }

  /** The team gains an entry in `wins` even when the matchup does not credit it, and one more win
      exactly when it took more categories than it lost; its first record is stored as it is and
      later ones are added to the stored one. No other team changes. */
  lemma UpdateWinRecordEffect(st: Standings, name: string, record: Record)
    ensures var r := UpdateWinRecord(st, name, record);
      && (r.wins[name] == WinsOf(st.wins, name) + 1 <==> record.wins > record.losses)
      && (r.wins[name] == WinsOf(st.wins, name) <==> record.wins <= record.losses)
      && (name !in st.totals ==> r.totals[name] == record)
      && (name in st.totals ==> r.totals[name] == record.Plus(st.totals[name]))
      && (name in st.totals ==> r.totals[name].Total() == record.Total() + st.totals[name].Total())
      && (forall t :: t in st.wins && t != name ==> r.wins[t] == st.wins[t])
      && (forall t :: t in st.totals && t != name ==> r.totals[t] == st.totals[t])
  {
  }

  /** The loop of main.py:123-126 over `pairs` from the dictionaries `st`: each pair's matchup
      updates team 1 and then team 2; the first failing matchup aborts the script. Every team of
      a pair ends up with an entry. */
  function Run(teams: TeamStats, st: Standings, pairs: seq<(string, string)>): (r: Result<Standings, Error>)
    requires WellFormed(teams) && Among(pairs, teams.entries.Keys)
    ensures r.Success? ==> st.wins.Keys <= r.value.wins.Keys
    decreases |pairs|
  {
    if |pairs| == 0 then Success(st)
    else
      PairsTail(pairs, teams.entries.Keys);
      var pair := pairs[0];
      var m := SimulateMatchupScript(teams, pair.0, pair.1);
      if m.Failure? then Failure(m.error)
      else
        Run(teams, UpdateWinRecord(UpdateWinRecord(st, pair.0, m.value.0), pair.1, m.value.1), pairs[1..])
  }

  /** A completed loop has an entry for every team of every pair. */
  lemma {:induction false} RunCovers(teams: TeamStats, st: Standings, pairs: seq<(string, string)>)
    requires WellFormed(teams) && Among(pairs, teams.entries.Keys)
    ensures Run(teams, st, pairs).Success? ==> Among(pairs, Run(teams, st, pairs).value.wins.Keys)
    decreases |pairs|
  {
    if |pairs| > 0 && Run(teams, st, pairs).Success? {
      PairsTail(pairs, teams.entries.Keys);
      var pair := pairs[0];
      var m := SimulateMatchupScript(teams, pair.0, pair.1);
      var next := UpdateWinRecord(UpdateWinRecord(st, pair.0, m.value.0), pair.1, m.value.1);
      RunCovers(teams, next, pairs[1..]);
      var last := Run(teams, next, pairs[1..]);
      assert Run(teams, st, pairs) == last;
      forall i | 0 <= i < |pairs|
        ensures pairs[i].0 in last.value.wins && pairs[i].1 in last.value.wins
      {
        if i > 0 {
          assert pairs[i] == pairs[1..][i - 1];
        }
      }
    }
  }

  /** main.py:119-126: the loop over `itertools.combinations(teams, 2)` from an empty `defaultdict`
      and an empty `total_record`. */
  function RunScript(teams: TeamStats): (r: Result<Standings, Error>)
    requires WellFormed(teams)
  {
    CombinationsAmong(teams.order, teams.entries.Keys);
    Run(teams, Standings(map[], map[]), Combinations(teams.order))
  }

  /** The script's dictionaries `s` hold the league's standings `l` for every team they have seen;
      every team not yet seen still has the league's initial zeros. */
  predicate Agree(s: Standings, l: Standings, names: set<string>) {
    && KeyedBy(l, names)
    && s.wins.Keys == s.totals.Keys && s.wins.Keys <= names
    && WinsAgree(s.wins, l.wins, names)
    && TotalsAgree(s.totals, l.totals, names)
  }

  predicate WinsAgree(s: map<string, nat>, l: map<string, nat>, names: set<string>)
    requires l.Keys == names
  {
    && (forall t :: t in s ==> t in names && s[t] == l[t])
    && (forall t :: t in names && t !in s ==> l[t] == 0)
  }

  predicate TotalsAgree(s: map<string, Record>, l: map<string, Record>, names: set<string>)
    requires l.Keys == names
  {
    && (forall t :: t in s ==> t in names && s[t] == l[t])
    && (forall t :: t in names && t !in s ==> l[t] == Zero)
  }

  /** One pair's win updates keep the script's counts in step with the league's: crediting the team
      with more category wins is the same as crediting the team whose record shows more wins than
      losses. */
  lemma StepWins(names: set<string>, s: Standings, l: Standings, pair: (string, string), o: Outcome)
    requires Agree(s, l, names) && pair.0 in names && pair.1 in names && pair.0 != pair.1
    requires o.record2 == o.record1.Mirror()
    requires o.record1.wins > o.record2.wins ==> o.winner == Some(pair.0)
    requires o.record1.wins < o.record2.wins ==> o.winner == Some(pair.1)
    requires o.record1.wins == o.record2.wins ==> o.winner == None
    ensures var s2 := UpdateWinRecord(UpdateWinRecord(s, pair.0, o.record1), pair.1, o.record2);
      CreditWinner(l.wins, o.winner).Keys == names && WinsAgree(s2.wins, CreditWinner(l.wins, o.winner), names)
  {
    var s1 := UpdateWinRecord(s, pair.0, o.record1);
    var s2 := UpdateWinRecord(s1, pair.1, o.record2);
    var w := CreditWinner(l.wins, o.winner);
    forall t | t in s2.wins
      ensures t in names && s2.wins[t] == w[t]
    {
      if t == pair.0 {
        assert s2.wins[t] == s1.wins[t] == WinsOf(s.wins, t) + (if o.record1.wins > o.record1.losses then 1 else 0);
      } else if t == pair.1 {
        assert s2.wins[t] == WinsOf(s1.wins, t) + (if o.record2.wins > o.record2.losses then 1 else 0);
      } else {
        assert s2.wins[t] == s.wins[t];
      }
    }
  }

  /** One pair's record updates keep the script's totals in step with the league's: a first record
      stored as it is equals that record added to the league's initial zeros. */
  lemma StepTotals(names: set<string>, s: Standings, l: Standings, pair: (string, string), o: Outcome)
    requires Agree(s, l, names) && pair.0 in names && pair.1 in names && pair.0 != pair.1
    ensures var s2 := UpdateWinRecord(UpdateWinRecord(s, pair.0, o.record1), pair.1, o.record2);
      var t2 := AddRecord(AddRecord(l.totals, pair.0, o.record1), pair.1, o.record2);
      t2.Keys == names && TotalsAgree(s2.totals, t2, names)
  {
    var s1 := UpdateWinRecord(s, pair.0, o.record1);
    var s2 := UpdateWinRecord(s1, pair.1, o.record2);
    var t2 := AddRecord(AddRecord(l.totals, pair.0, o.record1), pair.1, o.record2);
    forall t | t in s2.totals
      ensures t in names && s2.totals[t] == t2[t]
    {
      if t == pair.0 {
        PlusZeroRight(o.record1);
      } else if t == pair.1 {
        PlusZeroRight(o.record2);
      } else {
        assert s2.totals[t] == s.totals[t];
      }
    }
  }

  /** One pair's updates keep the script and the league in step. */
  lemma StepAgrees(names: set<string>, s: Standings, l: Standings, pair: (string, string), o: Outcome)
    requires Agree(s, l, names) && pair.0 in names && pair.1 in names && pair.0 != pair.1
    requires o.record2 == o.record1.Mirror()
    requires o.record1.wins > o.record2.wins ==> o.winner == Some(pair.0)
    requires o.record1.wins < o.record2.wins ==> o.winner == Some(pair.1)
    requires o.record1.wins == o.record2.wins ==> o.winner == None
    ensures Agree(UpdateWinRecord(UpdateWinRecord(s, pair.0, o.record1), pair.1, o.record2), Apply(l, pair, o), names)
  {
    StepWins(names, s, l, pair, o);
    StepTotals(names, s, l, pair, o);
  }

  /** From dictionaries in step with the league's, the script's loop and the league's fail together
      with the same error, or end in step. */
  lemma {:induction false} RunAgrees(teams: TeamStats, s: Standings, l: Standings, pairs: seq<(string, string)>)
    requires WellFormed(teams) && Among(pairs, teams.entries.Keys) && Proper(pairs)
    requires Agree(s, l, teams.entries.Keys)
    requires Outcomes(teams, pairs).Success? ==> Credible(pairs, Outcomes(teams, pairs).value)
    ensures var run, outs := Run(teams, s, pairs), Outcomes(teams, pairs);
      && run.Success? == outs.Success?
      && (run.Failure? ==> run.error == outs.error)
      && (run.Success? ==> Agree(run.value, Fold(l, pairs, outs.value), teams.entries.Keys))
    decreases |pairs|
  {
    if |pairs| > 0 {
      var names := teams.entries.Keys;
      var pair := pairs[0];
      PairsTail(pairs, names);
      SimulateMatchupScriptAgrees(teams, pair.0, pair.1);
      var m := SimulateMatchup(teams, pair.0, pair.1);
      if m.Success? {
        var o := m.value;
        SimulateMatchupRecords(teams, pair.0, pair.1);
        var next := UpdateWinRecord(UpdateWinRecord(s, pair.0, o.record1), pair.1, o.record2);
        var lnext := Apply(l, pair, o);
        StepAgrees(names, s, l, pair, o);
        OutcomesCredible(teams, pairs[1..]);
        RunAgrees(teams, next, lnext, pairs[1..]);
        assert Run(teams, s, pairs) == Run(teams, next, pairs[1..]);
        var rest := Outcomes(teams, pairs[1..]);
        if rest.Success? {
          var outs := [o] + rest.value;
          assert Outcomes(teams, pairs) == Success(outs);
          assert outs[1..] == rest.value;
          assert Fold(l, pairs, outs) == Fold(lnext, pairs[1..], rest.value);
        }
      }
    }
  }

  /** Before the loop the script's dictionaries are empty and the league's hold zeros. */
  lemma InitAgrees(teams: TeamStats)
    requires WellFormed(teams)
    ensures Agree(Standings(map[], map[]), Init(teams.order), teams.entries.Keys)
  {
    assert teams.entries.Keys == set t | t in teams.order;
  }

  /** With two or more names, every name is in some pair of `combinations(names, 2)`. */
  lemma EveryTeamPlays(names: seq<string>, t: string)
    requires Distinct(names) && |names| >= 2 && t in names
    ensures exists k :: 0 <= k < |Combinations(names)| && Touches(Combinations(names)[k], t)
  {
    var pairs := Combinations(names);
    var i :| 0 <= i < |names| && names[i] == t;
    var j := if i == 0 then 1 else 0;
    var p := if i < j then (names[i], names[j]) else (names[j], names[i]);
    if i < j {
      CombinationsOnce(names, i, j);
    } else {
      CombinationsOnce(names, j, i);
    }
    var k :| 0 <= k < |pairs| && pairs[k] == p;
    assert Touches(pairs[k], t);
  }

  /** Once the script has seen every team, its dictionaries are the league's. */
  lemma AgreeCovered(s: Standings, l: Standings, names: set<string>)
    requires Agree(s, l, names) && names <= s.wins.Keys
    ensures s == l
  {
    assert s.wins.Keys == names == s.totals.Keys;
    assert s.wins == l.wins;
    assert s.totals == l.totals;
  }

  /** The script's loop over all pairs and the league's week fail together with the same error,
      and otherwise the script's dictionaries agree with the league's standings. */
  lemma ScriptAgreesWithWeek(teams: TeamStats)
    requires WellFormed(teams)
    ensures var run, week := RunScript(teams), WeekOutcomes(teams);
      && run.Success? == week.Success?
      && (run.Failure? ==> run.error == week.error)
      && (run.Success? ==> Agree(run.value, Tabulate(teams.order, week.value), teams.entries.Keys))
  {
    var order := teams.order;
    var pairs := Combinations(order);
    CombinationsAmong(order, teams.entries.Keys);
    CombinationsProper(order);
    OutcomesCredible(teams, pairs);
    InitAgrees(teams);
    RunAgrees(teams, Standings(map[], map[]), Init(order), pairs);
    assert RunScript(teams) == Run(teams, Standings(map[], map[]), pairs);
    assert WeekOutcomes(teams) == Outcomes(teams, pairs);
  }

  /** In a league of two or more teams every team plays, so a successful script has a wins entry
      for every team. */
  lemma ScriptCoversAll(teams: TeamStats)
    requires WellFormed(teams) && |teams.order| >= 2
    ensures RunScript(teams).Success? ==> teams.entries.Keys <= RunScript(teams).value.wins.Keys
  {
    var order := teams.order;
    var pairs := Combinations(order);
    CombinationsAmong(order, teams.entries.Keys);
    RunCovers(teams, Standings(map[], map[]), pairs);
    var run := RunScript(teams);
    assert run == Run(teams, Standings(map[], map[]), pairs);
    if run.Success? {
      forall t | t in teams.entries.Keys
        ensures t in run.value.wins
      {
        EveryTeamPlays(order, t);
      }
    }
  }

  /** In a league of two or more teams every team plays, so the script ends with the same
      dictionaries as the league's aggregator, or fails with the same KeyError. */
  lemma ScriptMatchesLeague(teams: TeamStats)
    requires WellFormed(teams) && |teams.order| >= 2
    ensures RunScript(teams) == SimulateMatchups(teams)
  {
    ScriptAgreesWithWeek(teams);
    ScriptCoversAll(teams);
    var run, week := RunScript(teams), WeekOutcomes(teams);
    if run.Success? {
      AgreeCovered(run.value, Tabulate(teams.order, week.value), teams.entries.Keys);
    }
  }

  /** A league of at most one team plays no matchup: the script's dictionaries stay empty, where the
      league's aggregator reports the team with zeros. */
  lemma ScriptOneTeam(teams: TeamStats)
    requires WellFormed(teams) && |teams.order| <= 1
    ensures RunScript(teams) == Success(Standings(map[], map[]))
  {
    assert Combinations(teams.order) == [];
  }

  /** main.py:103-104: the week must lie in `1..current_week`; any other raises ValueError. */
  function CheckWeek(week: int, currentWeek: int): (r: Result<int, Error>)
    ensures r.Success? <==> 0 < week <= currentWeek
    ensures r.Success? ==> r.value == week
    ensures r.Failure? ==> r.error == ValueError
  {
    if !(0 < week <= currentWeek) then Failure(ValueError) else Success(week)
  }

  /** A season that starts at week 1 or later only offers weeks the script's range check
      accepts. */
  lemma WeekOptionsAccepted(startWeek: int, currentWeek: int, week: int)
    requires 1 <= startWeek
    ensures week in WeekOptions(startWeek, currentWeek) ==> CheckWeek(week, currentWeek) == Success(week)
  {
  }
}
