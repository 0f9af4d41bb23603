/** The round-robin week, league.py `_simulate_matchups`: every team meets every other team once. */
module RoundRobin {
  import opened Wrappers
  import opened Errors
  import opened Dicts
  import opened Records
  import opened Registry
  import opened Matchup
  import opened Pairs

  /** The aggregator's two dictionaries: matchup wins, and the cumulative category record. */
  datatype Standings = Standings(wins: map<string, nat>, totals: map<string, Record>)

  /** Both dictionaries are keyed by exactly `names`. */
  predicate KeyedBy(st: Standings, names: set<string>) {
    st.wins.Keys == names && st.totals.Keys == names
  }

  /** Every pair names two members of `names`. */
  predicate Among(pairs: seq<(string, string)>, names: set<string>) {
    forall i :: 0 <= i < |pairs| ==> pairs[i].0 in names && pairs[i].1 in names
  }

  /** No pair puts a team against itself. */
  predicate Proper(pairs: seq<(string, string)>) {
    forall i :: 0 <= i < |pairs| ==> pairs[i].0 != pairs[i].1
  }

  /** Every team starts with no matchup wins and an empty record; no other team is present. */
  function Init(names: seq<string>): (st: Standings)
    ensures KeyedBy(st, set t | t in names)
    ensures forall t :: t in names ==> st.wins[t] == 0 && st.totals[t] == Zero
  {
    Standings(map t | t in names :: 0, map t | t in names :: Zero)
  }

  /** `win_record[winner] += 1` when there is a winner. */
  function CreditWinner(wins: map<string, nat>, winner: Option<string>): (r: map<string, nat>)
    requires winner.Some? ==> winner.value in wins
    ensures r.Keys == wins.Keys
    ensures forall t :: t in wins ==> r[t] == wins[t] + (if winner == Some(t) then 1 else 0)
  {
    if winner.Some? then wins[winner.value := wins[winner.value] + 1] else wins
  }

  /** `total_record[t] = [a + b for a, b in zip(record, total_record[t])]`. */
  function AddRecord(totals: map<string, Record>, t: string, record: Record): (r: map<string, Record>)
    requires t in totals
    ensures r.Keys == totals.Keys
    ensures forall u :: u in totals ==> r[u] == if u == t then record.Plus(totals[t]) else totals[u]
  {
    totals[t := record.Plus(totals[t])]
  }

  /** The body of the loop at league.py:141-148 once the matchup `o` of `pair` is known: credit the
      winner, then add each side's record to its total, team 1 first. */
  function Apply(st: Standings, pair: (string, string), o: Outcome): (r: Standings)
    requires pair.0 in st.totals && pair.1 in st.totals
    requires o.winner.Some? ==> o.winner.value in st.wins
    ensures r.wins.Keys == st.wins.Keys && r.totals.Keys == st.totals.Keys
  {
    var totals := AddRecord(st.totals, pair.0, o.record1);
    Standings(CreditWinner(st.wins, o.winner), AddRecord(totals, pair.1, o.record2))
  }

  /** The winner of each outcome is one of the two teams of its pair. */
  predicate Credible(pairs: seq<(string, string)>, outcomes: seq<Outcome>) {
    && |outcomes| == |pairs|
    && forall i :: 0 <= i < |pairs| && outcomes[i].winner.Some? ==> Touches(pairs[i], outcomes[i].winner.value)
  }

  /** The loop over `pairs` from the standings `st`, given each pair's matchup. */
  function Fold(st: Standings, pairs: seq<(string, string)>, outcomes: seq<Outcome>): (r: Standings)
    requires Among(pairs, st.wins.Keys) && Among(pairs, st.totals.Keys) && Credible(pairs, outcomes)
    ensures r.wins.Keys == st.wins.Keys && r.totals.Keys == st.totals.Keys
    decreases |pairs|
  {
    if |pairs| == 0 then st
    else
      var next := Apply(st, pairs[0], outcomes[0]);
      assert forall i :: 0 < i < |pairs| ==> pairs[i] == pairs[1..][i - 1] && outcomes[i] == outcomes[1..][i - 1];
      Fold(next, pairs[1..], outcomes[1..])
  }

  /** The pairs after the first keep the properties of the whole sequence. */
  lemma PairsTail(pairs: seq<(string, string)>, names: set<string>)
    requires |pairs| > 0
    ensures Among(pairs, names) ==> Among(pairs[1..], names)
    ensures Proper(pairs) ==> Proper(pairs[1..])
  {
    assert forall i :: 0 < i < |pairs| ==> pairs[i] == pairs[1..][i - 1];
  }

  /** Every pair's matchup, in order; the first failing one aborts with its error. */
  function Outcomes(teams: TeamStats, pairs: seq<(string, string)>): (r: Result<seq<Outcome>, Error>)
    requires WellFormed(teams) && Among(pairs, teams.entries.Keys)
    ensures r.Success? ==> |r.value| == |pairs|
  {
    if |pairs| == 0 then Success([])
    else
      var m := SimulateMatchup(teams, pairs[0].0, pairs[0].1);
      PairsTail(pairs, teams.entries.Keys);
      if m.Failure? then Failure(m.error)
      else
        var rest := Outcomes(teams, pairs[1..]);
        if rest.Failure? then Failure(rest.error) else Success([m.value] + rest.value)
  }

  /** The loop runs to the end exactly when every pair's matchup completes. */
  lemma {:induction false} OutcomesSucceedIff(teams: TeamStats, pairs: seq<(string, string)>)
    requires WellFormed(teams) && Among(pairs, teams.entries.Keys)
    ensures Outcomes(teams, pairs).Success? <==>
      forall i :: 0 <= i < |pairs| ==> SimulateMatchup(teams, pairs[i].0, pairs[i].1).Success?
  {
    if |pairs| > 0 {
      PairsTail(pairs, teams.entries.Keys);
      OutcomesSucceedIff(teams, pairs[1..]);
      assert forall i :: 0 < i < |pairs| ==> pairs[i] == pairs[1..][i - 1];
    }
  }

  /** Each outcome of a completed loop is its pair's matchup. */
  lemma {:induction false} OutcomesValues(teams: TeamStats, pairs: seq<(string, string)>)
    requires WellFormed(teams) && Among(pairs, teams.entries.Keys) && Outcomes(teams, pairs).Success?
    ensures forall i :: 0 <= i < |pairs| ==>
      && SimulateMatchup(teams, pairs[i].0, pairs[i].1).Success?
      && Outcomes(teams, pairs).value[i] == SimulateMatchup(teams, pairs[i].0, pairs[i].1).value
  {
    if |pairs| > 0 {
      PairsTail(pairs, teams.entries.Keys);
      OutcomesValues(teams, pairs[1..]);
      var m := SimulateMatchup(teams, pairs[0].0, pairs[0].1).value;
      var rest := Outcomes(teams, pairs[1..]).value;
      assert Outcomes(teams, pairs).value == [m] + rest;
      forall i | 0 < i < |pairs|
        ensures SimulateMatchup(teams, pairs[i].0, pairs[i].1).Success?
        ensures ([m] + rest)[i] == SimulateMatchup(teams, pairs[i].0, pairs[i].1).value
      {
        assert pairs[i] == pairs[1..][i - 1];
      }
    }
  }

  /** An aborted loop reports the error of the first pair whose matchup fails. */
  lemma {:induction false} OutcomesFirstFailure(teams: TeamStats, pairs: seq<(string, string)>)
    requires WellFormed(teams) && Among(pairs, teams.entries.Keys) && Outcomes(teams, pairs).Failure?
    ensures exists i :: && 0 <= i < |pairs|
                        && (forall j :: 0 <= j < i ==> SimulateMatchup(teams, pairs[j].0, pairs[j].1).Success?)
                        && SimulateMatchup(teams, pairs[i].0, pairs[i].1) == Failure(Outcomes(teams, pairs).error)
  {
    PairsTail(pairs, teams.entries.Keys);
    var r := Outcomes(teams, pairs);
    if SimulateMatchup(teams, pairs[0].0, pairs[0].1).Success? {
      OutcomesFirstFailure(teams, pairs[1..]);
      var rest := Outcomes(teams, pairs[1..]);
      var i :| && 0 <= i < |pairs[1..]|
               && (forall j :: 0 <= j < i ==> SimulateMatchup(teams, pairs[1..][j].0, pairs[1..][j].1).Success?)
               && SimulateMatchup(teams, pairs[1..][i].0, pairs[1..][i].1) == Failure(rest.error);
      forall j | 0 <= j < i + 1
        ensures SimulateMatchup(teams, pairs[j].0, pairs[j].1).Success?
      {
        if j > 0 {
          assert pairs[j] == pairs[1..][j - 1];
        }
      }
      assert pairs[i + 1] == pairs[1..][i];
    } else {
      assert SimulateMatchup(teams, pairs[0].0, pairs[0].1) == Failure(r.error);
    }
  }

  /** Every outcome's winner, if any, is one of the two teams of its pair. */
  lemma OutcomesCredible(teams: TeamStats, pairs: seq<(string, string)>)
    requires WellFormed(teams) && Among(pairs, teams.entries.Keys)
    ensures Outcomes(teams, pairs).Success? ==> Credible(pairs, Outcomes(teams, pairs).value)
  {
    if Outcomes(teams, pairs).Success? {
      OutcomesValues(teams, pairs);
    }
  }

  /** The pairs of `combinations(s, 2)` name members of `s`. */
  lemma CombinationsAmong(s: seq<string>, names: set<string>)
    requires forall t :: t in s ==> t in names
    ensures Among(Combinations(s), names) && Among(Combinations(s), set t | t in s)
  {
    forall k | 0 <= k < |Combinations(s)|
      ensures Combinations(s)[k].0 in s && Combinations(s)[k].1 in s
    {
      CombinationsMember(s, Combinations(s)[k]);
    }
  }

  /** Over distinct names, `combinations(s, 2)` never pairs a team with itself. */
  lemma CombinationsProper(s: seq<string>)
    requires Distinct(s)
    ensures Proper(Combinations(s))
  {
    forall k | 0 <= k < |Combinations(s)|
      ensures Combinations(s)[k].0 != Combinations(s)[k].1
    {
      CombinationsMember(s, Combinations(s)[k]);
    }
  }

  /** league.py `_simulate_matchups`, with the call at line 142 passing `teams` and the credit at
      line 145 adding 1 to the winner's count. */
  function SimulateMatchups(teams: TeamStats): (r: Result<Standings, Error>)
    requires WellFormed(teams)
    ensures r.Success? ==> KeyedBy(r.value, teams.entries.Keys)
  {
    var names := teams.order;
    CombinationsAmong(names, teams.entries.Keys);
    assert teams.entries.Keys == set t | t in names;
    var outcomes := WeekOutcomes(teams);
    if outcomes.Failure? then Failure(outcomes.error)
    else Success(Tabulate(names, outcomes.value))
  }

  /** The standings after the loop over `combinations(names, 2)`, given each pair's matchup. */
  function Tabulate(names: seq<string>, outcomes: seq<Outcome>): (st: Standings)
    requires Credible(Combinations(names), outcomes)
    ensures KeyedBy(st, set t | t in names)
  {
    CombinationsAmong(names, set t | t in names);
    Fold(Init(names), Combinations(names), outcomes)
  }

  /** The matchups the loop simulates: every pair of `combinations(teams, 2)`, in order. */
  function WeekOutcomes(teams: TeamStats): (r: Result<seq<Outcome>, Error>)
    requires WellFormed(teams)
    ensures r.Success? ==> Credible(Combinations(teams.order), r.value)
  {
    CombinationsAmong(teams.order, teams.entries.Keys);
    OutcomesCredible(teams, Combinations(teams.order));
    Outcomes(teams, Combinations(teams.order))
  }

  /** The number of outcomes with a winner. */
  function Decisive(outcomes: seq<Outcome>): (n: nat)
    ensures n <= |outcomes|
  {
    if |outcomes| == 0 then 0
    else (if outcomes[0].winner.Some? then 1 else 0) + Decisive(outcomes[1..])
  }

  /** The sum of `m` over `names`. */
  function SumOf(names: seq<string>, m: map<string, nat>): nat
    requires forall t :: t in names ==> t in m
  {
    if |names| == 0 then 0 else m[names[0]] + SumOf(names[1..], m)
  }

  /** Crediting one winner among distinct `names` raises the sum over `names` by one. */
  lemma {:induction false} SumCredit(names: seq<string>, wins: map<string, nat>, winner: Option<string>)
    requires Distinct(names) && forall t :: t in names ==> t in wins
    requires winner.Some? ==> winner.value in names
    ensures forall t :: t in names ==> t in CreditWinner(wins, winner)
    ensures SumOf(names, CreditWinner(wins, winner)) == SumOf(names, wins) + (if winner.Some? then 1 else 0)
  {
    var r := CreditWinner(wins, winner);
    if |names| > 0 {
      DistinctTail(names);
      if winner == Some(names[0]) {
        SumCredit(names[1..], wins, None);
        SumSame(names[1..], r, wins);
      } else {
        SumCredit(names[1..], wins, winner);
      }
    }
  }

  /** Two maps that agree on `names` have the same sum over them. */
  lemma {:induction false} SumSame(names: seq<string>, m1: map<string, nat>, m2: map<string, nat>)
    requires forall t :: t in names ==> t in m1 && t in m2 && m1[t] == m2[t]
    ensures SumOf(names, m1) == SumOf(names, m2)
  {
    if |names| > 0 {
      SumSame(names[1..], m1, m2);
    }
  }

  /** Every outcome is a completed matchup of a league whose teams report `c` categories. */
  predicate Complete(outcomes: seq<Outcome>, c: nat) {
    forall i :: 0 <= i < |outcomes| ==> outcomes[i].record1.Total() == c && outcomes[i].record2.Total() == c
  }

  lemma CompletePrepend(o: Outcome, rest: seq<Outcome>, c: nat)
    requires o.record1.Total() == c && o.record2.Total() == c && Complete(rest, c)
    ensures Complete([o] + rest, c)
  {
    assert forall i :: 0 < i < |[o] + rest| ==> ([o] + rest)[i] == rest[i - 1];
  }

  /** What one iteration does to the totals: both teams' grow by their side of the matchup, and
      nobody else's changes. */
  lemma ApplyTotals(names: set<string>, st: Standings, pair: (string, string), o: Outcome)
    requires KeyedBy(st, names) && pair.0 in names && pair.1 in names && pair.0 != pair.1
    requires o.winner.Some? ==> Touches(pair, o.winner.value)
    ensures var n := Apply(st, pair, o);
      forall t :: t in names ==>
        n.totals[t].Total() == st.totals[t].Total() +
          (if t == pair.0 then o.record1.Total() else if t == pair.1 then o.record2.Total() else 0)
  {
    PlusTotal(o.record1, st.totals[pair.0]);
    PlusTotal(o.record2, st.totals[pair.1]);
  }

  /** What one iteration does to the win counts: the winner, if any, gains one and nobody else
      changes; over distinct names the sum grows by one exactly when there is a winner. */
  lemma ApplyWins(names: seq<string>, st: Standings, pair: (string, string), o: Outcome)
    requires Distinct(names) && KeyedBy(st, set t | t in names)
    requires pair.0 in names && pair.1 in names && pair.0 != pair.1
    requires o.winner.Some? ==> Touches(pair, o.winner.value)
    ensures var n := Apply(st, pair, o);
      && (forall t :: t in names ==> n.wins[t] == st.wins[t] + (if o.winner == Some(t) then 1 else 0))
      && SumOf(names, n.wins) == SumOf(names, st.wins) + (if o.winner.Some? then 1 else 0)
  {
    SumCredit(names, st.wins, o.winner);
  }

  /** One turn of the loop: the rest of the pairs, from the standings after the first. */
  lemma FoldTail(names: set<string>, c: nat, st: Standings, pairs: seq<(string, string)>, outcomes: seq<Outcome>)
    requires KeyedBy(st, names) && |pairs| > 0
    requires Among(pairs, names) && Proper(pairs)
    requires Credible(pairs, outcomes) && Complete(outcomes, c)
    ensures KeyedBy(Apply(st, pairs[0], outcomes[0]), names)
    ensures Among(pairs[1..], names) && Proper(pairs[1..])
    ensures Credible(pairs[1..], outcomes[1..]) && Complete(outcomes[1..], c)
    ensures Fold(st, pairs, outcomes) == Fold(Apply(st, pairs[0], outcomes[0]), pairs[1..], outcomes[1..])
    ensures Decisive(outcomes) == (if outcomes[0].winner.Some? then 1 else 0) + Decisive(outcomes[1..])
  {
    assert forall i :: 0 < i < |pairs| ==> pairs[i] == pairs[1..][i - 1] && outcomes[i] == outcomes[1..][i - 1];
  }

  /** Each team's total grows by `c` categories per pair it plays. */
  lemma {:induction false} FoldTotals(names: set<string>, c: nat, st: Standings,
                                     pairs: seq<(string, string)>, outcomes: seq<Outcome>)
    requires KeyedBy(st, names) && Among(pairs, names) && Proper(pairs)
    requires Credible(pairs, outcomes) && Complete(outcomes, c)
    ensures var r := Fold(st, pairs, outcomes);
      forall t :: t in names ==> r.totals[t].Total() == st.totals[t].Total() + c * Occurrences(pairs, t)
    decreases |pairs|
  {
    if |pairs| > 0 {
      var pair, o := pairs[0], outcomes[0];
      ApplyTotals(names, st, pair, o);
      var next := Apply(st, pair, o);
      FoldTail(names, c, st, pairs, outcomes);
      FoldTotals(names, c, next, pairs[1..], outcomes[1..]);
      var r := Fold(next, pairs[1..], outcomes[1..]);
      forall t | t in names
        ensures r.totals[t].Total() == st.totals[t].Total() + c * Occurrences(pairs, t)
      {
        var later := Occurrences(pairs[1..], t);
        var k := if Touches(pair, t) then 1 else 0;
        assert Occurrences(pairs, t) == k + later;
        assert next.totals[t].Total() == st.totals[t].Total() + c * k;
        AddScaled(st.totals[t].Total(), next.totals[t].Total(), r.totals[t].Total(), c, k, later, Occurrences(pairs, t));
      }
    }
  }

  /** Each team's win count grows by at most one per pair it plays. */
  lemma {:induction false} FoldWins(names: seq<string>, c: nat, st: Standings,
                                   pairs: seq<(string, string)>, outcomes: seq<Outcome>)
    requires Distinct(names) && KeyedBy(st, set t | t in names)
    requires Among(pairs, set t | t in names) && Proper(pairs)
    requires Credible(pairs, outcomes) && Complete(outcomes, c)
    ensures var r := Fold(st, pairs, outcomes);
      && (forall t :: t in names ==> r.wins[t] <= st.wins[t] + Occurrences(pairs, t))
      && SumOf(names, r.wins) == SumOf(names, st.wins) + Decisive(outcomes)
    decreases |pairs|
  {
    if |pairs| > 0 {
      var pair, o := pairs[0], outcomes[0];
      ApplyWins(names, st, pair, o);
      var next := Apply(st, pair, o);
      FoldTail((set t | t in names), c, st, pairs, outcomes);
      FoldWins(names, c, next, pairs[1..], outcomes[1..]);
      var r := Fold(next, pairs[1..], outcomes[1..]);
      forall t | t in names
        ensures r.wins[t] <= st.wins[t] + Occurrences(pairs, t)
      {
        assert Occurrences(pairs, t) == (if Touches(pair, t) then 1 else 0) + Occurrences(pairs[1..], t);
      }
    }
  }

  /** The number of outcomes won by `t`. */
  function WonBy(outcomes: seq<Outcome>, t: string): (n: nat)
    ensures n <= Decisive(outcomes)
  {
    if |outcomes| == 0 then 0
    else (if outcomes[0].winner == Some(t) then 1 else 0) + WonBy(outcomes[1..], t)
  }

  /** `t`'s side of the matchup `o` of `pair`: `record1` if it is team 1, plus `record2` if it is
      team 2. */
  function Side(pair: (string, string), o: Outcome, t: string): Record {
    (if pair.0 == t then o.record1 else Zero).Plus(if pair.1 == t then o.record2 else Zero)
  }

  /** The sum of `t`'s sides of the matchups of `pairs`. */
  function Gained(pairs: seq<(string, string)>, outcomes: seq<Outcome>, t: string): Record
    requires |outcomes| == |pairs|
  {
    if |pairs| == 0 then Zero
    else Side(pairs[0], outcomes[0], t).Plus(Gained(pairs[1..], outcomes[1..], t))
  }

  /** One iteration adds each team's side of the matchup to its total, category by category. */
  lemma ApplyTotalsExact(names: set<string>, st: Standings, pair: (string, string), o: Outcome)
    requires KeyedBy(st, names) && pair.0 in names && pair.1 in names
    requires o.winner.Some? ==> Touches(pair, o.winner.value)
    ensures var n := Apply(st, pair, o);
      forall t :: t in names ==> n.totals[t] == st.totals[t].Plus(Side(pair, o, t))
  {
    forall t | t in names
      ensures Apply(st, pair, o).totals[t] == st.totals[t].Plus(Side(pair, o, t))
    {
      ApplyTotal(st, pair, o, t);
    }
  }

  lemma ApplyTotal(st: Standings, pair: (string, string), o: Outcome, t: string)
    requires pair.0 in st.totals && pair.1 in st.totals && t in st.totals
    requires o.winner.Some? ==> o.winner.value in st.wins
    ensures Apply(st, pair, o).totals[t] == st.totals[t].Plus(Side(pair, o, t))
  {
    var x := st.totals[t];
    var mid := AddRecord(st.totals, pair.0, o.record1);
    var n := Apply(st, pair, o);
    assert n.totals == AddRecord(mid, pair.1, o.record2);
    if pair.0 == t {
      assert mid[t] == o.record1.Plus(x);
    } else {
      assert mid[t] == x;
    }
    if pair.1 == t {
      assert n.totals[t] == o.record2.Plus(mid[t]);
    } else {
      assert n.totals[t] == mid[t];
    }
    var a := if pair.0 == t then o.record1 else Zero;
    var b := if pair.1 == t then o.record2 else Zero;
    assert mid[t] == a.Plus(x);
    assert n.totals[t] == b.Plus(a.Plus(x));
    assert Side(pair, o, t) == a.Plus(b);
    PlusRotate(x, a, b);
  }

  /** Each team's win count grows by exactly the number of matchups it wins. */
  lemma {:induction false} FoldWinsExact(names: set<string>, st: Standings,
                                        pairs: seq<(string, string)>, outcomes: seq<Outcome>)
    requires KeyedBy(st, names) && Among(pairs, names) && Credible(pairs, outcomes)
    ensures var r := Fold(st, pairs, outcomes);
      forall t :: t in names ==> r.wins[t] == st.wins[t] + WonBy(outcomes, t)
    decreases |pairs|
  {
    if |pairs| > 0 {
      var next := Apply(st, pairs[0], outcomes[0]);
      assert forall i :: 0 < i < |pairs| ==> pairs[i] == pairs[1..][i - 1] && outcomes[i] == outcomes[1..][i - 1];
      FoldWinsExact(names, next, pairs[1..], outcomes[1..]);
    }
  }

  /** Each team's cumulative record is its starting record plus its sides of the matchups it
      plays, category by category. */
  lemma {:induction false} FoldTotalsExact(names: set<string>, st: Standings,
                                          pairs: seq<(string, string)>, outcomes: seq<Outcome>)
    requires KeyedBy(st, names) && Among(pairs, names) && Credible(pairs, outcomes)
    ensures var r := Fold(st, pairs, outcomes);
      forall t :: t in names ==> r.totals[t] == st.totals[t].Plus(Gained(pairs, outcomes, t))
    decreases |pairs|
  {
    if |pairs| > 0 {
      var next := Apply(st, pairs[0], outcomes[0]);
      ApplyTotalsExact(names, st, pairs[0], outcomes[0]);
      assert forall i :: 0 < i < |pairs| ==> pairs[i] == pairs[1..][i - 1] && outcomes[i] == outcomes[1..][i - 1];
      FoldTotalsExact(names, next, pairs[1..], outcomes[1..]);
      var r := Fold(next, pairs[1..], outcomes[1..]);
      forall t | t in names
        ensures r.totals[t] == st.totals[t].Plus(Gained(pairs, outcomes, t))
      {
        var side := Side(pairs[0], outcomes[0], t);
        var later := Gained(pairs[1..], outcomes[1..], t);
        assert r.totals[t] == st.totals[t].Plus(side).Plus(later);
        PlusAssociative(st.totals[t], side, later);
      }
    }
  }

  /** The loop over `combinations(names, 2)`: a team's win count is the number of matchups it
      wins, and its cumulative record the sum of its sides of its matchups. */
  lemma TabulateValues(names: seq<string>, outcomes: seq<Outcome>)
    requires Credible(Combinations(names), outcomes)
    ensures var st := Tabulate(names, outcomes);
      forall t :: t in names ==>
        && st.wins[t] == WonBy(outcomes, t)
        && st.totals[t] == Gained(Combinations(names), outcomes, t)
  {
    var ns := set t | t in names;
    CombinationsAmong(names, ns);
    FoldWinsExact(ns, Init(names), Combinations(names), outcomes);
    FoldTotalsExact(ns, Init(names), Combinations(names), outcomes);
    forall t | t in names
      ensures Zero.Plus(Gained(Combinations(names), outcomes, t)) == Gained(Combinations(names), outcomes, t)
    {
      PlusZero(Gained(Combinations(names), outcomes, t));
    }
  }

  /** The repaired league.py:133-150 for the whole week: it completes exactly when every matchup
      does, and then a team's win count is the number of matchups it wins and its cumulative
      record the sum of its sides of its matchups. */
  lemma SimulateMatchupsValues(teams: TeamStats)
    requires WellFormed(teams)
    ensures SimulateMatchups(teams).Success? <==> WeekOutcomes(teams).Success?
    ensures SimulateMatchups(teams).Success? ==>
      var st, outs := SimulateMatchups(teams).value, WeekOutcomes(teams).value;
      forall t :: t in teams.entries ==>
        && st.wins[t] == WonBy(outs, t)
        && st.totals[t] == Gained(Combinations(teams.order), outs, t)
  {
    var week := WeekOutcomes(teams);
    if week.Success? {
      TabulateValues(teams.order, week.value);
      assert teams.entries.Keys == set t | t in teams.order;
    }
  }

  lemma AddScaled(s: int, n: int, r: int, c: nat, k: nat, later: nat, all: nat)
    requires n == s + c * k && r == n + c * later && all == k + later
    ensures r == s + c * all
  {
  }

  /** In a league whose teams share their categories, every matchup completes and counts them all. */
  lemma {:induction false} OutcomesComplete(teams: TeamStats, keys: set<Stat>, pairs: seq<(string, string)>)
    requires WellFormed(teams) && Uniform(teams, keys)
    requires Among(pairs, teams.entries.Keys) && Proper(pairs)
    ensures Outcomes(teams, pairs).Success?
    ensures Complete(Outcomes(teams, pairs).value, |keys|)
  {
    if |pairs| > 0 {
      SimulateMatchupUniform(teams, keys, pairs[0].0, pairs[0].1);
      PairsTail(pairs, teams.entries.Keys);
      OutcomesComplete(teams, keys, pairs[1..]);
      var m := SimulateMatchup(teams, pairs[0].0, pairs[0].1).value;
      var rest := Outcomes(teams, pairs[1..]).value;
      assert Outcomes(teams, pairs).value == [m] + rest;
      CompletePrepend(m, rest, |keys|);
    }
  }

  /** The round robin over distinct `names`, each matchup counting `c` categories: every team's
      total counts `(n - 1) * c` categories, no team wins more than its `n - 1` matchups, and the win
      counts sum to the number of decisive pairs, at most `n * (n - 1) / 2`. */
  lemma RoundRobinCounts(names: seq<string>, c: nat, outcomes: seq<Outcome>)
    requires Distinct(names)
    requires Credible(Combinations(names), outcomes) && Complete(outcomes, c)
    ensures var st, n := Tabulate(names, outcomes), |names|;
      && (forall t :: t in st.totals ==> st.totals[t].Total() == c * (n - 1))
      && (forall t :: t in st.wins ==> st.wins[t] <= n - 1)
      && SumOf(names, st.wins) == Decisive(outcomes) <= n * (n - 1) / 2
  {
    var pairs := Combinations(names);
    var init := Init(names);
    var ns := set t | t in names;
    CombinationsAmong(names, ns);
    CombinationsProper(names);
    CombinationsLength(names);
    var st := Tabulate(names, outcomes);
    FoldTotals(ns, c, init, pairs, outcomes);
    FoldWins(names, c, init, pairs, outcomes);
    SumZero(names, init.wins);
    forall t | t in st.totals
      ensures st.totals[t].Total() == c * (|names| - 1)
      ensures st.wins[t] <= |names| - 1
    {
      assert t in ns;
      OccurrencesCombinations(names, t);
    }
  }

  /** The promises of league.py:133-150 for a league whose teams report the same categories: the
      week completes, and the round-robin counts hold with `C` the number of categories. */
  lemma SimulateMatchupsProperties(teams: TeamStats, keys: set<Stat>)
    requires WellFormed(teams) && Uniform(teams, keys)
    ensures SimulateMatchups(teams).Success? && WeekOutcomes(teams).Success?
    ensures var st, n := SimulateMatchups(teams).value, |teams.order|;
      && KeyedBy(st, teams.entries.Keys)
      && (forall t :: t in st.totals ==> st.totals[t].Total() == |keys| * (n - 1))
      && (forall t :: t in st.wins ==> st.wins[t] <= n - 1)
      && SumOf(teams.order, st.wins) == Decisive(WeekOutcomes(teams).value)
      && SumOf(teams.order, st.wins) <= n * (n - 1) / 2
  {
    var names := teams.order;
    CombinationsAmong(names, teams.entries.Keys);
    CombinationsProper(names);
    OutcomesComplete(teams, keys, Combinations(names));
    var week := WeekOutcomes(teams);
    assert week == Outcomes(teams, Combinations(names));
    var st := Tabulate(names, week.value);
    assert SimulateMatchups(teams) == Success(st);
    RoundRobinCounts(names, |keys|, week.value);
  }

  /** A map that is zero on `names` sums to zero over them. */
  lemma {:induction false} SumZero(names: seq<string>, m: map<string, nat>)
    requires forall t :: t in names ==> t in m && m[t] == 0
    ensures SumOf(names, m) == 0
  {
    if |names| > 0 {
      SumZero(names[1..], m);
    }
  }

  /** A one-team league plays no matchup: the team keeps zero wins and an empty record. */
  lemma OneTeamLeague(teams: TeamStats)
    requires WellFormed(teams) && |teams.order| == 1
    ensures SimulateMatchups(teams) == Success(Init(teams.order))
    ensures var t := teams.order[0];
      SimulateMatchups(teams).value == Standings(map[t := 0], map[t := Zero])
  {
    assert Combinations(teams.order) == [];
    var t := teams.order[0];
    assert (set u | u in teams.order) == {t};
  }

  /** The week completes exactly when every team's categories are reported by every team after it
      in iteration order; otherwise the first failing pair's KeyError surfaces. */
  lemma SimulateMatchupsSucceedsIff(teams: TeamStats)
    requires WellFormed(teams)
    ensures SimulateMatchups(teams).Success? <==>
      forall i, j :: 0 <= i < j < |teams.order| ==>
        teams.entries[teams.order[i]].entries.Keys <= teams.entries[teams.order[j]].entries.Keys
  {
    var s := teams.order;
    var pairs := Combinations(s);
    CombinationsAmong(s, teams.entries.Keys);
    OutcomesSucceedIff(teams, pairs);
    if SimulateMatchups(teams).Success? {
      forall i, j | 0 <= i < j < |s|
        ensures teams.entries[s[i]].entries.Keys <= teams.entries[s[j]].entries.Keys
      {
        CombinationsMember(s, (s[i], s[j]));
        var k :| 0 <= k < |pairs| && pairs[k] == (s[i], s[j]);
        SimulateMatchupSucceedsIff(teams, s[i], s[j]);
        assert SimulateMatchup(teams, pairs[k].0, pairs[k].1).Success?;
      }
    } else {
      var k :| 0 <= k < |pairs| && !SimulateMatchup(teams, pairs[k].0, pairs[k].1).Success?;
      CombinationsMember(s, pairs[k]);
      SimulateMatchupSucceedsIff(teams, pairs[k].0, pairs[k].1);
    }
  }
}
