/** One simulated head-to-head matchup, league.py `_simulate_matchup`. */
module Matchup {
  import opened Wrappers
  import opened Errors
  import opened Dicts
  import opened Records
  import opened Registry
  import opened Comparator

  /** One team's week: category to value. */
  type Stats = Dict<Stat, real>

  /** The week: team name to its stats. */
  type TeamStats = Dict<string, Stats>

  /** The dictionaries are well-formed Python dictionaries. */
  predicate WellFormed(teams: TeamStats) {
    teams.Valid() && forall t :: t in teams.entries ==> teams.entries[t].Valid()
  }

  /** Every team reports exactly the categories `keys`. */
  predicate Uniform(teams: TeamStats, keys: set<Stat>) {
    forall t :: t in teams.entries ==> teams.entries[t].entries.Keys == keys
  }

  /** A matchup's winner (None on equal category wins) and both teams' records. */
  datatype Outcome = Outcome(winner: Option<string>, record1: Record, record2: Record)

  /** The records built by the loop over team 1's stats, `stats` in iteration order, when team 2
      reports every one of them. */
  function Count(stats: seq<Stat>, s1: map<Stat, real>, s2: map<Stat, real>): (r: (Record, Record))
    requires AllIn(stats, s1) && AllIn(stats, s2)
    ensures r.1 == r.0.Mirror()
  {
    if |stats| == 0 then (Zero, Zero)
    else
      var c := stats[0];
      var rest := Count(stats[1..], s1, s2);
      var slots := ProcessStat(c, s1[c], s2[c]);
      BumpMirror(rest.0, slots.0);
      (rest.0.Bump(slots.0), rest.1.Bump(slots.1))
  }

  /** Each record counts every visited category once. */
  lemma {:induction false} CountTotal(stats: seq<Stat>, s1: map<Stat, real>, s2: map<Stat, real>)
    requires AllIn(stats, s1) && AllIn(stats, s2)
    ensures Count(stats, s1, s2).0.Total() == |stats|
  {
    if |stats| > 0 {
      CountTotal(stats[1..], s1, s2);
      var c := stats[0];
      var rest := Count(stats[1..], s1, s2);
      var slots := ProcessStat(c, s1[c], s2[c]);
      assert Count(stats, s1, s2).0 == rest.0.Bump(slots.0);
    }
  }

  /** The position of the first element of `stats` that is not a key of `m`. */
  function FirstMissing(stats: seq<Stat>, m: map<Stat, real>): (i: nat)
    requires !AllIn(stats, m)
    ensures i < |stats| && stats[i] !in m
    ensures forall j :: 0 <= j < i ==> stats[j] in m
  {
    if stats[0] !in m then 0
    else
      var i := FirstMissing(stats[1..], m);
      assert forall j :: 0 < j <= i ==> stats[j] == stats[1..][j - 1];
      i + 1
  }

  /** The loop over team 1's stats: a stat team 2 lacks raises KeyError at the first such stat,
      discarding the partial counts. */
  function Tally(stats: seq<Stat>, s1: map<Stat, real>, s2: map<Stat, real>): (r: Result<(Record, Record), Error>)
    requires AllIn(stats, s1)
    ensures r.Success? <==> AllIn(stats, s2)
    ensures r.Failure? ==>
      exists i :: && 0 <= i < |stats| && stats[i] !in s2 && r.error == KeyError(stats[i])
                  && forall j :: 0 <= j < i ==> stats[j] in s2
    ensures r.Success? ==> r.value.1 == r.value.0.Mirror()
  {
    if AllIn(stats, s2) then Success(Count(stats, s1, s2))
    else
      var i := FirstMissing(stats, s2);
      Failure(KeyError(stats[i]))
  }

  /** Simulates `t1` against `t2`: the winner, if any, is one of the two teams. */
  function SimulateMatchup(teams: TeamStats, t1: string, t2: string): (r: Result<Outcome, Error>)
    requires WellFormed(teams) && t1 in teams.entries && t2 in teams.entries
    ensures r.Success? && r.value.winner.Some? ==> r.value.winner.value == t1 || r.value.winner.value == t2
  {
    var s1, s2 := teams.entries[t1], teams.entries[t2];
    AllInIff(s1.order, s1.entries);
    var counted := Tally(s1.order, s1.entries, s2.entries);
    if counted.Failure? then
      Failure(counted.error)
    else
      var recs := counted.value;
      var winner :=
        if recs.0.wins > recs.1.wins then Some(t1)
        else if recs.0.wins < recs.1.wins then Some(t2)
        else None;
      Success(Outcome(winner, recs.0, recs.1))
  }

  /** The matchup completes exactly when team 2 reports every category team 1 does; otherwise
      it raises KeyError on a category only team 1 reports. */
  lemma SimulateMatchupSucceedsIff(teams: TeamStats, t1: string, t2: string)
    requires WellFormed(teams) && t1 in teams.entries && t2 in teams.entries
    ensures var r := SimulateMatchup(teams, t1, t2);
      && (r.Success? <==> teams.entries[t1].entries.Keys <= teams.entries[t2].entries.Keys)
      && (r.Failure? ==> r.error.KeyError? && r.error.stat in teams.entries[t1].entries
                         && r.error.stat !in teams.entries[t2].entries)
  {
    var s1, s2 := teams.entries[t1], teams.entries[t2];
    AllInIff(s1.order, s1.entries);
    AllInIff(s1.order, s2.entries);
  }

  /** A completed matchup: the records mirror each other, each counts every category of team 1,
      and the winner is the team with strictly more category wins, None on equality. */
  lemma SimulateMatchupRecords(teams: TeamStats, t1: string, t2: string)
    requires WellFormed(teams) && t1 in teams.entries && t2 in teams.entries
    requires SimulateMatchup(teams, t1, t2).Success?
    ensures var m := SimulateMatchup(teams, t1, t2).value;
      && m.record2 == m.record1.Mirror()
      && m.record1.Total() == |teams.entries[t1].entries|
      && (m.record1.wins > m.record2.wins ==> m.winner == Some(t1))
      && (m.record1.wins < m.record2.wins ==> m.winner == Some(t2))
      && (m.record1.wins == m.record2.wins ==> m.winner == None)
  {
    var s1, s2 := teams.entries[t1], teams.entries[t2];
    DictCard(s1);
    AllInIff(s1.order, s1.entries);
    AllInIff(s1.order, s2.entries);
    CountTotal(s1.order, s1.entries, s2.entries);
  }

  /** With a shared category set the matchup always completes, each record counting every category,
      and a team wins exactly when it takes more categories than it loses. */
  lemma SimulateMatchupUniform(teams: TeamStats, keys: set<Stat>, t1: string, t2: string)
    requires WellFormed(teams) && Uniform(teams, keys)
    requires t1 in teams.entries && t2 in teams.entries && t1 != t2
    ensures SimulateMatchup(teams, t1, t2).Success?
    ensures var m := SimulateMatchup(teams, t1, t2).value;
      && m.record1.Total() == |keys| && m.record2.Total() == |keys|
      && (m.winner == Some(t1) <==> m.record1.wins > m.record1.losses)
      && (m.winner == Some(t2) <==> m.record2.wins > m.record2.losses)
  {
    assert teams.entries[t1].entries.Keys == keys == teams.entries[t2].entries.Keys;
    SimulateMatchupSucceedsIff(teams, t1, t2);
    SimulateMatchupRecords(teams, t1, t2);
    var m := SimulateMatchup(teams, t1, t2).value;
    assert m.record2 == m.record1.Mirror();
  }

  /** Simulating the pair the other way round swaps the records and keeps the winner. */
  lemma SimulateMatchupSymmetric(teams: TeamStats, keys: set<Stat>, t1: string, t2: string)
    requires WellFormed(teams) && Uniform(teams, keys)
    requires t1 in teams.entries && t2 in teams.entries
    ensures SimulateMatchup(teams, t1, t2).Success? && SimulateMatchup(teams, t2, t1).Success?
    ensures var m, n := SimulateMatchup(teams, t1, t2).value, SimulateMatchup(teams, t2, t1).value;
      n.winner == m.winner && n.record1 == m.record2 && n.record2 == m.record1
  {
    var s1, s2 := teams.entries[t1], teams.entries[t2];
    assert s1.entries.Keys == keys == s2.entries.Keys;
    SimulateMatchupSucceedsIff(teams, t1, t2);
    SimulateMatchupSucceedsIff(teams, t2, t1);
    AllInIff(s1.order, s1.entries);
    AllInIff(s1.order, s2.entries);
    DistinctSameSet(s1.order, s2.order);
    CountPermutation(s1.order, s2.order, s1.entries, s2.entries);
    CountSwap(s2.order, s1.entries, s2.entries);
    var forward := Count(s1.order, s1.entries, s2.entries);
    var backward := Count(s2.order, s2.entries, s1.entries);
    assert backward == (forward.1, forward.0);
    assert SimulateMatchup(teams, t1, t2).value.record1 == forward.0;
    assert SimulateMatchup(teams, t2, t1).value.record1 == backward.0;
  }

  /** Counting with the two teams exchanged exchanges the two records. */
  lemma {:induction false} CountSwap(stats: seq<Stat>, s1: map<Stat, real>, s2: map<Stat, real>)
    requires AllIn(stats, s1) && AllIn(stats, s2)
    ensures Count(stats, s2, s1) == (Count(stats, s1, s2).1, Count(stats, s1, s2).0)
  {
    if |stats| > 0 {
      var c := stats[0];
      CountSwap(stats[1..], s1, s2);
      ProcessStatSwap(c, s1[c], s2[c]);
    }
  }

  lemma {:induction false} AllInAppend<V>(a: seq<Stat>, b: seq<Stat>, m: map<Stat, V>)
    ensures AllIn(a + b, m) <==> AllIn(a, m) && AllIn(b, m)
  {
    if |a| == 0 {
      assert a + b == b;
    } else {
      assert (a + b)[1..] == a[1..] + b;
      AllInAppend(a[1..], b, m);
    }
  }

  /** Counting a concatenation adds the records of the two parts. */
  lemma {:induction false} CountAppend(a: seq<Stat>, b: seq<Stat>, s1: map<Stat, real>, s2: map<Stat, real>)
    requires AllIn(a, s1) && AllIn(a, s2) && AllIn(b, s1) && AllIn(b, s2)
    ensures AllIn(a + b, s1) && AllIn(a + b, s2)
    ensures Count(a + b, s1, s2).0 == Count(a, s1, s2).0.Plus(Count(b, s1, s2).0)
    ensures Count(a + b, s1, s2).1 == Count(a, s1, s2).1.Plus(Count(b, s1, s2).1)
  {
    AllInAppend(a, b, s1);
    AllInAppend(a, b, s2);
    if |a| == 0 {
      assert a + b == b;
      var rest := Count(b, s1, s2);
      assert Count(a, s1, s2) == (Zero, Zero);
      PlusZero(rest.0);
      PlusZero(rest.1);
    } else {
      var c := a[0];
      assert (a + b)[1..] == a[1..] + b;
      CountAppend(a[1..], b, s1, s2);
      var x := ProcessStat(c, s1[c], s2[c]);
      var head, rest := Count(a[1..], s1, s2), Count(b, s1, s2);
      var tail := Count(a[1..] + b, s1, s2);
      assert Count(a + b, s1, s2) == (tail.0.Bump(x.0), tail.1.Bump(x.1));
      assert Count(a, s1, s2) == (head.0.Bump(x.0), head.1.Bump(x.1));
      BumpPlus(head.0, rest.0, x.0);
      BumpPlus(head.1, rest.1, x.1);
    }
  }

  /** Counting one more category bumps both records by that category's result. */
  lemma CountSnoc(a: seq<Stat>, c: Stat, s1: map<Stat, real>, s2: map<Stat, real>)
    requires AllIn(a, s1) && AllIn(a, s2) && c in s1 && c in s2
    ensures AllIn(a + [c], s1) && AllIn(a + [c], s2)
    ensures var slots, before := ProcessStat(c, s1[c], s2[c]), Count(a, s1, s2);
      Count(a + [c], s1, s2) == (before.0.Bump(slots.0), before.1.Bump(slots.1))
  {
    var slots := ProcessStat(c, s1[c], s2[c]);
    var before := Count(a, s1, s2);
    assert AllIn([c], s1) && AllIn([c], s2);
    CountAppend(a, [c], s1, s2);
    assert Count([c], s1, s2) == (Zero.Bump(slots.0), Zero.Bump(slots.1));
    PlusBumpRight(before.0, Zero, slots.0);
    PlusBumpRight(before.1, Zero, slots.1);
    PlusZeroRight(before.0);
    PlusZeroRight(before.1);
  }

  /** A category missing from an earlier part stays the first missing one after appending. */
  lemma FirstMissingSnoc(a: seq<Stat>, c: Stat, m: map<Stat, real>)
    requires !AllIn(a, m)
    ensures !AllIn(a + [c], m) && FirstMissing(a + [c], m) == FirstMissing(a, m)
  {
    AllInAppend(a, [c], m);
    var i := FirstMissing(a, m);
    assert forall j :: 0 <= j <= i ==> (a + [c])[j] == a[j];
  }

  /** When every earlier category is present, the appended one is the first missing one. */
  lemma FirstMissingLast(a: seq<Stat>, c: Stat, m: map<Stat, real>)
    requires AllIn(a, m) && c !in m
    ensures !AllIn(a + [c], m) && FirstMissing(a + [c], m) == |a|
  {
    AllInAppend(a, [c], m);
    AllInIff(a, m);
    assert forall j :: 0 <= j < |a| ==> (a + [c])[j] == a[j];
    assert (a + [c])[|a|] == c;
  }

  /** Reordering a sequence keeps every element present. */
  lemma AllInPermutation<V>(o1: seq<Stat>, o2: seq<Stat>, m: map<Stat, V>)
    requires multiset(o1) == multiset(o2)
    requires AllIn(o1, m)
    ensures AllIn(o2, m)
  {
    AllInIff(o1, m);
    AllInIff(o2, m);
    forall c | c in o2
      ensures c in m
    {
      assert c in multiset(o2);
    }
  }

  /** Visiting the category at position `k` first gives the same records. */
  lemma CountToFront(o: seq<Stat>, k: nat, s1: map<Stat, real>, s2: map<Stat, real>)
    requires k < |o| && AllIn(o, s1) && AllIn(o, s2)
    ensures AllIn([o[k]] + (o[..k] + o[k + 1..]), s1) && AllIn([o[k]] + (o[..k] + o[k + 1..]), s2)
    ensures Count(o, s1, s2).0 == Count([o[k]] + (o[..k] + o[k + 1..]), s1, s2).0
  {
    var before, c, after := o[..k], [o[k]], o[k + 1..];
    assert o == before + (c + after);
    AllInAppend(before, c + after, s1);
    AllInAppend(before, c + after, s2);
    AllInAppend(c, after, s1);
    AllInAppend(c, after, s2);
    CountAppend(before, c + after, s1, s2);
    CountAppend(c, after, s1, s2);
    CountAppend(before, after, s1, s2);
    CountAppend(c, before + after, s1, s2);
    PlusExchange(Count(before, s1, s2).0, Count(c, s1, s2).0, Count(after, s1, s2).0);
  }

  /** The records do not depend on the order the categories are visited in. */
  lemma {:induction false} CountPermutation(o1: seq<Stat>, o2: seq<Stat>, s1: map<Stat, real>, s2: map<Stat, real>)
    requires multiset(o1) == multiset(o2)
    requires AllIn(o1, s1) && AllIn(o1, s2)
    ensures AllIn(o2, s1) && AllIn(o2, s2)
    ensures Count(o1, s1, s2) == Count(o2, s1, s2)
  {
    AllInPermutation(o1, o2, s1);
    AllInPermutation(o1, o2, s2);
    if |o1| > 0 {
      var c := o1[0];
      assert c in multiset(o2);
      var k :| 0 <= k < |o2| && o2[k] == c;
      var rest := o2[..k] + o2[k + 1..];
      assert o2 == o2[..k] + [c] + o2[k + 1..];
      assert o1 == [c] + o1[1..];
      calc {
        multiset(o1[1..]);
        multiset(o1) - multiset{c};
        multiset(o2[..k]) + multiset{c} + multiset(o2[k + 1..]) - multiset{c};
        multiset(rest);
      }
      CountToFront(o2, k, s1, s2);
      assert ([c] + rest)[1..] == rest;
      CountPermutation(o1[1..], rest, s1, s2);
    }
  }
}
