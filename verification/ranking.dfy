/** The orderings used to present a week: Python tuple comparison of sort keys, `max` for the
    leader, `sorted(..., reverse=True)` for the tables, and the week selector's options and label. */
module Ranking {
  import opened Wrappers
  import opened Errors
  import opened Records
  import opened RoundRobin

  /** Python's `<` on tuples of integers: the first differing position decides, and a proper
      prefix is smaller. */
  predicate Below(a: seq<int>, b: seq<int>) {
    if |a| == 0 then |b| > 0
    else if |b| == 0 then false
    else a[0] < b[0] || (a[0] == b[0] && Below(a[1..], b[1..]))
  }

  lemma {:induction false} BelowIrreflexive(a: seq<int>)
    ensures !Below(a, a)
  {
    if |a| > 0 {
      BelowIrreflexive(a[1..]);
    }
  }

  lemma {:induction false} BelowTransitive(a: seq<int>, b: seq<int>, c: seq<int>)
    requires Below(a, b) && Below(b, c)
    ensures Below(a, c)
  {
    if |a| > 0 && |b| > 0 && |c| > 0 && a[0] == b[0] == c[0] {
      BelowTransitive(a[1..], b[1..], c[1..]);
    }
  }

  /** Any two keys are comparable: tuple comparison is a strict total order. */
  lemma {:induction false} BelowTotal(a: seq<int>, b: seq<int>)
    ensures Below(a, b) || a == b || Below(b, a)
  {
    if |a| > 0 && |b| > 0 && a[0] == b[0] {
      BelowTotal(a[1..], b[1..]);
      if a[1..] == b[1..] {
        assert a == [a[0]] + a[1..] && b == [b[0]] + b[1..];
      }
    }
  }

  lemma BelowAsymmetric(a: seq<int>, b: seq<int>)
    ensures !(Below(a, b) && Below(b, a))
  {
    if Below(a, b) && Below(b, a) {
      BelowTransitive(a, b, a);
      BelowIrreflexive(a);
    }
  }

  /** An item of `dict.items()` together with the value the `key=` function gives it. */
  datatype Keyed = Keyed(name: string, key: seq<int>)

  /** `lambda x: (x[1], total_record[x[0]][0], -total_record[x[0]][1])`: number of
      opponents beaten, then categories won, then fewest categories lost. */
  function WinKey(st: Standings, t: string): (k: seq<int>)
    requires t in st.wins && t in st.totals
    ensures |k| == 3 && k[0] == st.wins[t] && k[1] == st.totals[t].wins && k[2] == -(st.totals[t].losses as int)
  {
    [st.wins[t] as int, st.totals[t].wins as int, -(st.totals[t].losses as int)]
  }

  /** `lambda x: (x[1][0], -x[1][1])`: categories won, then fewest categories lost. */
  function TotalKey(r: Record): (k: seq<int>)
    ensures |k| == 2 && k[0] == r.wins && k[1] == -(r.losses as int)
  {
    [r.wins as int, -(r.losses as int)]
  }

  /** More opponents beaten ranks higher whatever the category totals. */
  lemma WinKeyBeatsFirst(st: Standings, s: string, t: string)
    requires s in st.wins && s in st.totals && t in st.wins && t in st.totals
    requires st.wins[s] < st.wins[t]
    ensures Below(WinKey(st, s), WinKey(st, t))
  {
  }

  /** Between equal numbers of opponents beaten, more categories won ranks higher, and between
      equal categories won, fewer categories lost ranks higher. */
  lemma WinKeyTieBreaks(st: Standings, s: string, t: string)
    requires s in st.wins && s in st.totals && t in st.wins && t in st.totals
    requires st.wins[s] == st.wins[t]
    ensures st.totals[s].wins < st.totals[t].wins ==> Below(WinKey(st, s), WinKey(st, t))
    ensures st.totals[s].wins == st.totals[t].wins && st.totals[s].losses > st.totals[t].losses
      ==> Below(WinKey(st, s), WinKey(st, t))
    ensures st.totals[s].wins == st.totals[t].wins && st.totals[s].losses == st.totals[t].losses
      ==> WinKey(st, s) == WinKey(st, t)
  {
    var a, b := WinKey(st, s), WinKey(st, t);
    assert a[1..][1..] == [a[2]] && b[1..][1..] == [b[2]];
  }

  /** The items of the wins dictionary, in the dictionary's iteration order `names`, keyed by
      `WinKey`. */
  function WinItems(st: Standings, names: seq<string>): (items: seq<Keyed>)
    requires forall t :: t in names ==> t in st.wins && t in st.totals
    ensures |items| == |names|
    ensures forall i :: 0 <= i < |names| ==> items[i] == Keyed(names[i], WinKey(st, names[i]))
  {
    seq(|names|, i requires 0 <= i < |names| => Keyed(names[i], WinKey(st, names[i])))
  }

  /** The items of the totals dictionary, in iteration order `names`, keyed by `TotalKey`. */
  function TotalItems(st: Standings, names: seq<string>): (items: seq<Keyed>)
    requires forall t :: t in names ==> t in st.totals
    ensures |items| == |names|
    ensures forall i :: 0 <= i < |names| ==> items[i] == Keyed(names[i], TotalKey(st.totals[names[i]]))
  {
    seq(|names|, i requires 0 <= i < |names| => Keyed(names[i], TotalKey(st.totals[names[i]])))
  }

  /** The names of `items`, in order. */
  function Names(items: seq<Keyed>): (r: seq<string>)
    ensures |r| == |items| && forall i :: 0 <= i < |items| ==> r[i] == items[i].name
  {
    seq(|items|, i requires 0 <= i < |items| => items[i].name)
  }

  // ----- max(..., key=...) -----

  /** `items[k]` has a key no other item exceeds, and every earlier item's key is smaller. */
  predicate FirstMaximal(items: seq<Keyed>, k: int) {
    && 0 <= k < |items|
    && (forall i :: 0 <= i < |items| ==> !Below(items[k].key, items[i].key))
    && (forall i :: 0 <= i < k ==> Below(items[i].key, items[k].key))
  }

  /** Python's `max` loop from position `from` on, holding the position `best` of the largest
      key seen so far; a later item replaces it only when its key is strictly greater. */
  function MaxFrom(items: seq<Keyed>, best: nat, from: nat): (k: nat)
    requires best < from <= |items|
    ensures best <= k < |items|
    decreases |items| - from
  {
    if from == |items| then best
    else if Below(items[best].key, items[from].key) then MaxFrom(items, from, from + 1)
    else MaxFrom(items, best, from + 1)
  }

  /** The loop keeps the first maximal position among the items it has seen. */
  lemma {:induction false} MaxFromFirstMaximal(items: seq<Keyed>, best: nat, from: nat)
    requires best < from <= |items|
    requires FirstMaximal(items[..from], best)
    ensures FirstMaximal(items, MaxFrom(items, best, from))
    decreases |items| - from
  {
    if from < |items| {
      var x := items[from];
      assert items[..from + 1] == items[..from] + [x];
      if Below(items[best].key, x.key) {
        forall i | 0 <= i < from + 1
          ensures !Below(x.key, items[i].key)
        {
          if i < from {
            assert items[..from][i] == items[i];
            BelowTotal(items[best].key, items[i].key);
            if Below(x.key, items[i].key) {
              BelowTransitive(items[best].key, x.key, items[i].key);
            }
          } else {
            BelowIrreflexive(x.key);
          }
        }
        forall i | 0 <= i < from
          ensures Below(items[i].key, x.key)
        {
          assert items[..from][i] == items[i];
          BelowTotal(items[i].key, items[best].key);
          if Below(items[i].key, items[best].key) {
            BelowTransitive(items[i].key, items[best].key, x.key);
          }
        }
        MaxFromFirstMaximal(items, from, from + 1);
      } else {
        forall i | 0 <= i < from + 1
          ensures !Below(items[best].key, items[i].key)
        {
          if i < from {
            assert items[..from][i] == items[i];
          }
        }
        forall i | 0 <= i < best
          ensures Below(items[i].key, items[best].key)
        {
          assert items[..from][i] == items[i];
        }
        MaxFromFirstMaximal(items, best, from + 1);
      }
    }
  }

  /** Only one position is the first maximal one. */
  lemma FirstMaximalUnique(items: seq<Keyed>, j: nat, k: nat)
    requires FirstMaximal(items, j) && FirstMaximal(items, k)
    ensures j == k
  {
    assert !Below(items[j].key, items[k].key) && !Below(items[k].key, items[j].key);
  }

  /** The position `max(items, key=...)` returns. */
  function MaxIndex(items: seq<Keyed>): (k: nat)
    requires |items| > 0
    ensures k < |items|
  {
    MaxFrom(items, 0, 1)
  }

  /** `max(items, key=...)[0]`: the name of the item at `MaxIndex`; `max` of an empty sequence
      raises ValueError. */
  function Leader(items: seq<Keyed>): (r: Result<string, Error>)
    ensures r.Success? <==> |items| > 0
    ensures r.Failure? ==> r.error == ValueError
  {
    if |items| == 0 then Failure(ValueError) else Success(items[MaxIndex(items)].name)
  }

  /** The leader's key is the largest, and no earlier item has a key as large. */
  lemma LeaderIsFirstMaximal(items: seq<Keyed>)
    requires |items| > 0
    ensures FirstMaximal(items, MaxIndex(items))
    ensures Leader(items) == Success(items[MaxIndex(items)].name)
  {
    assert FirstMaximal(items[..1], 0) by {
      BelowIrreflexive(items[0].key);
    }
    MaxFromFirstMaximal(items, 0, 1);
  }

  // ----- sorted(..., key=..., reverse=True) -----

  /** Puts `x` in front of the first item whose key is not larger than its own. */
  function Insert(x: Keyed, t: seq<Keyed>): (r: seq<Keyed>)
    ensures |r| == |t| + 1
    ensures multiset(r) == multiset(t) + multiset{x}
  {
    if |t| == 0 || !Below(x.key, t[0].key) then [x] + t
    else
      assert t == [t[0]] + t[1..];
      [t[0]] + Insert(x, t[1..])
  }

  /** Stable sort by decreasing key: items with equal keys keep their relative order. */
  function SortDesc(s: seq<Keyed>): (r: seq<Keyed>)
    ensures |r| == |s|
  {
    if |s| == 0 then [] else Insert(s[0], SortDesc(s[1..]))
  }

  /** No item ranks above an earlier one. */
  predicate NonIncreasing(s: seq<Keyed>) {
    forall i, j :: 0 <= i < j < |s| ==> !Below(s[i].key, s[j].key)
  }

  /** The items whose key is exactly `k`, in order. */
  function WithKey(s: seq<Keyed>, k: seq<int>): seq<Keyed> {
    if |s| == 0 then []
    else (if s[0].key == k then [s[0]] else []) + WithKey(s[1..], k)
  }

  lemma NonIncreasingCons(a: Keyed, u: seq<Keyed>)
    requires NonIncreasing(u) && forall y :: y in u ==> !Below(a.key, y.key)
    ensures NonIncreasing([a] + u)
  {
    forall i, j | 0 <= i < j < |[a] + u|
      ensures !Below(([a] + u)[i].key, ([a] + u)[j].key)
    {
      assert ([a] + u)[j] == u[j - 1];
      if i > 0 {
        assert ([a] + u)[i] == u[i - 1];
      }
    }
  }

  lemma {:induction false} InsertNonIncreasing(x: Keyed, t: seq<Keyed>)
    requires NonIncreasing(t)
    ensures NonIncreasing(Insert(x, t))
  {
    if |t| == 0 {
    } else if !Below(x.key, t[0].key) {
      forall y | y in t
        ensures !Below(x.key, y.key)
      {
        var j :| 0 <= j < |t| && t[j] == y;
        if j > 0 && Below(x.key, y.key) {
          BelowTotal(x.key, t[0].key);
          if Below(t[0].key, x.key) {
            BelowTransitive(t[0].key, x.key, y.key);
          }
        }
      }
      NonIncreasingCons(x, t);
    } else {
      var u := Insert(x, t[1..]);
      InsertNonIncreasing(x, t[1..]);
      forall y | y in u
        ensures !Below(t[0].key, y.key)
      {
        assert y in multiset(u);
        if y == x {
          BelowAsymmetric(x.key, t[0].key);
        } else {
          assert y in multiset(t[1..]);
          var j :| 0 <= j < |t[1..]| && t[1..][j] == y;
          assert t[j + 1] == y;
        }
      }
      NonIncreasingCons(t[0], u);
    }
  }

  /** Inserting `x` before every item whose key is not larger than its own keeps `x` ahead of
      the items that share its key. */
  lemma {:induction false} InsertWithKey(x: Keyed, t: seq<Keyed>, k: seq<int>)
    ensures WithKey(Insert(x, t), k) == (if x.key == k then [x] else []) + WithKey(t, k)
  {
    if |t| == 0 {
      assert WithKey([x], k) == (if x.key == k then [x] else []) + WithKey([], k);
    } else if !Below(x.key, t[0].key) {
      assert ([x] + t)[1..] == t;
    } else {
      var u := Insert(x, t[1..]);
      InsertWithKey(x, t[1..], k);
      assert ([t[0]] + u)[1..] == u;
      if t[0].key == k {
        BelowIrreflexive(x.key);
      }
    }
  }

  /** The table is a rearrangement of the items, ranked from the largest key down, and items with
      equal keys appear in their original order. */
  lemma {:induction false} SortDescSpec(s: seq<Keyed>)
    ensures multiset(SortDesc(s)) == multiset(s)
    ensures NonIncreasing(SortDesc(s))
    ensures forall k :: WithKey(SortDesc(s), k) == WithKey(s, k)
  {
    if |s| > 0 {
      SortDescSpec(s[1..]);
      InsertNonIncreasing(s[0], SortDesc(s[1..]));
      assert s == [s[0]] + s[1..];
      forall k
        ensures WithKey(SortDesc(s), k) == WithKey(s, k)
      {
        InsertWithKey(s[0], SortDesc(s[1..]), k);
      }
    }
  }

  /** The first row of the sorted table is the team `max` picks. */
  lemma {:induction false} SortDescHead(s: seq<Keyed>)
    requires |s| > 0
    ensures exists k :: FirstMaximal(s, k) && SortDesc(s)[0] == s[k]
  {
    if |s| == 1 {
      BelowIrreflexive(s[0].key);
      assert FirstMaximal(s, 0);
    } else {
      var tail := s[1..];
      SortDescHead(tail);
      var k' :| FirstMaximal(tail, k') && SortDesc(tail)[0] == tail[k'];
      var x, m := s[0], tail[k'];
      if !Below(x.key, m.key) {
        forall i | 0 <= i < |s|
          ensures !Below(x.key, s[i].key)
        {
          if i == 0 {
            BelowIrreflexive(x.key);
          } else {
            assert s[i] == tail[i - 1];
            BelowTotal(x.key, m.key);
            if x.key != m.key && Below(x.key, s[i].key) {
              BelowTransitive(m.key, x.key, s[i].key);
            }
          }
        }
        assert FirstMaximal(s, 0);
      } else {
        forall i | 0 <= i < |s|
          ensures !Below(m.key, s[i].key)
        {
          if i == 0 {
            BelowAsymmetric(x.key, m.key);
          } else {
            assert s[i] == tail[i - 1];
          }
        }
        forall i | 0 <= i < k' + 1
          ensures Below(s[i].key, m.key)
        {
          if i > 0 {
            assert s[i] == tail[i - 1];
          }
        }
        assert FirstMaximal(s, k' + 1);
      }
    }
  }

  /** The leader named above the tables is the team in the Wins table's first row. */
  lemma LeaderHeadsTable(items: seq<Keyed>)
    requires |items| > 0
    ensures Leader(items) == Success(SortDesc(items)[0].name)
  {
    LeaderIsFirstMaximal(items);
    SortDescHead(items);
    var k :| FirstMaximal(items, k) && SortDesc(items)[0] == items[k];
    FirstMaximalUnique(items, MaxIndex(items), k);
  }

  /** The "Wins" table: team names ranked by `WinKey`. */
  function WinsTable(st: Standings, names: seq<string>): (r: seq<string>)
    requires forall t :: t in names ==> t in st.wins && t in st.totals
    ensures |r| == |names|
  {
    Names(SortDesc(WinItems(st, names)))
  }

  /** The "Total" table: team names ranked by `TotalKey`. */
  function TotalTable(st: Standings, names: seq<string>): (r: seq<string>)
    requires forall t :: t in names ==> t in st.totals
    ensures |r| == |names|
  {
    Names(SortDesc(TotalItems(st, names)))
  }

  /** Every team appears in the Wins table as often as in the dictionary, and no team is listed
      above one with a larger key. */
  lemma WinsTableRanked(st: Standings, names: seq<string>)
    requires forall t :: t in names ==> t in st.wins && t in st.totals
    ensures multiset(WinsTable(st, names)) == multiset(names)
    ensures forall i :: 0 <= i < |names| ==> WinsTable(st, names)[i] in names
    ensures forall i, j :: 0 <= i < j < |names| ==>
      !Below(WinKey(st, WinsTable(st, names)[i]), WinKey(st, WinsTable(st, names)[j]))
  {
    var items := WinItems(st, names);
    var sorted := SortDesc(items);
    SortDescSpec(items);
    forall x | x in sorted
      ensures x.name in names && x.key == WinKey(st, x.name)
    {
      assert x in multiset(items);
    }
    NamesMultiset(items, names);
    NamesSortDesc(items);
    var r := WinsTable(st, names);
    forall i | 0 <= i < |names|
      ensures r[i] in names
    {
      assert sorted[i] in sorted;
    }
    forall i, j | 0 <= i < j < |names|
      ensures !Below(WinKey(st, r[i]), WinKey(st, r[j]))
    {
      assert sorted[i] in sorted && sorted[j] in sorted;
    }
  }

  /** Every team appears in the Total table as often as in the dictionary, and no team is listed
      above one with a larger key. */
  lemma TotalTableRanked(st: Standings, names: seq<string>)
    requires forall t :: t in names ==> t in st.totals
    ensures multiset(TotalTable(st, names)) == multiset(names)
    ensures forall i :: 0 <= i < |names| ==> TotalTable(st, names)[i] in names
    ensures forall i, j :: 0 <= i < j < |names| ==>
      !Below(TotalKey(st.totals[TotalTable(st, names)[i]]), TotalKey(st.totals[TotalTable(st, names)[j]]))
  {
    var items := TotalItems(st, names);
    var sorted := SortDesc(items);
    SortDescSpec(items);
    forall x | x in sorted
      ensures x.name in names && x.key == TotalKey(st.totals[x.name])
    {
      assert x in multiset(items);
    }
    NamesMultiset(items, names);
    NamesSortDesc(items);
    var r := TotalTable(st, names);
    forall i | 0 <= i < |names|
      ensures r[i] in names
    {
      assert sorted[i] in sorted;
    }
    forall i, j | 0 <= i < j < |names|
      ensures !Below(TotalKey(st.totals[r[i]]), TotalKey(st.totals[r[j]]))
    {
      assert sorted[i] in sorted && sorted[j] in sorted;
    }
  }

  lemma {:induction false} NamesMultiset(items: seq<Keyed>, names: seq<string>)
    requires |items| == |names| && forall i :: 0 <= i < |names| ==> items[i].name == names[i]
    ensures multiset(Names(items)) == multiset(names)
  {
    assert Names(items) == names;
  }

  lemma NamesCons(x: Keyed, t: seq<Keyed>)
    ensures Names([x] + t) == [x.name] + Names(t)
  {
  }

  lemma {:induction false} NamesInsert(x: Keyed, t: seq<Keyed>)
    ensures multiset(Names(Insert(x, t))) == multiset(Names(t)) + multiset{x.name}
  {
    if |t| > 0 && Below(x.key, t[0].key) {
      var u := Insert(x, t[1..]);
      NamesInsert(x, t[1..]);
      assert Insert(x, t) == [t[0]] + u;
      NamesCons(t[0], u);
      assert t == [t[0]] + t[1..];
      NamesCons(t[0], t[1..]);
    } else {
      assert Insert(x, t) == [x] + t;
      NamesCons(x, t);
    }
  }

  /** Sorting moves the rows without adding or dropping a name. */
  lemma {:induction false} NamesSortDesc(s: seq<Keyed>)
    ensures multiset(Names(SortDesc(s))) == multiset(Names(s))
  {
    if |s| > 0 {
      NamesSortDesc(s[1..]);
      NamesInsert(s[0], SortDesc(s[1..]));
      assert s == [s[0]] + s[1..];
      NamesCons(s[0], s[1..]);
    }
  }

  // ----- the week selector -----

  /** `range(start_week, current_week + 1)`. */
  function WeekOptions(startWeek: int, currentWeek: int): (r: seq<int>)
    ensures |r| == if startWeek <= currentWeek then currentWeek - startWeek + 1 else 0
    ensures forall i :: 0 <= i < |r| ==> r[i] == startWeek + i
  {
    if startWeek <= currentWeek
    then seq(currentWeek - startWeek + 1, i => startWeek + i)
    else []
  }

  /** `opts.index(week)`: the first position holding `week`; ValueError when there is none. */
  function IndexOf(opts: seq<int>, week: int): (r: Result<nat, Error>)
    ensures r.Success? <==> week in opts
    ensures r.Success? ==> r.value < |opts| && opts[r.value] == week && week !in opts[..r.value]
    ensures r.Failure? ==> r.error == ValueError
  {
    if |opts| == 0 then Failure(ValueError)
    else if opts[0] == week then Success(0)
    else match IndexOf(opts[1..], week)
      case Failure(e) => Failure(e)
      case Success(i) =>
        assert opts[..i + 1] == [opts[0]] + opts[1..][..i];
        Success(i + 1)
  }

  /** `len(week_opts) - 1`: the selector starts on the last week offered. */
  function DefaultWeekIndex(opts: seq<int>): int {
    |opts| - 1
  }

  /** "Leader" when the selected week is the last option (still in progress), else "Winner". */
  function WeekLabel(opts: seq<int>, week: int): (r: Result<string, Error>)
    ensures r.Success? <==> week in opts
    ensures r.Failure? ==> r.error == ValueError
    ensures r.Success? ==> r.value == "Winner" || r.value == "Leader"
  {
    match IndexOf(opts, week)
    case Failure(e) => Failure(e)
    case Success(i) => Success(if i != |opts| - 1 then "Winner" else "Leader")
  }

  /** For the options of a season, the label is "Leader" exactly for the current week and
      "Winner" for every earlier week. */
  lemma WeekLabelSeason(startWeek: int, currentWeek: int, week: int)
    requires startWeek <= week <= currentWeek
    ensures WeekLabel(WeekOptions(startWeek, currentWeek), week) ==
      Success(if week == currentWeek then "Leader" else "Winner")
  {
    var opts := WeekOptions(startWeek, currentWeek);
    assert opts[week - startWeek] == week;
    var i := IndexOf(opts, week).value;
    assert opts[i] == startWeek + i;
  }

  /** The week the selector opens on is labelled "Leader". */
  lemma DefaultWeekIsLeader(startWeek: int, currentWeek: int)
    requires startWeek <= currentWeek
    ensures var opts := WeekOptions(startWeek, currentWeek);
      0 <= DefaultWeekIndex(opts) < |opts| &&
      opts[DefaultWeekIndex(opts)] == currentWeek &&
      WeekLabel(opts, opts[DefaultWeekIndex(opts)]) == Success("Leader")
  {
    WeekLabelSeason(startWeek, currentWeek, currentWeek);
  }
}
