/** `itertools.combinations(names, 2)`: every unordered pair of positions, in lexicographic order. */
module Pairs {
  import opened Dicts

  /** The pairs `(x, y)` for each `y` of `ys`, in order. */
  function Row<T>(x: T, ys: seq<T>): seq<(T, T)> {
    if |ys| == 0 then [] else [(x, ys[0])] + Row(x, ys[1..])
  }

  /** The pairs `(s[i], s[j])` with `i < j`, ordered by `i` and then by `j`. */
  function Combinations<T>(s: seq<T>): seq<(T, T)> {
    if |s| == 0 then [] else Row(s[0], s[1..]) + Combinations(s[1..])
  }

  /** Whether the pair involves `t`. */
  predicate Touches<T(==)>(p: (T, T), t: T) {
    p.0 == t || p.1 == t
  }

  /** How many of `pairs` involve `t`: the matchups `t` plays in. */
  function Occurrences<T(==)>(pairs: seq<(T, T)>, t: T): nat {
    if |pairs| == 0 then 0
    else (if Touches(pairs[0], t) then 1 else 0) + Occurrences(pairs[1..], t)
  }

  lemma {:induction false} RowMember<T>(x: T, ys: seq<T>, p: (T, T))
    ensures p in Row(x, ys) <==> p.0 == x && p.1 in ys
  {
    if |ys| > 0 {
      RowMember(x, ys[1..], p);
      assert ys == [ys[0]] + ys[1..];
    }
  }

  lemma {:induction false} RowLength<T>(x: T, ys: seq<T>)
    ensures |Row(x, ys)| == |ys|
  {
    if |ys| > 0 {
      RowLength(x, ys[1..]);
    }
  }

  lemma {:induction false} RowDistinct<T>(x: T, ys: seq<T>)
    requires Distinct(ys)
    ensures Distinct(Row(x, ys))
  {
    if |ys| > 0 {
      var rest := Row(x, ys[1..]);
      DistinctTail(ys);
      RowDistinct(x, ys[1..]);
      RowMember(x, ys[1..], (x, ys[0]));
      DistinctPrepend((x, ys[0]), rest);
    }
  }

  /** A pair is enumerated exactly when it is two positions of `s` in increasing order. */
  lemma {:induction false} CombinationsMember<T>(s: seq<T>, p: (T, T))
    ensures p in Combinations(s) <==> exists i, j :: 0 <= i < j < |s| && p == (s[i], s[j])
  {
    if |s| > 0 {
      var tail := s[1..];
      CombinationsMember(tail, p);
      RowMember(s[0], tail, p);
      if p in Combinations(s) {
        if p in Row(s[0], tail) {
          var k :| 0 <= k < |tail| && tail[k] == p.1;
          assert p == (s[0], s[k + 1]);
        } else {
          var i, j :| 0 <= i < j < |tail| && p == (tail[i], tail[j]);
          assert p == (s[i + 1], s[j + 1]);
        }
      }
      if exists i, j :: 0 <= i < j < |s| && p == (s[i], s[j]) {
        var i, j :| 0 <= i < j < |s| && p == (s[i], s[j]);
        if i == 0 {
          assert p.1 == tail[j - 1];
        } else {
          assert p == (tail[i - 1], tail[j - 1]);
        }
      }
    }
  }

  /** `n` names give `n * (n - 1) / 2` matchups. */
  lemma {:induction false} CombinationsLength<T>(s: seq<T>)
    ensures |Combinations(s)| == |s| * (|s| - 1) / 2
  {
    if |s| > 0 {
      var n := |s|;
      CombinationsLength(s[1..]);
      RowLength(s[0], s[1..]);
      assert n * (n - 1) == (n - 1) * (n - 2) + 2 * (n - 1);
    }
  }

  /** Over repetition-free names, no matchup is enumerated twice, in either orientation. */
  lemma {:induction false} CombinationsDistinct<T>(s: seq<T>)
    requires Distinct(s)
    ensures Distinct(Combinations(s))
  {
    if |s| > 0 {
      var tail := s[1..];
      DistinctTail(s);
      CombinationsDistinct(tail);
      RowDistinct(s[0], tail);
      forall p | p in Row(s[0], tail)
        ensures p !in Combinations(tail)
      {
        RowMember(s[0], tail, p);
        CombinationsMember(tail, p);
        forall i, j | 0 <= i < j < |tail|
          ensures p != (tail[i], tail[j])
        {
          assert tail[i] == s[i + 1];
        }
      }
      DistinctConcat(Row(s[0], tail), Combinations(tail));
    }
  }

  /** Each unordered pair of distinct names is enumerated once: in position order, never reversed. */
  lemma CombinationsOnce<T>(s: seq<T>, i: nat, j: nat)
    requires Distinct(s) && i < j < |s|
    ensures (s[i], s[j]) in Combinations(s)
    ensures (s[j], s[i]) !in Combinations(s)
  {
    CombinationsMember(s, (s[i], s[j]));
    CombinationsMember(s, (s[j], s[i]));
    forall i', j' | 0 <= i' < j' < |s|
      ensures (s[j], s[i]) != (s[i'], s[j'])
    {
      assert s[j] == s[i'] ==> j == i';
    }
  }

  lemma {:induction false} OccurrencesAppend<T>(a: seq<(T, T)>, b: seq<(T, T)>, t: T)
    ensures Occurrences(a + b, t) == Occurrences(a, t) + Occurrences(b, t)
  {
    if |a| == 0 {
      assert a + b == b;
    } else {
      assert (a + b)[1..] == a[1..] + b;
      OccurrencesAppend(a[1..], b, t);
    }
  }

  lemma {:induction false} OccurrencesRow<T>(x: T, ys: seq<T>, t: T)
    requires Distinct(ys) && x !in ys
    ensures Occurrences(Row(x, ys), t) == if t == x then |ys| else if t in ys then 1 else 0
  {
    if |ys| > 0 {
      var tail := ys[1..];
      assert ys == [ys[0]] + tail;
      DistinctTail(ys);
      OccurrencesRow(x, tail, t);
    }
  }

  /** Every team of a repetition-free league plays `n - 1` matchups; a non-member plays none. */
  lemma {:induction false} OccurrencesCombinations<T>(s: seq<T>, t: T)
    requires Distinct(s)
    ensures Occurrences(Combinations(s), t) == if t in s then |s| - 1 else 0
  {
    if |s| > 0 {
      var tail := s[1..];
      assert s == [s[0]] + tail;
      DistinctTail(s);
      OccurrencesCombinations(tail, t);
      OccurrencesRow(s[0], tail, t);
      OccurrencesAppend(Row(s[0], tail), Combinations(tail), t);
    }
  }
}
