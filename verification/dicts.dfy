/** Python's insertion-ordered dictionaries. */
module Dicts {

  /** No element occurs twice. */
  predicate Distinct<T(==)>(s: seq<T>) {
    forall i, j :: 0 <= i < j < |s| ==> s[i] != s[j]
  }

  /** A dictionary: `order` is the iteration order of its keys, `entries` its contents. */
  datatype Dict<K, V> = Dict(order: seq<K>, entries: map<K, V>) {

    /** Every key is iterated exactly once. */
    predicate Valid() {
      && Distinct(order)
      && (forall k :: k in entries ==> k in order)
      && (forall k :: k in order ==> k in entries)
    }
  }

  /** Dropping the head of a repetition-free sequence leaves one without that head. */
  lemma DistinctTail<T>(s: seq<T>)
    requires Distinct(s) && |s| > 0
    ensures Distinct(s[1..]) && s[0] !in s[1..]
  {
    forall i, j | 0 <= i < j < |s[1..]|
      ensures s[1..][i] != s[1..][j]
    {
      assert s[1..][i] == s[i + 1] && s[1..][j] == s[j + 1];
    }
    forall k | 0 <= k < |s[1..]|
      ensures s[1..][k] != s[0]
    {
      assert s[1..][k] == s[k + 1];
    }
  }

  /** Every element of `ks` is a key of `m`, checked front to back. */
  predicate AllIn<K, V>(ks: seq<K>, m: map<K, V>) {
    |ks| == 0 || (ks[0] in m && AllIn(ks[1..], m))
  }

  lemma {:induction false} AllInIff<K, V>(ks: seq<K>, m: map<K, V>)
    ensures AllIn(ks, m) <==> forall k :: k in ks ==> k in m
  {
    if |ks| > 0 {
      AllInIff(ks[1..], m);
      assert ks == [ks[0]] + ks[1..];
    }
  }

  /** A repetition-free sequence has as many distinct elements as positions. */
  lemma {:induction false} DistinctCard<K>(s: seq<K>)
    requires Distinct(s)
    ensures |set x | x in s| == |s|
  {
    if |s| > 0 {
      DistinctCard(s[1..]);
      assert (set x | x in s) == {s[0]} + (set x | x in s[1..]);
      assert s[0] !in (set x | x in s[1..]);
    }
  }

  /** A valid dictionary iterates as many keys as it holds. */
  lemma DictCard<K, V>(d: Dict<K, V>)
    requires d.Valid()
    ensures |d.entries| == |d.order|
  {
    DistinctCard(d.order);
    assert d.entries.Keys == set x | x in d.order;
  }

  /** Putting a fresh element in front keeps a sequence repetition-free. */
  lemma DistinctPrepend<T>(x: T, s: seq<T>)
    requires Distinct(s) && x !in s
    ensures Distinct([x] + s)
  {
    forall i, j | 0 <= i < j < |[x] + s|
      ensures ([x] + s)[i] != ([x] + s)[j]
    {
      if i > 0 {
        assert ([x] + s)[i] == s[i - 1];
      }
      assert ([x] + s)[j] == s[j - 1];
    }
  }

  /** Two repetition-free sequences with no common element concatenate to a repetition-free one. */
  lemma DistinctConcat<T>(a: seq<T>, b: seq<T>)
    requires Distinct(a) && Distinct(b)
    requires forall x :: x in a ==> x !in b
    ensures Distinct(a + b)
  {
    forall i, j | 0 <= i < j < |a + b|
      ensures (a + b)[i] != (a + b)[j]
    {
      if j < |a| {
        assert (a + b)[i] == a[i] && (a + b)[j] == a[j];
      } else if i < |a| {
        assert (a + b)[i] == a[i] && (a + b)[j] == b[j - |a|];
        assert a[i] in a;
      } else {
        assert (a + b)[i] == b[i - |a|] && (a + b)[j] == b[j - |a|];
      }
    }
  }

  /** Two repetition-free sequences with the same elements are permutations of each other. */
  lemma DistinctSameSet<K>(a: seq<K>, b: seq<K>)
    requires Distinct(a) && Distinct(b)
    requires forall x :: x in a <==> x in b
    ensures multiset(a) == multiset(b)
  {
    DistinctMultiset(a);
    DistinctMultiset(b);
    assert forall x :: multiset(a)[x] == multiset(b)[x];
  }

  /** A repetition-free sequence holds each of its elements once. */
  lemma {:induction false} DistinctMultiset<K>(s: seq<K>)
    requires Distinct(s)
    ensures forall x :: multiset(s)[x] == if x in s then 1 else 0
  {
    if |s| > 0 {
      DistinctMultiset(s[1..]);
      assert s == [s[0]] + s[1..];
      assert s[0] !in s[1..];
    }
  }
}
