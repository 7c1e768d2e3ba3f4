/** Counter tables: Go's `map[K]int64` with the zero value for a missing key, and the sum of a table,
    used for the invariants that per-key tallies add up to a total. */
module Tally {

  /** `m[k]` in Go: the stored count, or 0 when `k` is absent. */
  function Get<K>(m: map<K, int>, k: K): int {
    if k in m then m[k] else 0
  }

  /** `m[k]++` in Go: creates the entry at 1 when it is absent. */
  function Bump<K(!new)>(m: map<K, int>, k: K): (r: map<K, int>)
    ensures Get(r, k) == Get(m, k) + 1
    ensures forall j :: j != k ==> Get(r, j) == Get(m, j)
  {
    m[k := Get(m, k) + 1]
  }

  /** The sum of all counts of a table. */
  ghost function Sum<K>(m: map<K, int>): int
    decreases |m|
  {
    if m == map[] then 0
    else
      var k :| k in m;
      m[k] + Sum(m - {k})
  }

  /** The sum does not depend on which key is taken out first. */
  lemma {:induction false} SumRemove<K>(m: map<K, int>, k: K)
    requires k in m
    ensures Sum(m) == m[k] + Sum(m - {k})
    decreases |m|
  {
    var j :| j in m && Sum(m) == m[j] + Sum(m - {j});
    if j != k {
      assert (m - {j}).Keys == m.Keys - {j};
      assert (m - {k}).Keys == m.Keys - {k};
      SumRemove(m - {j}, k);
      SumRemove(m - {k}, j);
      assert m - {j} - {k} == m - {k} - {j};
    }
  }

  /** Overwriting one entry changes the sum by the difference of the two counts. */
  lemma SumUpdate<K>(m: map<K, int>, k: K, v: int)
    ensures Sum(m[k := v]) == Sum(m) - Get(m, k) + v
  {
    SumRemove(m[k := v], k);
    assert m[k := v] - {k} == m - {k};
    if k in m {
      SumRemove(m, k);
    } else {
      assert m - {k} == m;
    }
  }

  /** One `m[k]++` adds exactly one to the sum. */
  lemma SumBump<K(!new)>(m: map<K, int>, k: K)
    ensures Sum(Bump(m, k)) == Sum(m) + 1
  {
    SumUpdate(m, k, Get(m, k) + 1);
  }

  /** `m[k]++` for each key of `ks` in turn. */
  function BumpAll<K(!new)>(m: map<K, int>, ks: seq<K>): map<K, int>
    decreases |ks|
  {
    if ks == [] then m else Bump(BumpAll(m, ks[..|ks| - 1]), ks[|ks| - 1])
  }

  /** How many times `k` occurs in `ks`. */
  function Occurrences<K(==)>(ks: seq<K>, k: K): nat
    decreases |ks|
  {
    if ks == [] then 0
    else Occurrences(ks[..|ks| - 1], k) + if ks[|ks| - 1] == k then 1 else 0
  }

  /** A key occurs at most once per element, and at least once exactly when it is an element. */
  lemma {:induction false} OccurrencesBounds<K>(ks: seq<K>, k: K)
    ensures Occurrences(ks, k) <= |ks|
    ensures Occurrences(ks, k) > 0 <==> k in ks
    decreases |ks|
  {
    if ks != [] {
      OccurrencesBounds(ks[..|ks| - 1], k);
      assert ks == ks[..|ks| - 1] + [ks[|ks| - 1]];
    }
  }

  /** Bumping each key of `ks` in turn adds its number of occurrences to every count, and creates
      an entry for each key that occurs. */
  lemma {:induction false} BumpAllCounts<K(!new)>(m: map<K, int>, ks: seq<K>, k: K)
    ensures Get(BumpAll(m, ks), k) == Get(m, k) + Occurrences(ks, k)
    ensures k in BumpAll(m, ks) <==> k in m || k in ks
    decreases |ks|
  {
    if ks != [] {
      BumpAllCounts(m, ks[..|ks| - 1], k);
      assert ks == ks[..|ks| - 1] + [ks[|ks| - 1]];
    }
  }

  /** No key occurs twice. */
  predicate Distinct<K(==)>(ks: seq<K>) {
    forall i, j :: 0 <= i < j < |ks| ==> ks[i] != ks[j]
  }

  /** Bumping distinct keys adds one to exactly those keys. */
  lemma {:induction false} BumpAllDistinct<K(!new)>(m: map<K, int>, ks: seq<K>, k: K)
    requires Distinct(ks)
    ensures Get(BumpAll(m, ks), k) == Get(m, k) + (if k in ks then 1 else 0)
    decreases |ks|
  {
    if ks != [] {
      var front := ks[..|ks| - 1];
      assert Distinct(front);
      BumpAllDistinct(m, front, k);
      assert k in ks <==> k in front || k == ks[|ks| - 1];
      assert ks[|ks| - 1] !in front;
    }
  }

  /** Every bump adds one to the sum of the table. */
  lemma {:induction false} SumBumpAll<K(!new)>(m: map<K, int>, ks: seq<K>)
    ensures Sum(BumpAll(m, ks)) == Sum(m) + |ks|
    decreases |ks|
  {
    if ks != [] {
      SumBumpAll(m, ks[..|ks| - 1]);
      SumBump(BumpAll(m, ks[..|ks| - 1]), ks[|ks| - 1]);
    }
  }

  /** A sequence without repetitions has as many elements as its set of elements. */
  lemma {:induction false} DistinctCard<K>(ks: seq<K>)
    requires Distinct(ks)
    ensures |set k | k in ks| == |ks|
    decreases |ks|
  {
    if ks != [] {
      var front := ks[..|ks| - 1];
      assert Distinct(front);
      DistinctCard(front);
      assert (set k | k in ks) == (set k | k in front) + {ks[|ks| - 1]};
    }
  }

  /** The running maximum of a non-empty sequence, as a loop that keeps the larger value would reach it. */
  function MaxOf(s: seq<int>): int
    requires s != []
    decreases |s|
  {
    if |s| == 1 then s[0]
    else
      var m := MaxOf(s[..|s| - 1]);
      if s[|s| - 1] > m then s[|s| - 1] else m
  }

  /** The running maximum is an element of the sequence and no element exceeds it. */
  lemma {:induction false} MaxOfSpec(s: seq<int>)
    requires s != []
    ensures MaxOf(s) in s
    ensures forall x :: x in s ==> x <= MaxOf(s)
    decreases |s|
  {
    if |s| > 1 {
      var front := s[..|s| - 1];
      MaxOfSpec(front);
      assert s == front + [s[|s| - 1]];
    }
  }

  /** Appending one value raises the maximum to it exactly when it is larger. */
  lemma MaxOfSnoc(s: seq<int>, x: int)
    requires s != []
    ensures MaxOf(s + [x]) == if x > MaxOf(s) then x else MaxOf(s)
  {
    assert (s + [x])[..|s|] == s;
  }

  /** The sum of a sequence of integers. */
  function SeqSum(s: seq<int>): int {
    if s == [] then 0 else SeqSum(s[..|s| - 1]) + s[|s| - 1]
  }
}
