/** Ranking the entries of a counter table: `sort.Slice` into non-increasing order of value
    followed by keeping the first `limit` entries, as the top-N views of the rule metrics do. */
module Ranking {

  /** One (key, value) pair taken out of a table. */
  datatype Entry = Entry(id: string, value: int)

  predicate SortedDesc(s: seq<Entry>) {
    forall i, j :: 0 <= i < j < |s| ==> s[i].value >= s[j].value
  }

  function Min(a: int, b: int): int {
    if a < b then a else b
  }

  /** Places `x` before the first entry of a sorted sequence whose value it is at least. */
  function InsertDesc(x: Entry, s: seq<Entry>): seq<Entry> {
    if s == [] then [x]
    else if x.value >= s[0].value then [x] + s
    else [s[0]] + InsertDesc(x, s[1..])
  }

  /** Inserting adds exactly `x`. */
  lemma {:induction false} InsertDescPerm(x: Entry, s: seq<Entry>)
    ensures multiset(InsertDesc(x, s)) == multiset(s) + multiset{x}
  {
    if s != [] && x.value < s[0].value {
      InsertDescPerm(x, s[1..]);
      assert s == [s[0]] + s[1..];
    }
  }

  /** Inserting into a sorted sequence keeps it sorted. */
  lemma {:induction false} InsertDescSorted(x: Entry, s: seq<Entry>)
    requires SortedDesc(s)
    ensures SortedDesc(InsertDesc(x, s))
  {
    if s != [] && x.value < s[0].value {
      var rest := InsertDesc(x, s[1..]);
      InsertDescSorted(x, s[1..]);
      InsertDescPerm(x, s[1..]);
      forall e | e in rest
        ensures e.value <= s[0].value
      {
        assert e in multiset(rest);
        if e != x {
          var j :| 0 <= j < |s[1..]| && s[1..][j] == e;
          assert s[j + 1] == e;
        }
      }
      ConsSorted(s[0], rest);
    }
  }

  /** An entry at least as large as every entry of a sorted sequence can go in front of it. */
  lemma ConsSorted(h: Entry, t: seq<Entry>)
    requires SortedDesc(t) && forall e :: e in t ==> e.value <= h.value
    ensures SortedDesc([h] + t)
  {
    var r := [h] + t;
    assert forall j :: 1 <= j < |r| ==> r[j] == t[j - 1];
  }

  /** An insertion sort: a permutation in non-increasing order of value. Go's `sort.Slice` is not
      stable, so the order among equal values is one of several the Go code may produce. */
  function SortDesc(s: seq<Entry>): (r: seq<Entry>)
    ensures multiset(r) == multiset(s)
    ensures SortedDesc(r)
  {
    if s == [] then []
    else
      assert s == [s[0]] + s[1..];
      InsertDescPerm(s[0], SortDesc(s[1..]));
      InsertDescSorted(s[0], SortDesc(s[1..]));
      InsertDesc(s[0], SortDesc(s[1..]))
  }

  /** `sort.Slice` on the entries with "greater value first" as its order. */
  method SortSlice(es: seq<Entry>) returns (r: seq<Entry>)
    ensures multiset(r) == multiset(es)
    ensures SortedDesc(r)
    ensures DistinctIds(es) ==> DistinctIds(r)
  {
    r := SortDesc(es);
    if DistinctIds(es) {
      PermDistinctIds(es, r);
    }
  }

  /** No two entries share a key. */
  predicate DistinctIds(s: seq<Entry>) {
    forall i, j :: 0 <= i < j < |s| ==> s[i].id != s[j].id
  }

  /** Entries with distinct keys occur at most once each. */
  lemma {:induction false} DistinctIdsOnce(s: seq<Entry>)
    requires DistinctIds(s)
    ensures forall e :: multiset(s)[e] <= 1
    decreases |s|
  {
    if s != [] {
      var n := |s| - 1;
      DistinctIdsOnce(s[..n]);
      assert s == s[..n] + [s[n]];
      assert s[n] !in s[..n];
    }
  }

  /** An entry found at two positions occurs at least twice. */
  lemma TwiceAt(s: seq<Entry>, i: nat, j: nat)
    requires i < j < |s| && s[i] == s[j]
    ensures multiset(s)[s[i]] >= 2
  {
    assert s == s[..j] + s[j..];
    assert s[i] in s[..j];
    assert s[j..][0] == s[j];
  }

  /** A permutation of entries with distinct keys has distinct keys. */
  lemma PermDistinctIds(a: seq<Entry>, b: seq<Entry>)
    requires multiset(b) == multiset(a) && DistinctIds(a)
    ensures DistinctIds(b)
  {
    DistinctIdsOnce(a);
    forall i, j | 0 <= i < j < |b|
      ensures b[i].id != b[j].id
    {
      if b[i] == b[j] {
        TwiceAt(b, i, j);
      } else {
        assert b[i] in multiset(a) && b[j] in multiset(a);
        var p :| 0 <= p < |a| && a[p] == b[i];
        var q :| 0 <= q < |a| && a[q] == b[j];
        assert p != q;
      }
    }
  }

  /** Two sequences with the same multiset have the same length and the same members. */
  lemma SameElements(es: seq<Entry>, sorted: seq<Entry>)
    requires multiset(sorted) == multiset(es)
    ensures |sorted| == |es|
    ensures forall e :: e in sorted <==> e in es
  {
    assert |sorted| == |multiset(sorted)| == |es|;
    forall e
      ensures e in sorted <==> e in es
    {
      assert e in sorted <==> e in multiset(sorted);
    }
  }
}
