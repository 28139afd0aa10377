/** The list operations the screens use: Array.prototype.filter, a stable sort by an
    integer key (Array.prototype.sort with a numeric comparator), and uniqueness of keys. */
module Seqs {

  // ---------------------------------------------------------------- filter

  /** Keeps the elements satisfying `p`, in their original order. */
  function Filter<T>(s: seq<T>, p: T -> bool): (r: seq<T>)
    ensures |r| <= |s|
    ensures forall i :: 0 <= i < |r| ==> r[i] in s && p(r[i])
    ensures forall i :: 0 <= i < |s| && p(s[i]) ==> s[i] in r
  {
    if s == [] then []
    else if p(s[0]) then [s[0]] + Filter(s[1..], p)
    else Filter(s[1..], p)
  }

  /** Filtering distributes over concatenation, so it keeps the relative order of the input. */
  lemma {:induction false} FilterAppend<T>(a: seq<T>, b: seq<T>, p: T -> bool)
    ensures Filter(a + b, p) == Filter(a, p) + Filter(b, p)
  {
    if a == [] {
      assert a + b == b;
    } else {
      assert (a + b)[1..] == a[1..] + b;
      FilterAppend(a[1..], b, p);
    }
  }

  /** Two predicates that agree on the elements of `s` filter `s` alike. */
  lemma {:induction false} FilterCongruent<T>(s: seq<T>, p: T -> bool, q: T -> bool)
    requires forall i :: 0 <= i < |s| ==> p(s[i]) == q(s[i])
    ensures Filter(s, p) == Filter(s, q)
  {
    if s != [] {
      FilterCongruent(s[1..], p, q);
    }
  }

  /** Whatever filtering keeps comes from the input and is accepted. */
  lemma FilterMembers<T>(s: seq<T>, p: T -> bool)
    ensures forall x :: x in Filter(s, p) ==> x in s && p(x)
  {
    forall x | x in Filter(s, p) ensures x in s && p(x) {
      var i :| 0 <= i < |Filter(s, p)| && Filter(s, p)[i] == x;
    }
  }

  /** Filtering keeps every occurrence of an accepted element and none of a rejected one. */
  lemma {:induction false} FilterMultiset<T>(s: seq<T>, p: T -> bool)
    ensures forall x :: multiset(Filter(s, p))[x] == if p(x) then multiset(s)[x] else 0
  {
    if s != [] {
      FilterMultiset(s[1..], p);
      assert s == [s[0]] + s[1..];
    }
  }

  // ---------------------------------------------------------------- unique keys

  /** No two positions of `s` carry the same key. */
  ghost predicate UniqueKeys<T, K>(s: seq<T>, key: T -> K) {
    forall i, j :: 0 <= i < j < |s| ==> key(s[i]) != key(s[j])
  }

  /** Filtering never introduces a repeated key. */
  lemma {:induction false} FilterUniqueKeys<T, K>(s: seq<T>, p: T -> bool, key: T -> K)
    requires UniqueKeys(s, key)
    ensures UniqueKeys(Filter(s, p), key)
  {
    if s != [] {
      FilterUniqueKeys(s[1..], p, key);
      var rest := Filter(s[1..], p);
      forall j | 0 <= j < |rest| ensures key(rest[j]) != key(s[0]) {
        assert rest[j] in s[1..];
        var k :| 1 <= k < |s| && s[k] == rest[j];
      }
    }
  }

  /** Two key-unique sequences with no key in common concatenate to a key-unique sequence. */
  lemma UniqueKeysAppend<T, K>(a: seq<T>, b: seq<T>, key: T -> K)
    requires UniqueKeys(a, key) && UniqueKeys(b, key)
    requires forall i, j :: 0 <= i < |a| && 0 <= j < |b| ==> key(a[i]) != key(b[j])
    ensures UniqueKeys(a + b, key)
  {
    forall i, j | 0 <= i < j < |a + b| ensures key((a + b)[i]) != key((a + b)[j]) {
      if j < |a| {
      } else if i < |a| {
        assert key(a[i]) != key(b[j - |a|]);
      } else {
        assert key(b[i - |a|]) != key(b[j - |a|]);
      }
    }
  }

  // ---------------------------------------------------------------- stable sort by key

  /** Ascending by `key`. */
  predicate SortedBy<T>(s: seq<T>, key: T -> int) {
    forall i, j :: 0 <= i < j < |s| ==> key(s[i]) <= key(s[j])
  }

  /** Puts `x` in front of the first element whose key is not smaller than its own. */
  function InsertBy<T>(x: T, s: seq<T>, key: T -> int): (r: seq<T>)
    requires SortedBy(s, key)
    ensures SortedBy(r, key)
    ensures multiset(r) == multiset(s) + multiset{x}
    ensures |r| == |s| + 1 && (r[0] == x || (s != [] && r[0] == s[0]))
  {
    if s == [] || key(x) <= key(s[0]) then [x] + s
    else
      var tail := InsertBy(x, s[1..], key);
      assert s == [s[0]] + s[1..];
      assert key(s[0]) <= key(tail[0]);
      [s[0]] + tail
  }

  /** Insertion sort by `key`; an earlier element is placed before later ones with the same key. */
  function SortBy<T>(s: seq<T>, key: T -> int): (r: seq<T>)
    ensures SortedBy(r, key)
    ensures multiset(r) == multiset(s)
    ensures |r| == |s|
  {
    if s == [] then []
    else
      assert s == [s[0]] + s[1..];
      InsertBy(s[0], SortBy(s[1..], key), key)
  }

  /** Inserting an element whose key (under `key`) is new keeps the keys unique. */
  lemma {:induction false} InsertByUniqueKeys<T, K>(x: T, s: seq<T>, sortKey: T -> int, key: T -> K)
    requires SortedBy(s, sortKey) && UniqueKeys(s, key)
    requires forall i :: 0 <= i < |s| ==> key(s[i]) != key(x)
    ensures UniqueKeys(InsertBy(x, s, sortKey), key)
  {
    if s != [] && sortKey(x) > sortKey(s[0]) {
      var tail := InsertBy(x, s[1..], sortKey);
      InsertByUniqueKeys(x, s[1..], sortKey, key);
      assert multiset(tail) == multiset(s[1..]) + multiset{x};
      forall j | 0 <= j < |tail| ensures key(tail[j]) != key(s[0]) {
        assert tail[j] in multiset(tail);
        if tail[j] != x {
          var k :| 0 <= k < |s[1..]| && s[1..][k] == tail[j];
          assert s[k + 1] == tail[j];
        }
      }
    }
  }

  /** Sorting keeps keys unique. */
  lemma {:induction false} SortByUniqueKeys<T, K>(s: seq<T>, sortKey: T -> int, key: T -> K)
    requires UniqueKeys(s, key)
    ensures UniqueKeys(SortBy(s, sortKey), key)
  {
    if s != [] {
      var sorted := SortBy(s[1..], sortKey);
      SortByUniqueKeys(s[1..], sortKey, key);
      forall i | 0 <= i < |sorted| ensures key(sorted[i]) != key(s[0]) {
        assert sorted[i] in multiset(s[1..]);
        var k :| 0 <= k < |s[1..]| && s[1..][k] == sorted[i];
        assert s[k + 1] == sorted[i];
      }
      InsertByUniqueKeys(s[0], sorted, sortKey, key);
    }
  }

  /** Sorting neither adds nor drops an element. */
  lemma SortByMembers<T>(s: seq<T>, key: T -> int)
    ensures forall x :: x in SortBy(s, key) <==> x in s
  {
    forall x ensures x in SortBy(s, key) <==> x in s {
      assert x in SortBy(s, key) <==> x in multiset(SortBy(s, key));
      assert x in s <==> x in multiset(s);
    }
  }
}
