/**
 Generic sequence facts the store's queries are built from: filtering rows
 (a WHERE clause or an ORM filter), building one view record per row, unique
 keys, and ordering rows (an ORDER BY clause).
 */
module Seqs {

  /** The elements of `s` that satisfy `p`, in their original order. */
  function Filter<T>(s: seq<T>, p: T -> bool): (r: seq<T>)
    ensures |r| <= |s|
    ensures forall i :: 0 <= i < |r| ==> r[i] in s && p(r[i])
    ensures forall i :: 0 <= i < |s| && p(s[i]) ==> s[i] in r
  {
    if |s| == 0 then []
    else if p(s[0]) then [s[0]] + Filter(s[1..], p)
    else Filter(s[1..], p)
  }

  /** Filtering distributes over concatenation, so it keeps relative order. */
  lemma {:induction false} FilterAppend<T>(a: seq<T>, b: seq<T>, p: T -> bool)
    ensures Filter(a + b, p) == Filter(a, p) + Filter(b, p)
  {
    if |a| == 0 {
      assert a + b == b;
    } else {
      assert (a + b)[0] == a[0];
      assert (a + b)[1..] == a[1..] + b;
      FilterAppend(a[1..], b, p);
    }
  }

  /** A filter and its complement split `s`: every element lands in exactly one of the two. */
  lemma {:induction false} FilterSplit<T>(s: seq<T>, p: T -> bool, q: T -> bool)
    requires forall x :: q(x) == !p(x)
    ensures |Filter(s, p)| + |Filter(s, q)| == |s|
    ensures multiset(Filter(s, p)) + multiset(Filter(s, q)) == multiset(s)
  {
    if |s| > 0 {
      FilterSplit(s[1..], p, q);
      assert s == [s[0]] + s[1..];
    }
  }

  /** A filter that every element passes returns the whole sequence. */
  lemma {:induction false} FilterAll<T>(s: seq<T>, p: T -> bool)
    requires forall x :: x in s ==> p(x)
    ensures Filter(s, p) == s
  {
    if |s| > 0 {
      assert s[0] in s;
      FilterAll(s[1..], p);
      assert s == [s[0]] + s[1..];
    }
  }

  /** No two positions of `s` carry the same key (a primary key column). */
  predicate UniqueBy<T>(s: seq<T>, key: T -> int)
  {
    forall i, j :: 0 <= i < j < |s| ==> key(s[i]) != key(s[j])
  }

  /** The keys occurring in `s`. */
  function Keys<T>(s: seq<T>, key: T -> int): set<int>
  {
    set i | 0 <= i < |s| :: key(s[i])
  }

  /** Dropping rows never creates a duplicate key. */
  lemma {:induction false} FilterUnique<T>(s: seq<T>, p: T -> bool, key: T -> int)
    requires UniqueBy(s, key)
    ensures UniqueBy(Filter(s, p), key)
  {
    if |s| > 0 {
      var rest := Filter(s[1..], p);
      assert UniqueBy(s[1..], key) by {
        forall i, j | 0 <= i < j < |s[1..]| ensures key(s[1..][i]) != key(s[1..][j]) {
          assert s[1..][i] == s[i + 1] && s[1..][j] == s[j + 1];
        }
      }
      FilterUnique(s[1..], p, key);
      if p(s[0]) {
        var r := [s[0]] + rest;
        forall i, j | 0 <= i < j < |r| ensures key(r[i]) != key(r[j]) {
          if i == 0 {
            assert r[j] in s[1..];
            var k :| 0 <= k < |s[1..]| && s[1..][k] == r[j];
            assert s[k + 1] == r[j];
          } else {
            assert r[i] == rest[i - 1] && r[j] == rest[j - 1];
          }
        }
      }
    }
  }

  /** Updating one position to a value with the same key keeps the keys, and keeps them unique. */
  lemma {:induction false} UpdateUnique<T>(s: seq<T>, k: nat, x: T, key: T -> int)
    requires UniqueBy(s, key) && k < |s| && key(x) == key(s[k])
    ensures UniqueBy(s[k := x], key)
    ensures Keys(s[k := x], key) == Keys(s, key)
  {
    var r := s[k := x];
    assert forall i :: 0 <= i < |s| ==> key(r[i]) == key(s[i]);
    assert Keys(r, key) == Keys(s, key) by {
      forall y | y in Keys(r, key) ensures y in Keys(s, key) {
        var i :| 0 <= i < |r| && key(r[i]) == y;
        assert key(s[i]) == y;
      }
      forall y | y in Keys(s, key) ensures y in Keys(r, key) {
        var i :| 0 <= i < |s| && key(s[i]) == y;
        assert key(r[i]) == y;
      }
    }
  }

  /** Appending a value whose key is not yet used keeps keys unique. */
  lemma {:induction false} AppendUnique<T>(s: seq<T>, x: T, key: T -> int)
    requires UniqueBy(s, key) && key(x) !in Keys(s, key)
    ensures UniqueBy(s + [x], key)
    ensures Keys(s + [x], key) == Keys(s, key) + {key(x)}
  {
    assert forall i :: 0 <= i < |s| ==> (s + [x])[i] == s[i];
    assert Keys(s + [x], key) == Keys(s, key) + {key(x)} by {
      forall y | y in Keys(s + [x], key) ensures y in Keys(s, key) + {key(x)} {
        var i :| 0 <= i < |s + [x]| && key((s + [x])[i]) == y;
        if i < |s| { assert key(s[i]) == y; }
      }
      assert key((s + [x])[|s|]) == key(x);
    }
    var r := s + [x];
    forall i, j | 0 <= i < j < |r| ensures key(r[i]) != key(r[j]) {
      if j == |s| {
        assert r[i] == s[i] && s[i] in s;
      } else {
        assert r[i] == s[i] && r[j] == s[j];
      }
    }
  }

  /** A prefix one longer is the prefix and the next element. */
  lemma {:induction false} PrefixExtend<T>(s: seq<T>, i: nat)
    requires i < |s|
    ensures s[..i + 1] == s[..i] + [s[i]]
  {
  }

  /** One record per element, in the same order. */
  function MapSeq<T, U>(s: seq<T>, f: T -> U): (r: seq<U>)
    ensures |r| == |s|
    ensures forall i :: 0 <= i < |s| ==> r[i] == f(s[i])
  {
    if |s| == 0 then [] else [f(s[0])] + MapSeq(s[1..], f)
  }

  /** `s` is in non-decreasing order under `le`. */
  predicate SortedBy<T>(s: seq<T>, le: (T, T) -> bool)
  {
    forall i :: 0 < i < |s| ==> le(s[i - 1], s[i])
  }

  /** `le` relates any two values one way or the other. */
  ghost predicate Total<T(!new)>(le: (T, T) -> bool)
  {
    forall a, b :: le(a, b) || le(b, a)
  }

  /** Insert `x` before the first element it is not after. */
  function InsertBy<T>(x: T, s: seq<T>, le: (T, T) -> bool): seq<T>
  {
    if |s| == 0 then [x]
    else if le(x, s[0]) then [x] + s
    else [s[0]] + InsertBy(x, s[1..], le)
  }

  /** Insertion sort: the order an ORDER BY clause returns rows in. */
  function SortBy<T>(s: seq<T>, le: (T, T) -> bool): seq<T>
  {
    if |s| == 0 then [] else InsertBy(s[0], SortBy(s[1..], le), le)
  }

  lemma {:induction false} InsertBySorted<T(!new)>(x: T, s: seq<T>, le: (T, T) -> bool)
    requires Total(le) && SortedBy(s, le)
    ensures SortedBy(InsertBy(x, s, le), le)
    ensures |s| > 0 ==> InsertBy(x, s, le)[0] == x || InsertBy(x, s, le)[0] == s[0]
  {
    if |s| > 0 && !le(x, s[0]) {
      assert le(s[0], x);
      assert SortedBy(s[1..], le) by {
        forall i | 0 < i < |s[1..]| ensures le(s[1..][i - 1], s[1..][i]) {
          assert s[1..][i - 1] == s[i] && s[1..][i] == s[i + 1];
        }
      }
      InsertBySorted(x, s[1..], le);
      var rest := InsertBy(x, s[1..], le);
      assert |s| > 1 ==> le(s[0], s[1]);
    }
  }

  /** Sorting yields an ordered sequence. */
  lemma {:induction false} SortBySorted<T(!new)>(s: seq<T>, le: (T, T) -> bool)
    requires Total(le)
    ensures SortedBy(SortBy(s, le), le)
  {
    if |s| > 0 {
      SortBySorted(s[1..], le);
      InsertBySorted(s[0], SortBy(s[1..], le), le);
    }
  }

  lemma {:induction false} MapInsertBy<T, U>(x: T, s: seq<T>, le: (T, T) -> bool, f: T -> U)
    ensures multiset(MapSeq(InsertBy(x, s, le), f)) == multiset{f(x)} + multiset(MapSeq(s, f))
  {
    if |s| > 0 {
      if le(x, s[0]) {
        assert MapSeq([x] + s, f) == [f(x)] + MapSeq(s, f);
      } else {
        MapInsertBy(x, s[1..], le, f);
        assert MapSeq([s[0]] + InsertBy(x, s[1..], le), f) == [f(s[0])] + MapSeq(InsertBy(x, s[1..], le), f);
        assert MapSeq(s, f) == [f(s[0])] + MapSeq(s[1..], f);
      }
    }
  }

  /** Sorting permutes: any per-element view of the sorted sequence is a permutation of the same view of the input. */
  lemma {:induction false} MapSortBy<T, U>(s: seq<T>, le: (T, T) -> bool, f: T -> U)
    ensures multiset(MapSeq(SortBy(s, le), f)) == multiset(MapSeq(s, f))
  {
    if |s| > 0 {
      MapSortBy(s[1..], le, f);
      MapInsertBy(s[0], SortBy(s[1..], le), le, f);
      assert MapSeq(s, f) == [f(s[0])] + MapSeq(s[1..], f);
    }
  }

  /** Sorting permutes its input. */
  lemma {:induction false} SortByPermutes<T>(s: seq<T>, le: (T, T) -> bool)
    ensures multiset(SortBy(s, le)) == multiset(s)
  {
    if |s| > 0 {
      SortByPermutes(s[1..], le);
      InsertByPermutes(s[0], SortBy(s[1..], le), le);
      assert s == [s[0]] + s[1..];
    }
  }

  lemma {:induction false} InsertByPermutes<T>(x: T, s: seq<T>, le: (T, T) -> bool)
    ensures multiset(InsertBy(x, s, le)) == multiset(s) + multiset{x}
  {
    if |s| > 0 && !le(x, s[0]) {
      InsertByPermutes(x, s[1..], le);
      assert s == [s[0]] + s[1..];
    }
  }
}
