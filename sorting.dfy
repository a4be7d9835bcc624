// A stable sort in descending key order. It stands for Python's
// `sorted(xs, key=key, reverse=True)` (stable by the language's definition)
// and for SQL `ORDER BY key DESC` when ties follow the scan order.

module Sorting {
  import opened Values

  /** Inserts `x` before the first element whose key is not greater than its own. */
  function Insert<T>(x: T, t: seq<T>, key: T -> real): seq<T>
  {
    if t == [] || key(x) >= key(t[0]) then [x] + t
    else [t[0]] + Insert(x, t[1..], key)
  }

  function SortDesc<T>(s: seq<T>, key: T -> real): seq<T>
  {
    if s == [] then [] else Insert(s[0], SortDesc(s[1..], key), key)
  }

  /** Keys never increase from left to right. */
  ghost predicate NonIncreasing<T>(s: seq<T>, key: T -> real)
  {
    forall i, j :: 0 <= i < j < |s| ==> key(s[i]) >= key(s[j])
  }

  /** The elements of `s` whose key is `v`, in their order in `s`. */
  function WithKey<T>(s: seq<T>, key: T -> real, v: real): seq<T>
  {
    if s == [] then []
    else (if key(s[0]) == v then [s[0]] else []) + WithKey(s[1..], key, v)
  }

  lemma {:induction false} InsertPermutes<T>(x: T, t: seq<T>, key: T -> real)
    ensures multiset(Insert(x, t, key)) == multiset(t) + multiset{x}
    ensures |Insert(x, t, key)| == |t| + 1
  {
    if t != [] && key(x) < key(t[0]) {
      InsertPermutes(x, t[1..], key);
      assert t == [t[0]] + t[1..];
    }
  }

  lemma {:induction false} InsertWithKey<T>(x: T, t: seq<T>, key: T -> real, v: real)
    ensures WithKey(Insert(x, t, key), key, v)
         == (if key(x) == v then [x] else []) + WithKey(t, key, v)
  {
    if t == [] || key(x) >= key(t[0]) {
      assert ([x] + t)[1..] == t;
    } else {
      var rest := Insert(x, t[1..], key);
      InsertWithKey(x, t[1..], key, v);
      assert Insert(x, t, key) == [t[0]] + rest;
      assert ([t[0]] + rest)[1..] == rest;
      var tail := WithKey(t[1..], key, v);
      if key(t[0]) == v {
        assert key(x) != v;
        assert WithKey(rest, key, v) == tail;
        assert WithKey([t[0]] + rest, key, v) == [t[0]] + tail == WithKey(t, key, v);
      } else {
        assert WithKey([t[0]] + rest, key, v) == WithKey(rest, key, v);
        assert WithKey(t, key, v) == tail;
      }
    }
  }

  lemma {:induction false} InsertSorted<T>(x: T, t: seq<T>, key: T -> real)
    requires NonIncreasing(t, key)
    ensures NonIncreasing(Insert(x, t, key), key)
  {
    if t != [] && key(x) < key(t[0]) {
      var rest := Insert(x, t[1..], key);
      assert NonIncreasing(t[1..], key) by {
        forall i, j | 0 <= i < j < |t[1..]| ensures key(t[1..][i]) >= key(t[1..][j]) {
          assert t[1..][i] == t[i + 1] && t[1..][j] == t[j + 1];
        }
      }
      InsertSorted(x, t[1..], key);
      InsertPermutes(x, t[1..], key);
      var r := [t[0]] + rest;
      forall i, j | 0 <= i < j < |r| ensures key(r[i]) >= key(r[j]) {
        if i == 0 {
          assert r[j] == rest[j - 1];
          assert rest[j - 1] in multiset(rest);
          assert rest[j - 1] in multiset(t[1..]) || rest[j - 1] == x;
          if rest[j - 1] != x {
            var m :| 0 <= m < |t[1..]| && t[1..][m] == rest[j - 1];
            assert t[1..][m] == t[m + 1];
          }
        } else {
          assert r[i] == rest[i - 1] && r[j] == rest[j - 1];
        }
      }
    }
  }

  /** The sort permutes its input, orders it by key, and keeps equal keys in input order. */
  lemma {:induction false} SortFacts<T>(s: seq<T>, key: T -> real)
    ensures multiset(SortDesc(s, key)) == multiset(s)
    ensures |SortDesc(s, key)| == |s|
    ensures NonIncreasing(SortDesc(s, key), key)
    ensures forall v :: WithKey(SortDesc(s, key), key, v) == WithKey(s, key, v)
  {
    if s != [] {
      SortFacts(s[1..], key);
      assert s == [s[0]] + s[1..];
      forall v ensures WithKey(SortDesc(s, key), key, v) == WithKey(s, key, v) {
        InsertWithKey(s[0], SortDesc(s[1..], key), key, v);
      }
      InsertPermutes(s[0], SortDesc(s[1..], key), key);
      InsertSorted(s[0], SortDesc(s[1..], key), key);
    }
  }

  /** An input already in non-increasing key order comes back unchanged. */
  lemma {:induction false} SortOfSorted<T>(s: seq<T>, key: T -> real)
    requires NonIncreasing(s, key)
    ensures SortDesc(s, key) == s
  {
    if s != [] {
      assert NonIncreasing(s[1..], key) by {
        forall i, j | 0 <= i < j < |s[1..]| ensures key(s[1..][i]) >= key(s[1..][j]) {
          assert s[1..][i] == s[i + 1] && s[1..][j] == s[j + 1];
        }
      }
      SortOfSorted(s[1..], key);
      if |s| > 1 {
        assert key(s[0]) >= key(s[1]);
        assert s[1..][0] == s[1];
      }
      assert [s[0]] + s[1..] == s;
    }
  }

  /** When every element stands in `before` to each later one, each element of a
      prefix stands in `before` to every element left out of it. */
  lemma PrefixComesFirst<T>(s: seq<T>, n: nat, before: (T, T) -> bool)
    requires n <= |s|
    requires forall i, j :: 0 <= i < j < |s| ==> before(s[i], s[j])
    ensures forall x, y :: x in s[..n] && y in multiset(s) - multiset(s[..n]) ==> before(x, y)
  {
    assert s == s[..n] + s[n..];
    assert multiset(s) - multiset(s[..n]) == multiset(s[n..]);
    forall x, y | x in s[..n] && y in multiset(s) - multiset(s[..n]) ensures before(x, y) {
      var i :| 0 <= i < n && s[..n][i] == x;
      assert y in s[n..];
      var j :| 0 <= j < |s[n..]| && s[n..][j] == y;
      assert s[i] == x && s[n + j] == y;
    }
  }

  /** The first `n` elements of a reordering of `pool` that is ordered by `before`:
      some of the occurrences of `pool`, in order, each standing in `before` to every
      element left out, and repeating nothing when `pool` repeats nothing. */
  lemma CutFacts<T>(all: seq<T>, pool: seq<T>, n: nat, before: (T, T) -> bool)
    requires n <= |all| && multiset(all) == multiset(pool)
    requires forall i, j :: 0 <= i < j < |all| ==> before(all[i], all[j])
    ensures multiset(all[..n]) <= multiset(pool)
    ensures forall x :: x in all[..n] ==> x in pool
    ensures forall i, j :: 0 <= i < j < n ==> before(all[..n][i], all[..n][j])
    ensures forall x, y :: x in all[..n] && y in multiset(pool) - multiset(all[..n]) ==> before(x, y)
    ensures Distinct(pool) ==> Distinct(all[..n])
  {
    var cut := all[..n];
    assert all == cut + all[n..];
    PrefixComesFirst(all, n, before);
    forall x | x in cut ensures x in pool {
      assert x in multiset(all);
    }
    forall i, j | 0 <= i < j < n ensures before(cut[i], cut[j]) {
      assert cut[i] == all[i] && cut[j] == all[j];
    }
    if Distinct(pool) {
      SubMultisetKeepsDistinct(cut, pool);
    }
  }

  /** The first `n` of a pool by descending key, `s[:n]` after a stable sort: some of
      the pool's occurrences, best key first, none below an element left out, and
      repeating nothing when the pool repeats nothing. */
  lemma TopFacts<T>(pool: seq<T>, n: int, key: T -> real) returns (top: seq<T>)
    ensures top == PySlice(SortDesc(pool, key), n)
    ensures n >= 0 ==> |top| == Min(n, |pool|)
    ensures multiset(top) <= multiset(pool)
    ensures forall x :: x in top ==> x in pool
    ensures NonIncreasing(top, key)
    ensures forall x, y :: x in top && y in multiset(pool) - multiset(top) ==> key(x) >= key(y)
    ensures Distinct(pool) ==> Distinct(top)
  {
    var sorted := SortDesc(pool, key);
    SortFacts(pool, key);
    top := PySlice(sorted, n);
    assert top == sorted[..|top|];
    var before := (a, b) => key(a) >= key(b);
    assert forall i, j :: 0 <= i < j < |sorted| ==> before(sorted[i], sorted[j]);
    CutFacts(sorted, pool, |top|, before);
    forall x, y | x in top && y in multiset(pool) - multiset(top) ensures key(x) >= key(y) {
      assert before(x, y);
    }
    forall i, j | 0 <= i < j < |top| ensures key(top[i]) >= key(top[j]) {
      assert before(top[i], top[j]);
    }
  }
}
