// Values shared by the retrieval engine: Python's None, the JSON scalars
// found in chunk metadata, LangChain's Document, and Python list slicing.

module Values {

  datatype Option<T> = None | Some(value: T)

  datatype Result<T, E> = Ok(value: T) | Err(error: E)

  /** A JSON scalar as it appears in chunk metadata; `Null` is JSON null (Python None). */
  datatype Value = Null | Str(s: string) | Int(i: int)

  type Metadata = map<string, Value>

  /** LangChain's Document: page text plus a free-form metadata mapping. */
  datatype Document = Document(pageContent: string, metadata: Metadata)

  /** `metadata.get(key)`: a missing key and a JSON null both read as None. */
  function Get(m: Metadata, key: string): (r: Option<Value>)
    ensures r.Some? <==> key in m && m[key] != Null
    ensures r.Some? ==> r.value == m[key] && r.value != Null
  {
    if key in m && m[key] != Null then Some(m[key]) else None
  }

  /** The `"id"` of a document as the fusion reads it, `Null` when it has none. */
  function IdOf(d: Document): Value
  {
    match Get(d.metadata, "id")
    case Some(v) => v
    case None => Null
  }

  function Min(a: int, b: int): int { if a <= b then a else b }

  /** Python's `s[:n]`: a negative `n` drops `-n` elements from the end. */
  function PySlice<T>(s: seq<T>, n: int): (r: seq<T>)
    ensures r <= s
    ensures n >= 0 ==> |r| == Min(n, |s|)
    ensures n < 0 ==> |r| == if |s| + n >= 0 then |s| + n else 0
  {
    if n >= 0 then (if n <= |s| then s[..n] else s)
    else if |s| + n >= 0 then s[..|s| + n]
    else []
  }

  /** No element occurs twice. */
  predicate Distinct<T(==)>(s: seq<T>)
  {
    forall i, j :: 0 <= i < j < |s| ==> s[i] != s[j]
  }

  /** First occurrences only, in order. */
  function Dedup<T(==)>(s: seq<T>): seq<T>
  {
    if s == [] then []
    else
      var d := Dedup(s[..|s| - 1]);
      if s[|s| - 1] in d then d else d + [s[|s| - 1]]
  }

  /** Dedup keeps exactly the elements of its input, each once. */
  lemma {:induction false} DedupFacts<T>(s: seq<T>)
    ensures Distinct(Dedup(s))
    ensures forall x :: x in Dedup(s) <==> x in s
    ensures |Dedup(s)| <= |s|
  {
    if s != [] {
      DedupFacts(s[..|s| - 1]);
      assert s == s[..|s| - 1] + [s[|s| - 1]];
    }
  }

  lemma {:induction false} DedupOfDistinct<T>(s: seq<T>)
    requires Distinct(s)
    ensures Dedup(s) == s
  {
    if s != [] {
      DedupOfDistinct(s[..|s| - 1]);
    }
  }

  /** A distinct sequence holds each value at most once. */
  lemma {:induction false} DistinctCount<T>(s: seq<T>, x: T)
    requires Distinct(s)
    ensures multiset(s)[x] <= 1
  {
    if s != [] {
      assert s == [s[0]] + s[1..];
      DistinctCount(s[1..], x);
      if s[0] == x {
        assert x !in s[1..];
      }
    }
  }

  /** Taking some of the elements of a distinct sequence, in any order, repeats none. */
  lemma SubMultisetKeepsDistinct<T>(a: seq<T>, b: seq<T>)
    requires multiset(a) <= multiset(b) && Distinct(b)
    ensures Distinct(a)
  {
    forall i, j | 0 <= i < j < |a| ensures a[i] != a[j] {
      if a[i] == a[j] {
        assert a == a[..j] + a[j..];
        assert a[i] in a[..j];
        assert a[j] in a[j..];
        assert multiset(a)[a[i]] >= 2;
        DistinctCount(b, a[i]);
      }
    }
  }

  /** `s[::-1]` */
  function Reversed<T>(s: seq<T>): (r: seq<T>)
    ensures |r| == |s| && forall i :: 0 <= i < |s| ==> r[i] == s[|s| - 1 - i]
  {
    if s == [] then [] else Reversed(s[1..]) + [s[0]]
  }

  lemma {:induction false} ReversedPermutes<T>(s: seq<T>)
    ensures multiset(Reversed(s)) == multiset(s)
  {
    if s != [] {
      ReversedPermutes(s[1..]);
      assert s == [s[0]] + s[1..];
    }
  }

  /** The elements satisfying `p`, in order (a list comprehension with an `if`). */
  function Filter<T(!new)>(s: seq<T>, p: T -> bool): (r: seq<T>)
    ensures |r| <= |s|
    ensures forall x :: x in r <==> x in s && p(x)
  {
    if s == [] then []
    else (if p(s[0]) then [s[0]] else []) + Filter(s[1..], p)
  }

  /** Filtering keeps some of the occurrences and adds none. */
  lemma {:induction false} FilterSubMultiset<T(!new)>(s: seq<T>, p: T -> bool)
    ensures multiset(Filter(s, p)) <= multiset(s)
  {
    if s != [] {
      FilterSubMultiset(s[1..], p);
      assert s == [s[0]] + s[1..];
    }
  }
}
