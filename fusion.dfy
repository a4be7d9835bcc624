// Reciprocal Rank Fusion (Cormack, Clarke and Buettcher, SIGIR 2009) as
// `PGVectorStore._fuse_results_rrf` computes it: every entry with an `"id"`
// adds 1/(k + rank) to that id's score, the last entry seen for an id is the
// document kept for it, and the ids are sorted by score, highest first,
// ties in first-appearance order, then cut to `top_k`. Scores are exact reals.

module Fusion {
  import opened Values
  import opened Sorting

  type Rank = r: int | r >= 1 witness 1

  /** One entry of one ranked list with its 1-based rank (`enumerate(lst, start=1)`). */
  datatype Hit = Hit(doc: Document, rank: Rank)

  function Ranked(lst: seq<Document>): seq<Hit>
  {
    if lst == [] then [] else Ranked(lst[..|lst| - 1]) + [Hit(lst[|lst| - 1], |lst|)]
  }

  /** Every entry of every list, list after list: the order the nested loop visits them. */
  function Hits(lists: seq<seq<Document>>): seq<Hit>
  {
    if lists == [] then [] else Hits(lists[..|lists| - 1]) + Ranked(lists[|lists| - 1])
  }

  function Contribution(k: nat, rank: Rank): (c: real)
    ensures c > 0.0
  {
    1.0 / ((k + rank) as real)
  }

  // ---------------------------------------------------------------------
  // Reference definitions, stated on the lists themselves

  /** Sum of 1/(k + r) over the ranks r at which `id` stands in `lst`. */
  function ListScore(lst: seq<Document>, k: nat, id: Value): real
  {
    if lst == [] then 0.0
    else ListScore(lst[..|lst| - 1], k, id)
         + (if id != Null && IdOf(lst[|lst| - 1]) == id then Contribution(k, |lst|) else 0.0)
  }

  /** The fused score of `id`: its list scores summed over all lists. */
  function RrfScore(lists: seq<seq<Document>>, k: nat, id: Value): real
  {
    if lists == [] then 0.0
    else RrfScore(lists[..|lists| - 1], k, id) + ListScore(lists[|lists| - 1], k, id)
  }

  function RrfKey(lists: seq<seq<Document>>, k: nat): Value -> real
  {
    id => RrfScore(lists, k, id)
  }

  /** The ids of the hits that have one, in visiting order. */
  function IdSeq(hits: seq<Hit>): seq<Value>
  {
    if hits == [] then []
    else IdSeq(hits[..|hits| - 1])
         + (if IdOf(hits[|hits| - 1].doc) != Null then [IdOf(hits[|hits| - 1].doc)] else [])
  }

  /** Every id that has one, in order of first appearance across the lists. */
  function FirstSeen(lists: seq<seq<Document>>): seq<Value>
  {
    Dedup(IdSeq(Hits(lists)))
  }

  /** The last hit carrying `id`, if any. */
  function LastDoc(hits: seq<Hit>, id: Value): Option<Document>
  {
    if hits == [] then None
    else if id != Null && IdOf(hits[|hits| - 1].doc) == id then Some(hits[|hits| - 1].doc)
    else LastDoc(hits[..|hits| - 1], id)
  }

  // ---------------------------------------------------------------------
  // The loop state and the fused ranking

  /** The loop's `scores` and `doc_map`, and the insertion order of `scores`. */
  datatype Tally = Tally(scores: map<Value, real>, docs: map<Value, Document>, order: seq<Value>)

  function ScoreIn(t: Tally, id: Value): real
  {
    if id in t.scores then t.scores[id] else 0.0
  }

  function ScoreOf(t: Tally): Value -> real
  {
    id => ScoreIn(t, id)
  }

  /** One loop iteration: skip an entry without id, otherwise store it and add its contribution. */
  function Record(t: Tally, h: Hit, k: nat): Tally
  {
    var id := IdOf(h.doc);
    if id == Null then t
    else Tally(t.scores[id := ScoreIn(t, id) + Contribution(k, h.rank)],
               t.docs[id := h.doc],
               if id in t.scores then t.order else t.order + [id])
  }

  function Accumulate(hits: seq<Hit>, k: nat): Tally
  {
    if hits == [] then Tally(map[], map[], [])
    else Record(Accumulate(hits[..|hits| - 1], k), hits[|hits| - 1], k)
  }

  function Tallied(lists: seq<seq<Document>>, k: nat): Tally
  {
    Accumulate(Hits(lists), k)
  }

  /** All ids, best first. Sorting `scores.items()` by score and keeping the ids
      is sorting the ids, in insertion order, by their score. */
  function Ranking(lists: seq<seq<Document>>, k: nat): seq<Value>
  {
    var t := Tallied(lists, k);
    SortDesc(t.order, ScoreOf(t))
  }

  /** `[doc_map[i] for i in ids if i in doc_map]` */
  function Collect(docs: map<Value, Document>, ids: seq<Value>): seq<Document>
  {
    if ids == [] then []
    else (if ids[0] in docs then [docs[ids[0]]] else []) + Collect(docs, ids[1..])
  }

  /** The fused list for `top_k`: its ids are the ranking cut to `top_k`, and the
      document given for each id is the one `doc_map` holds for it. */
  function Fuse(lists: seq<seq<Document>>, k: nat, topK: int): (r: seq<Document>)
    ensures FusedIds(r) == PySlice(Ranking(lists, k), topK)
    ensures forall i :: 0 <= i < |r| ==> IdOf(r[i]) in Tallied(lists, k).docs && r[i] == Tallied(lists, k).docs[IdOf(r[i])]
  {
    var t := Tallied(lists, k);
    TalliedFacts(lists, k);
    RankingFacts(lists, k);
    var cut := PySlice(Ranking(lists, k), topK);
    assert forall x :: x in cut ==> x in t.docs && IdOf(t.docs[x]) == x by {
      forall x | x in cut ensures x in t.docs && IdOf(t.docs[x]) == x {
        assert x in Ranking(lists, k);
      }
    }
    CollectIds(t.docs, cut);
    Collect(t.docs, cut)
  }

  function FusedIds(r: seq<Document>): (ids: seq<Value>)
    ensures |ids| == |r| && forall i :: 0 <= i < |r| ==> ids[i] == IdOf(r[i])
  {
    seq(|r|, i requires 0 <= i < |r| => IdOf(r[i]))
  }

  /** `PGVectorStore._fuse_results_rrf(*lists, k=k, top_k=top_k)` */
  method FuseResultsRrf(lists: seq<seq<Document>>, k: nat, topK: int) returns (fused: seq<Document>)
    ensures fused == Fuse(lists, k, topK)
  {
    var docMap: map<Value, Document> := map[];
    var scores: map<Value, real> := map[];
    var order: seq<Value> := [];
    var i := 0;
    while i < |lists|
      invariant 0 <= i <= |lists|
      invariant Tally(scores, docMap, order) == Accumulate(Hits(lists[..i]), k)
    {
      var lst := lists[i];
      ghost var before := Hits(lists[..i]);
      var rank := 1;
      assert lst[..0] == [] && before + [] == before;
      while rank <= |lst|
        invariant 1 <= rank <= |lst| + 1
        invariant Tally(scores, docMap, order) == Accumulate(before + Ranked(lst[..rank - 1]), k)
      {
        var doc := lst[rank - 1];
        ghost var t := Tally(scores, docMap, order);
        var docId := Get(doc.metadata, "id");
        if docId.Some? {
          var id := docId.value;
          docMap := docMap[id := doc];
          if id !in scores {
            order := order + [id];
          }
          var current := if id in scores then scores[id] else 0.0;
          scores := scores[id := current + Contribution(k, rank)];
        }
        assert Tally(scores, docMap, order) == Record(t, Hit(doc, rank), k);
        assert lst[..rank][..rank - 1] == lst[..rank - 1];
        assert before + Ranked(lst[..rank]) == (before + Ranked(lst[..rank - 1])) + [Hit(doc, rank)];
        rank := rank + 1;
      }
      assert lst[..|lst|] == lst;
      assert lists[..i + 1][..i] == lists[..i];
      i := i + 1;
    }
    assert lists[..|lists|] == lists;
    var t := Tally(scores, docMap, order);
    var ranking := SortDesc(order, ScoreOf(t));
    fused := Collect(docMap, PySlice(ranking, topK));
  }

  // ---------------------------------------------------------------------
  // Facts about the loop state

  ghost predicate WellFormed(t: Tally)
  {
    && Distinct(t.order)
    && (forall id :: id in t.scores <==> id in t.order)
    && (forall id :: id in t.docs <==> id in t.order)
    && (forall id :: id in t.docs ==> IdOf(t.docs[id]) == id)
    && Null !in t.order
  }

  function HitsScore(hits: seq<Hit>, k: nat, id: Value): real
  {
    if hits == [] then 0.0
    else HitsScore(hits[..|hits| - 1], k, id)
         + (if id != Null && IdOf(hits[|hits| - 1].doc) == id then Contribution(k, hits[|hits| - 1].rank) else 0.0)
  }

  lemma {:induction false} AccumulateWellFormed(hits: seq<Hit>, k: nat)
    ensures WellFormed(Accumulate(hits, k))
  {
    if hits != [] {
      var prefix := hits[..|hits| - 1];
      AccumulateWellFormed(prefix, k);
      var t := Accumulate(prefix, k);
      var id := IdOf(hits[|hits| - 1].doc);
      if id != Null && id !in t.scores {
        assert id !in t.order;
      }
    }
  }

  lemma {:induction false} AccumulateOrder(hits: seq<Hit>, k: nat)
    ensures Accumulate(hits, k).order == Dedup(IdSeq(hits))
  {
    if hits != [] {
      var prefix := hits[..|hits| - 1];
      AccumulateOrder(prefix, k);
      AccumulateWellFormed(prefix, k);
      var t := Accumulate(prefix, k);
      var id := IdOf(hits[|hits| - 1].doc);
      assert IdSeq(hits) == IdSeq(prefix) + (if id != Null then [id] else []);
      if id != Null {
        assert (IdSeq(prefix) + [id])[..|IdSeq(prefix)|] == IdSeq(prefix);
        assert id in Dedup(IdSeq(prefix)) <==> id in t.scores;
      } else {
        assert IdSeq(prefix) + [] == IdSeq(prefix);
      }
    }
  }

  lemma {:induction false} AccumulateScore(hits: seq<Hit>, k: nat, id: Value)
    ensures ScoreIn(Accumulate(hits, k), id) == HitsScore(hits, k, id)
  {
    if hits != [] {
      AccumulateScore(hits[..|hits| - 1], k, id);
    }
  }

  lemma {:induction false} AccumulateLastDoc(hits: seq<Hit>, k: nat, id: Value)
    ensures id in Accumulate(hits, k).docs ==> LastDoc(hits, id) == Some(Accumulate(hits, k).docs[id])
  {
    if hits != [] {
      AccumulateLastDoc(hits[..|hits| - 1], k, id);
    }
  }

  lemma {:induction false} HitsScoreAppend(a: seq<Hit>, b: seq<Hit>, k: nat, id: Value)
    ensures HitsScore(a + b, k, id) == HitsScore(a, k, id) + HitsScore(b, k, id)
  {
    if b != [] {
      HitsScoreAppend(a, b[..|b| - 1], k, id);
      assert (a + b)[..|a + b| - 1] == a + b[..|b| - 1];
    } else {
      assert a + b == a;
    }
  }

  lemma {:induction false} RankedScore(lst: seq<Document>, k: nat, id: Value)
    ensures HitsScore(Ranked(lst), k, id) == ListScore(lst, k, id)
  {
    if lst != [] {
      RankedScore(lst[..|lst| - 1], k, id);
      var r := Ranked(lst[..|lst| - 1]);
      assert (r + [Hit(lst[|lst| - 1], |lst|)])[..|r|] == r;
    }
  }

  lemma {:induction false} HitsScoreIsRrf(lists: seq<seq<Document>>, k: nat, id: Value)
    ensures HitsScore(Hits(lists), k, id) == RrfScore(lists, k, id)
  {
    if lists != [] {
      HitsScoreIsRrf(lists[..|lists| - 1], k, id);
      HitsScoreAppend(Hits(lists[..|lists| - 1]), Ranked(lists[|lists| - 1]), k, id);
      RankedScore(lists[|lists| - 1], k, id);
    }
  }

  /** The loop computes, for every id, its fused score and its last document. */
  lemma TalliedFacts(lists: seq<seq<Document>>, k: nat)
    ensures WellFormed(Tallied(lists, k))
    ensures Tallied(lists, k).order == FirstSeen(lists)
    ensures forall id :: ScoreIn(Tallied(lists, k), id) == RrfScore(lists, k, id)
    ensures forall id :: id in Tallied(lists, k).docs ==> LastDoc(Hits(lists), id) == Some(Tallied(lists, k).docs[id])
  {
    AccumulateWellFormed(Hits(lists), k);
    AccumulateOrder(Hits(lists), k);
    forall id ensures ScoreIn(Tallied(lists, k), id) == RrfScore(lists, k, id) {
      AccumulateScore(Hits(lists), k, id);
      HitsScoreIsRrf(lists, k, id);
    }
    forall id | id in Tallied(lists, k).docs
      ensures LastDoc(Hits(lists), id) == Some(Tallied(lists, k).docs[id])
    {
      AccumulateLastDoc(Hits(lists), k, id);
    }
  }

  // ---------------------------------------------------------------------
  // Sequence helpers

  lemma {:induction false} CollectAll(docs: map<Value, Document>, ids: seq<Value>)
    requires forall x :: x in ids ==> x in docs
    ensures |Collect(docs, ids)| == |ids|
    ensures forall i :: 0 <= i < |ids| ==> Collect(docs, ids)[i] == docs[ids[i]]
  {
    if ids != [] {
      CollectAll(docs, ids[1..]);
    }
  }

  /** Collecting documents stored under their own ids gives back those ids, each with its document. */
  lemma CollectIds(docs: map<Value, Document>, ids: seq<Value>)
    requires forall x :: x in ids ==> x in docs && IdOf(docs[x]) == x
    ensures FusedIds(Collect(docs, ids)) == ids
    ensures forall i :: 0 <= i < |Collect(docs, ids)| ==>
              IdOf(Collect(docs, ids)[i]) in docs && Collect(docs, ids)[i] == docs[IdOf(Collect(docs, ids)[i])]
  {
    var r := Collect(docs, ids);
    CollectAll(docs, ids);
    forall i | 0 <= i < |r| ensures IdOf(r[i]) == ids[i] {
      assert r[i] == docs[ids[i]];
    }
  }

  lemma {:induction false} WithKeyOfPrefix(a: seq<Value>, b: seq<Value>, key: Value -> real, v: real)
    requires a <= b
    ensures WithKey(a, key, v) <= WithKey(b, key, v)
  {
    if a != [] {
      assert a[1..] <= b[1..];
      WithKeyOfPrefix(a[1..], b[1..], key, v);
    }
  }

  lemma {:induction false} WithKeySameKeys(s: seq<Value>, key1: Value -> real, key2: Value -> real, v: real)
    requires forall x :: x in s ==> key1(x) == key2(x)
    ensures WithKey(s, key1, v) == WithKey(s, key2, v)
  {
    if s != [] {
      WithKeySameKeys(s[1..], key1, key2, v);
    }
  }

  // ---------------------------------------------------------------------
  // What the fused list is

  /** The ranking orders every id once, by fused score, ties in first-seen order. */
  lemma RankingFacts(lists: seq<seq<Document>>, k: nat)
    ensures multiset(Ranking(lists, k)) == multiset(FirstSeen(lists))
    ensures Distinct(Ranking(lists, k)) && |Ranking(lists, k)| == |FirstSeen(lists)|
    ensures NonIncreasing(Ranking(lists, k), RrfKey(lists, k))
    ensures forall v :: WithKey(Ranking(lists, k), RrfKey(lists, k), v) == WithKey(FirstSeen(lists), RrfKey(lists, k), v)
    ensures forall x :: x in Ranking(lists, k) <==> x in FirstSeen(lists)
  {
    var t := Tallied(lists, k);
    TalliedFacts(lists, k);
    var key, rrf := ScoreOf(t), RrfKey(lists, k);
    assert forall x :: key(x) == rrf(x) by {
      forall x ensures key(x) == rrf(x) {
        assert key(x) == ScoreIn(t, x) && rrf(x) == RrfScore(lists, k, x);
      }
    }
    var ranking := SortDesc(t.order, key);
    assert ranking == Ranking(lists, k);
    SortFacts(t.order, key);
    assert Distinct(t.order);
    SubMultisetKeepsDistinct(ranking, t.order);
    forall x ensures x in ranking <==> x in FirstSeen(lists) {
      assert x in ranking <==> x in multiset(ranking);
      assert x in t.order <==> x in multiset(t.order);
    }
    forall i, j | 0 <= i < j < |ranking| ensures rrf(ranking[i]) >= rrf(ranking[j]) {
      assert key(ranking[i]) >= key(ranking[j]);
    }
    forall v ensures WithKey(ranking, rrf, v) == WithKey(FirstSeen(lists), rrf, v) {
      WithKeySameKeys(ranking, key, rrf, v);
      WithKeySameKeys(t.order, key, rrf, v);
    }
  }

  /** Entries without an `"id"` never reach the output, and no id is output twice. */
  lemma FuseIdsPresentAndDistinct(lists: seq<seq<Document>>, k: nat, topK: int)
    ensures forall i :: 0 <= i < |Fuse(lists, k, topK)| ==> IdOf(Fuse(lists, k, topK)[i]) != Null
    ensures Distinct(FusedIds(Fuse(lists, k, topK)))
  {
    RankingFacts(lists, k);
    TalliedFacts(lists, k);
    var r := Fuse(lists, k, topK);
    var cut := PySlice(Ranking(lists, k), topK);
    assert FusedIds(r) == cut;
    assert Distinct(cut) by {
      forall i, j | 0 <= i < j < |cut| ensures cut[i] != cut[j] {
        assert cut[i] == Ranking(lists, k)[i] && cut[j] == Ranking(lists, k)[j];
      }
    }
    forall i | 0 <= i < |r| ensures IdOf(r[i]) != Null {
      assert IdOf(r[i]) == cut[i] && cut[i] == Ranking(lists, k)[i];
      assert cut[i] in Tallied(lists, k).order;
    }
  }

  /** At most `top_k` results (Python slicing for a negative `top_k`), and at most
      one per distinct id; exactly `min(top_k, #ids)` when `top_k >= 0`. */
  lemma FuseLength(lists: seq<seq<Document>>, k: nat, topK: int)
    ensures |Fuse(lists, k, topK)| <= |FirstSeen(lists)|
    ensures topK >= 0 ==> |Fuse(lists, k, topK)| == Min(topK, |FirstSeen(lists)|)
    ensures topK < 0 ==> |Fuse(lists, k, topK)| == if |FirstSeen(lists)| + topK >= 0 then |FirstSeen(lists)| + topK else 0
  {
    RankingFacts(lists, k);
  }

  /** The output is in non-increasing fused score. */
  lemma FuseOrderedByScore(lists: seq<seq<Document>>, k: nat, topK: int)
    ensures forall i, j :: 0 <= i < j < |Fuse(lists, k, topK)| ==>
              RrfScore(lists, k, IdOf(Fuse(lists, k, topK)[i])) >= RrfScore(lists, k, IdOf(Fuse(lists, k, topK)[j]))
  {
    RankingFacts(lists, k);
    var ranking := Ranking(lists, k);
    var cut := PySlice(ranking, topK);
    forall i, j | 0 <= i < j < |cut| ensures RrfKey(lists, k)(cut[i]) >= RrfKey(lists, k)(cut[j]) {
      assert cut[i] == ranking[i] && cut[j] == ranking[j];
    }
  }

  /** Ties keep first-appearance order: among the outputs with one score, the ids
      are a prefix of the ids with that score in order of first appearance. */
  lemma FuseStable(lists: seq<seq<Document>>, k: nat, topK: int, v: real)
    ensures WithKey(FusedIds(Fuse(lists, k, topK)), RrfKey(lists, k), v) <= WithKey(FirstSeen(lists), RrfKey(lists, k), v)
  {
    RankingFacts(lists, k);
    var cut := PySlice(Ranking(lists, k), topK);
    WithKeyOfPrefix(cut, Ranking(lists, k), RrfKey(lists, k), v);
  }

  /** The cut keeps the best: an id left out scores no higher than any id kept. */
  lemma FuseKeepsBest(lists: seq<seq<Document>>, k: nat, topK: int, id: Value)
    requires id in FirstSeen(lists) && id !in FusedIds(Fuse(lists, k, topK))
    ensures forall i :: 0 <= i < |Fuse(lists, k, topK)| ==>
              RrfScore(lists, k, IdOf(Fuse(lists, k, topK)[i])) >= RrfScore(lists, k, id)
  {
    RankingFacts(lists, k);
    var ranking := Ranking(lists, k);
    var cut := PySlice(ranking, topK);
    var p :| 0 <= p < |ranking| && ranking[p] == id;
    assert forall q :: 0 <= q < |cut| ==> cut[q] == ranking[q] && cut[q] != id;
    forall i | 0 <= i < |cut| ensures RrfKey(lists, k)(cut[i]) >= RrfKey(lists, k)(id) {
      assert cut[i] == ranking[i];
    }
  }

  /** The document returned for an id is the last entry carrying that id, lists in order. */
  lemma FuseKeepsLastDocument(lists: seq<seq<Document>>, k: nat, topK: int)
    ensures forall i :: 0 <= i < |Fuse(lists, k, topK)| ==>
              LastDoc(Hits(lists), IdOf(Fuse(lists, k, topK)[i])) == Some(Fuse(lists, k, topK)[i])
  {
    TalliedFacts(lists, k);
    RankingFacts(lists, k);
    var cut := PySlice(Ranking(lists, k), topK);
    assert forall i :: 0 <= i < |cut| ==> cut[i] in Ranking(lists, k);
  }

  // ---------------------------------------------------------------------
  // Provenance, one list, two lists

  ghost predicate InSome(lists: seq<seq<Document>>, d: Document)
  {
    exists j :: 0 <= j < |lists| && d in lists[j]
  }

  lemma {:induction false} HitsComeFromLists(lists: seq<seq<Document>>, p: nat)
    requires p < |Hits(lists)|
    ensures InSome(lists, Hits(lists)[p].doc)
  {
    var n := |lists| - 1;
    var front := Hits(lists[..n]);
    if p < |front| {
      HitsComeFromLists(lists[..n], p);
      var j :| 0 <= j < |lists[..n]| && Hits(lists)[p].doc in lists[..n][j];
      assert lists[..n][j] == lists[j];
    } else {
      RankedLength(lists[n]);
      RankedAt(lists[n], p - |front|);
      assert Hits(lists)[p] == Ranked(lists[n])[p - |front|];
    }
  }

  lemma {:induction false} RankedAt(lst: seq<Document>, i: nat)
    requires i < |lst|
    ensures |Ranked(lst)| == |lst| && Ranked(lst)[i] == Hit(lst[i], i + 1)
  {
    RankedLength(lst);
    if i < |lst| - 1 {
      RankedAt(lst[..|lst| - 1], i);
    }
  }

  lemma {:induction false} RankedLength(lst: seq<Document>)
    ensures |Ranked(lst)| == |lst|
  {
    if lst != [] {
      RankedLength(lst[..|lst| - 1]);
    }
  }

  lemma {:induction false} LastDocIsAHit(hits: seq<Hit>, id: Value)
    requires LastDoc(hits, id).Some?
    ensures exists p :: 0 <= p < |hits| && hits[p].doc == LastDoc(hits, id).value
  {
    if !(id != Null && IdOf(hits[|hits| - 1].doc) == id) {
      LastDocIsAHit(hits[..|hits| - 1], id);
      var p :| 0 <= p < |hits| - 1 && hits[..|hits| - 1][p].doc == LastDoc(hits, id).value;
      assert hits[p] == hits[..|hits| - 1][p];
    }
  }

  /** Every fused document is an entry of one of the input lists. */
  lemma FuseFromInputs(lists: seq<seq<Document>>, k: nat, topK: int)
    ensures forall i :: 0 <= i < |Fuse(lists, k, topK)| ==> InSome(lists, Fuse(lists, k, topK)[i])
  {
    FuseKeepsLastDocument(lists, k, topK);
    forall i | 0 <= i < |Fuse(lists, k, topK)| ensures InSome(lists, Fuse(lists, k, topK)[i]) {
      LastDocIsAHit(Hits(lists), IdOf(Fuse(lists, k, topK)[i]));
      var p :| 0 <= p < |Hits(lists)| && Hits(lists)[p].doc == Fuse(lists, k, topK)[i];
      HitsComeFromLists(lists, p);
    }
  }

  lemma ContributionDecreasing(k: nat, r1: Rank, r2: Rank)
    requires r1 < r2
    ensures Contribution(k, r1) > Contribution(k, r2)
  {
    var a := (k + r1) as real;
    var b := (k + r2) as real;
    assert 1.0 / a - 1.0 / b == (b - a) / (a * b);
  }

  /** A list in which `id` does not stand contributes nothing to it. */
  lemma {:induction false} ListScoreAbsent(lst: seq<Document>, k: nat, id: Value)
    requires forall j :: 0 <= j < |lst| ==> IdOf(lst[j]) != id
    ensures ListScore(lst, k, id) == 0.0
  {
    if lst != [] {
      ListScoreAbsent(lst[..|lst| - 1], k, id);
    }
  }

  /** An id standing once, at 0-based position i, scores 1/(k + i + 1) from that list. */
  lemma {:induction false} ListScoreOnce(lst: seq<Document>, k: nat, i: nat)
    requires i < |lst| && IdOf(lst[i]) != Null
    requires forall j :: 0 <= j < |lst| && j != i ==> IdOf(lst[j]) != IdOf(lst[i])
    ensures ListScore(lst, k, IdOf(lst[i])) == Contribution(k, i + 1)
  {
    var n := |lst| - 1;
    if i == n {
      ListScoreAbsent(lst[..n], k, IdOf(lst[i]));
    } else {
      ListScoreOnce(lst[..n], k, i);
    }
  }

  /** Property P2: an id at rank r1 in the first list and r2 in the second scores
      1/(k+r1) + 1/(k+r2), more than either rank alone would give it. */
  lemma TwoListScore(a: seq<Document>, b: seq<Document>, k: nat, i: nat, j: nat)
    requires i < |a| && j < |b| && IdOf(a[i]) != Null && IdOf(b[j]) == IdOf(a[i])
    requires forall m :: 0 <= m < |a| && m != i ==> IdOf(a[m]) != IdOf(a[i])
    requires forall m :: 0 <= m < |b| && m != j ==> IdOf(b[m]) != IdOf(a[i])
    ensures RrfScore([a, b], k, IdOf(a[i])) == Contribution(k, i + 1) + Contribution(k, j + 1)
    ensures RrfScore([a, b], k, IdOf(a[i])) > Contribution(k, i + 1)
    ensures RrfScore([a, b], k, IdOf(a[i])) > Contribution(k, j + 1)
  {
    var id := IdOf(a[i]);
    ListScoreOnce(a, k, i);
    ListScoreOnce(b, k, j);
    assert [a, b][..1] == [a];
    assert [a][..0] == [];
    assert RrfScore([a], k, id) == ListScore(a, k, id);
    assert RrfScore([a, b], k, id) == RrfScore([a], k, id) + ListScore(b, k, id);
  }

  lemma {:induction false} IdSeqOfRanked(lst: seq<Document>)
    requires forall j :: 0 <= j < |lst| ==> IdOf(lst[j]) != Null
    ensures IdSeq(Ranked(lst)) == FusedIds(lst)
  {
    if lst != [] {
      var n := |lst| - 1;
      IdSeqOfRanked(lst[..n]);
      var r := Ranked(lst[..n]);
      assert (r + [Hit(lst[n], n + 1)])[..|r|] == r;
      assert FusedIds(lst) == FusedIds(lst[..n]) + [IdOf(lst[n])];
    }
  }

  lemma SingleListHits(lst: seq<Document>)
    ensures Hits([lst]) == Ranked(lst)
  {
    assert [lst][..0] == [];
  }

  lemma SingleListOrder(lst: seq<Document>, k: nat)
    requires forall j :: 0 <= j < |lst| ==> IdOf(lst[j]) != Null
    requires Distinct(FusedIds(lst))
    ensures Tallied([lst], k).order == FusedIds(lst)
  {
    SingleListHits(lst);
    IdSeqOfRanked(lst);
    DedupOfDistinct(FusedIds(lst));
    AccumulateOrder(Hits([lst]), k);
  }

  lemma SingleListScore(lst: seq<Document>, k: nat, i: nat)
    requires i < |lst| && IdOf(lst[i]) != Null
    requires Distinct(FusedIds(lst))
    ensures ScoreIn(Tallied([lst], k), IdOf(lst[i])) == Contribution(k, i + 1)
  {
    var ids := FusedIds(lst);
    forall j | 0 <= j < |lst| && j != i ensures IdOf(lst[j]) != IdOf(lst[i]) {
      if j < i { assert ids[j] != ids[i]; } else { assert ids[i] != ids[j]; }
    }
    ListScoreOnce(lst, k, i);
    assert [lst][..0] == [];
    assert RrfScore([lst], k, IdOf(lst[i])) == ListScore(lst, k, IdOf(lst[i]));
    SingleListHits(lst);
    AccumulateScore(Hits([lst]), k, IdOf(lst[i]));
    HitsScoreIsRrf([lst], k, IdOf(lst[i]));
  }

  /** With one list of present, distinct ids the ranking is the list's own id order. */
  lemma SingleListRanking(lst: seq<Document>, k: nat)
    requires forall j :: 0 <= j < |lst| ==> IdOf(lst[j]) != Null
    requires Distinct(FusedIds(lst))
    ensures Ranking([lst], k) == FusedIds(lst)
  {
    var ids := FusedIds(lst);
    var t := Tallied([lst], k);
    SingleListOrder(lst, k);
    assert NonIncreasing(ids, ScoreOf(t)) by {
      forall i, j | 0 <= i < j < |ids| ensures ScoreOf(t)(ids[i]) >= ScoreOf(t)(ids[j]) {
        SingleListScore(lst, k, i);
        SingleListScore(lst, k, j);
        ContributionDecreasing(k, i + 1, j + 1);
      }
    }
    SortOfSorted(ids, ScoreOf(t));
  }

  /** Property P1: fusing a single list whose ids are present and distinct is
      truncation to `top_k`, since scores fall strictly with rank. */
  lemma SingleListFuse(lst: seq<Document>, k: nat, topK: int)
    requires forall j :: 0 <= j < |lst| ==> IdOf(lst[j]) != Null
    requires Distinct(FusedIds(lst))
    ensures Fuse([lst], k, topK) == PySlice(lst, topK)
  {
    var lists := [lst];
    assert lists[..0] == [];
    assert Hits(lists) == Ranked(lst);
    var ids := FusedIds(lst);
    SingleListRanking(lst, k);
    var r := Fuse(lists, k, topK);
    assert |r| == |PySlice(lst, topK)|;
    forall i | 0 <= i < |r| ensures r[i] == lst[i] {
      assert IdOf(r[i]) == ids[i];
      AccumulateLastDoc(Hits(lists), k, ids[i]);
      LastDocOfRanked(lst, i);
    }
  }

  lemma {:induction false} LastDocOfRanked(lst: seq<Document>, i: nat)
    requires i < |lst| && IdOf(lst[i]) != Null
    requires Distinct(FusedIds(lst))
    ensures LastDoc(Ranked(lst), IdOf(lst[i])) == Some(lst[i])
  {
    var n := |lst| - 1;
    var r := Ranked(lst[..n]);
    assert (r + [Hit(lst[n], n + 1)])[..|r|] == r;
    if i < n {
      assert FusedIds(lst)[i] != FusedIds(lst)[n];
      assert Distinct(FusedIds(lst[..n])) by {
        forall a, b | 0 <= a < b < n ensures FusedIds(lst[..n])[a] != FusedIds(lst[..n])[b] {
          assert FusedIds(lst)[a] != FusedIds(lst)[b];
        }
      }
      LastDocOfRanked(lst[..n], i);
    }
  }
}
