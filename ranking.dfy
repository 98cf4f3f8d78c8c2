/** Ranking: `sort_documents_by_score`, Python's `[:k]` slice, and
    `collections.Counter` with `most_common(n)`. Scores are integers here. */
module Ranking {
  import opened Common
  import opened Documents
  import opened Sorting
  import opened Dedup

  // ---------------------------------------------------------------------
  // Slices
  // ---------------------------------------------------------------------

  /** How many elements `s[:k]` keeps of a sequence of length n: a negative
      k counts from the end. */
  function SliceLength(n: nat, k: int): (m: nat)
    ensures m <= n
    ensures k >= 0 ==> m == if k < n then k else n
    ensures k < 0 ==> m == if n + k > 0 then n + k else 0
  {
    if k >= 0 then (if k < n then k else n)
    else if n + k > 0 then n + k else 0
  }

  /** `s[:k]`. */
  function Take<T>(s: seq<T>, k: int): seq<T> {
    s[..SliceLength(|s|, k)]
  }

  // ---------------------------------------------------------------------
  // Sorting by score
  // ---------------------------------------------------------------------

  /** `d.metadata.get("score", 0)` as a number: a missing score is 0 and a
      boolean counts as 0 or 1; any other value cannot be compared. */
  function ScoreValue(d: Document): Option<int> {
    var v := GetOr(d.metadata, "score", VNum(0));
    if v.VNum? then Some(v.n)
    else if v.VBool? then Some(if v.b then 1 else 0)
    else None
  }

  /** Every score can be compared with every other. */
  predicate Comparable(docs: seq<Document>) {
    forall i :: 0 <= i < |docs| ==> ScoreValue(docs[i]).Some?
  }

  function Score(d: Document): int {
    var v := ScoreValue(d);
    if v.Some? then v.value else 0
  }

  /** `reverse=True` on the score: a may precede b when its score is not
      smaller. */
  predicate ByScoreDesc(a: Document, b: Document) {
    Score(a) >= Score(b)
  }

  lemma ByScoreDescPreorder()
    ensures TotalPreorder(ByScoreDesc)
  {
  }

  /** `sort_documents_by_score(docs, top_k)`: sort by descending score
      (stably), keep the first `top_k`, then drop duplicate uuids. */
  function SortByScore(docs: seq<Document>, topK: int): seq<Document>
    requires Comparable(docs)
  {
    RemoveDuplicates(Take(Sort(docs, ByScoreDesc), topK), "uuid")
  }

  /** Every element of a subsequence occurs in the sequence. */
  lemma {:induction false} SubseqIn<T>(a: seq<T>, b: seq<T>)
    requires Subseq(a, b)
    ensures forall x :: x in a ==> x in b
    decreases |b|
  {
    if a != [] {
      if a[|a| - 1] == b[|b| - 1] && Subseq(a[..|a| - 1], b[..|b| - 1]) {
        SubseqIn(a[..|a| - 1], b[..|b| - 1]);
        assert a == a[..|a| - 1] + [a[|a| - 1]];
        assert b == b[..|b| - 1] + [b[|b| - 1]];
      } else {
        SubseqIn(a, b[..|b| - 1]);
        assert b == b[..|b| - 1] + [b[|b| - 1]];
      }
    }
  }

  /** A subsequence of a sorted sequence is sorted. */
  lemma {:induction false} SubseqSorted<T>(a: seq<T>, b: seq<T>, le: (T, T) -> bool)
    requires Subseq(a, b) && Sorted(b, le)
    ensures Sorted(a, le)
    decreases |b|
  {
    if a != [] {
      var b' := b[..|b| - 1];
      assert Sorted(b', le);
      if a[|a| - 1] == b[|b| - 1] && Subseq(a[..|a| - 1], b') {
        var a' := a[..|a| - 1];
        SubseqSorted(a', b', le);
        SubseqIn(a', b');
        forall i | 0 <= i < |a'|
          ensures le(a[i], a[|a| - 1])
        {
          assert a[i] == a'[i] && a'[i] in b';
          var j :| 0 <= j < |b'| && b'[j] == a'[i];
          assert b[j] == b'[j];
        }
      } else {
        SubseqSorted(a, b', le);
      }
    }
  }

  /** The result is ordered by descending score, holds at most `top_k`
      documents (and no more than the input), takes every document from
      the input, and holds no two documents with the same truthy uuid. */
  lemma SortByScoreSpec(docs: seq<Document>, topK: int)
    requires Comparable(docs)
    ensures Sorted(SortByScore(docs, topK), ByScoreDesc)
    ensures |SortByScore(docs, topK)| <= |docs|
    ensures topK >= 0 ==> |SortByScore(docs, topK)| <= topK
    ensures forall d :: d in SortByScore(docs, topK) ==> d in docs
    ensures var r := SortByScore(docs, topK);
            forall i, j :: 0 <= i < j < |r| && Truthy(UuidKey(r[i])) ==> UuidKey(r[i]) != UuidKey(r[j])
  {
    var sorted := Sort(docs, ByScoreDesc);
    var kept := Take(sorted, topK);
    var r := SortByScore(docs, topK);
    ByScoreDescPreorder();
    SortSorted(docs, ByScoreDesc);
    assert Sorted(kept, ByScoreDesc);
    RemoveDuplicatesSubseq(kept, "uuid");
    SubseqSorted(r, kept, ByScoreDesc);
    SubseqIn(r, kept);
    forall d | d in r
      ensures d in docs
    {
      assert d in sorted;
      assert d in multiset(sorted);
    }
    UuidStrategy(kept, VNone);
  }

  /** Ties keep their input order: before truncation the documents of equal
      score appear exactly as in the input. */
  lemma SortByScoreStable(docs: seq<Document>, e: Document)
    ensures Equivalents(Sort(docs, ByScoreDesc), e, ByScoreDesc) == Equivalents(docs, e, ByScoreDesc)
  {
    ByScoreDescPreorder();
    SortStable(docs, e, ByScoreDesc);
  }

  // ---------------------------------------------------------------------
  // Counters
  // ---------------------------------------------------------------------

  /** How often x occurs in s. */
  function Count<T(==)>(s: seq<T>, x: T): nat {
    if s == [] then 0
    else Count(s[..|s| - 1], x) + (if s[|s| - 1] == x then 1 else 0)
  }

  /** The count a counter holds for k (0 when absent). */
  function CountOf<K(==)>(c: Dict<K, nat>, k: K): nat {
    if Lookup(c, k).Some? then Lookup(c, k).value else 0
  }

  /** `c[k] += 1`. */
  function Count1<K(==)>(c: Dict<K, nat>, k: K): Dict<K, nat> {
    Put<K, nat>(c, k, CountOf(c, k) + 1)
  }

  /** `Counter` fed with the elements of s one by one (`c[x] += 1`): the
      keys in order of first appearance. */
  function Tally<K(==)>(s: seq<K>): Dict<K, nat> {
    if s == [] then [] else Count1(Tally(s[..|s| - 1]), s[|s| - 1])
  }

  /** Each key's count is its number of occurrences. */
  lemma {:induction false} TallyCount<K>(s: seq<K>, k: K)
    ensures CountOf(Tally(s), k) == Count(s, k)
  {
    if s != [] {
      var init := s[..|s| - 1];
      var x := s[|s| - 1];
      TallySnoc(s);
      TallyCount(init, k);
      CountOfCount1(Tally(init), x, k);
    }
  }

  /** Counting x raises x's count by one and leaves the others. */
  lemma CountOfCount1<K>(c: Dict<K, nat>, x: K, k: K)
    ensures CountOf(Count1(c, x), k) == CountOf(c, k) + (if k == x then 1 else 0)
  {
    PutLookup<K, nat>(c, x, CountOf(c, x) + 1, k);
  }

  /** One more element raises its own count. */
  lemma {:induction false} TallySnoc<K>(s: seq<K>)
    requires s != []
    ensures Tally(s) == Count1(Tally(s[..|s| - 1]), s[|s| - 1])
  {
  }

  /** The keys are exactly the elements counted, and no key appears twice. */
  lemma {:induction false} TallyKeys<K>(s: seq<K>, k: K)
    ensures k in Keys(Tally(s)) <==> k in s
    ensures Distinct(Keys(Tally(s)))
  {
    if s != [] {
      var init := s[..|s| - 1];
      var x := s[|s| - 1];
      var c := Tally(init);
      TallyKeys(init, k);
      TallySnoc(s);
      PutDistinct<K, nat>(c, x, CountOf(c, x) + 1);
      assert Keys(Tally(s)) == if x in Keys(c) then Keys(c) else Keys(c) + [x];
      assert k in Keys(Tally(s)) <==> k in Keys(c) || k == x;
      assert s == init + [x];
      assert k in s <==> k in init || k == x;
    }
  }

  /** The counts of a dictionary added up. */
  function Total<K>(c: Dict<K, nat>): nat {
    if c == [] then 0 else c[0].1 + Total(c[1..])
  }

  /** Setting one key's count changes the total by the difference. */
  lemma {:induction false} PutTotal<K>(c: Dict<K, nat>, k: K, v: nat)
    ensures Total(Put<K, nat>(c, k, v)) + CountOf(c, k) == Total(c) + v
  {
    if c != [] {
      var t := Put<K, nat>(c, k, v);
      if c[0].0 == k {
        assert t == [(k, v)] + c[1..];
        assert t[1..] == c[1..];
      } else {
        PutTotal(c[1..], k, v);
        assert CountOf(c, k) == CountOf(c[1..], k);
        assert t == [c[0]] + Put<K, nat>(c[1..], k, v);
        assert t[1..] == Put<K, nat>(c[1..], k, v);
      }
    }
  }

  /** The counts add up to the number of elements counted. */
  lemma {:induction false} TallyTotal<K>(s: seq<K>)
    ensures Total(Tally(s)) == |s|
  {
    if s != [] {
      TallyTotal(s[..|s| - 1]);
      PutTotal(Tally(s[..|s| - 1]), s[|s| - 1], CountOf(Tally(s[..|s| - 1]), s[|s| - 1]) + 1);
    }
  }

  // ---------------------------------------------------------------------
  // most_common
  // ---------------------------------------------------------------------

  /** Higher counts first. */
  predicate ByCountDesc<K>(a: (K, nat), b: (K, nat)) {
    a.1 >= b.1
  }

  lemma ByCountDescPreorder<K(!new)>()
    ensures TotalPreorder(ByCountDesc<K>)
  {
  }

  /** `most_common(n)`: the n entries with the highest counts, ties in
      insertion order (`heapq.nlargest` is documented as the stable sorted
      prefix); n <= 0 gives none. */
  function MostCommon<K>(c: Dict<K, nat>, n: int): (r: Dict<K, nat>)
    ensures |r| == if n <= 0 then 0 else if n < |c| then n else |c|
  {
    Sort(c, ByCountDesc)[..SliceLength(|c|, if n < 0 then 0 else n)]
  }

  /** Every entry kept is an entry of the counter, and none of the entries
      left out has a higher count than a kept one. */
  lemma MostCommonTop<K(!new)>(c: Dict<K, nat>, n: int, e: (K, nat))
    requires e in c && e.0 !in Keys(MostCommon(c, n))
    ensures forall i :: 0 <= i < |MostCommon(c, n)| ==> MostCommon(c, n)[i] in c && MostCommon(c, n)[i].1 >= e.1
  {
    var sorted := Sort(c, ByCountDesc);
    var top := MostCommon(c, n);
    ByCountDescPreorder<K>();
    SortSorted(c, ByCountDesc);
    assert e in multiset(sorted);
    var j :| 0 <= j < |sorted| && sorted[j] == e;
    assert forall idx :: 0 <= idx < |top| ==> Keys(top)[idx] == top[idx].0 && top[idx] == sorted[idx];
    assert j >= |top|;
    forall i | 0 <= i < |top|
      ensures top[i] in c && top[i].1 >= e.1
    {
      assert top[i] == sorted[i];
      assert sorted[i] in multiset(c);
    }
  }

  /** Prepending a new element keeps a sequence distinct. */
  lemma DistinctCons<T>(a: T, s: seq<T>)
    requires Distinct(s) && a !in s
    ensures Distinct([a] + s)
  {
    var r := [a] + s;
    forall i, j | 0 <= i < j < |r|
      ensures r[i] != r[j]
    {
      if i == 0 {
        assert r[j] == s[j - 1];
      } else {
        assert r[i] == s[i - 1] && r[j] == s[j - 1];
      }
    }
  }

  /** The keys after inserting `x` are `x.0` and the keys before. */
  lemma {:induction false} InsertKeys<K, V>(x: (K, V), s: Dict<K, V>, le: ((K, V), (K, V)) -> bool, k: K)
    requires k in Keys(Insert(x, s, le))
    ensures k == x.0 || k in Keys(s)
  {
    if s != [] && !le(x, s[0]) {
      var it := Insert(x, s[1..], le);
      assert Keys([s[0]] + it) == [s[0].0] + Keys(it);
      assert Keys(s) == [s[0].0] + Keys(s[1..]);
      if k != s[0].0 {
        InsertKeys(x, s[1..], le, k);
      }
    } else if s != [] {
      assert Keys([x] + s) == [x.0] + Keys(s);
    }
  }

  /** Inserting an entry with a new key keeps the keys distinct. */
  lemma {:induction false} InsertKeysDistinct<K, V>(x: (K, V), s: Dict<K, V>, le: ((K, V), (K, V)) -> bool)
    requires Distinct(Keys(s)) && x.0 !in Keys(s)
    ensures Distinct(Keys(Insert(x, s, le)))
  {
    if s == [] {
    } else if le(x, s[0]) {
      assert Keys([x] + s) == [x.0] + Keys(s);
      DistinctCons(x.0, Keys(s));
    } else {
      var t := s[1..];
      assert Keys(s) == [s[0].0] + Keys(t);
      assert Distinct(Keys(t)) by {
        forall i, j | 0 <= i < j < |Keys(t)|
          ensures Keys(t)[i] != Keys(t)[j]
        {
          assert Keys(s)[i + 1] != Keys(s)[j + 1];
        }
      }
      assert s[0].0 !in Keys(t);
      InsertKeysDistinct(x, t, le);
      var it := Insert(x, t, le);
      if s[0].0 in Keys(it) {
        InsertKeys(x, t, le, s[0].0);
      }
      assert Keys([s[0]] + it) == [s[0].0] + Keys(it);
      DistinctCons(s[0].0, Keys(it));
    }
  }

  /** Sorting keeps the keys distinct. */
  lemma {:induction false} SortKeysDistinct<K, V>(s: Dict<K, V>, le: ((K, V), (K, V)) -> bool)
    requires Distinct(Keys(s))
    ensures Distinct(Keys(Sort(s, le)))
  {
    if s != [] {
      var t := s[1..];
      assert Keys(t) == Keys(s)[1..];
      SortKeysDistinct(t, le);
      var st := Sort(t, le);
      forall i | 0 <= i < |st|
        ensures st[i].0 != s[0].0
      {
        assert st[i] in multiset(t);
        var j :| 0 <= j < |t| && t[j] == st[i];
        assert Keys(s)[j + 1] == st[i].0;
      }
      assert s[0].0 !in Keys(st);
      InsertKeysDistinct(s[0], st, le);
    }
  }

  /** A counter with distinct keys names each of its most common keys
      once. */
  lemma MostCommonDistinct<K(!new)>(c: Dict<K, nat>, n: int)
    requires Distinct(Keys(c))
    ensures Distinct(Keys(MostCommon(c, n)))
  {
    SortKeysDistinct(c, ByCountDesc);
    var s := Sort(c, ByCountDesc);
    var m := MostCommon(c, n);
    forall i, j | 0 <= i < j < |m|
      ensures Keys(m)[i] != Keys(m)[j]
    {
      assert m[i] == s[i] && m[j] == s[j];
      assert Keys(s)[i] != Keys(s)[j];
    }
  }
}
