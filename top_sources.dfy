/** `get_top_sources`: keep one document per frequent uuid, provided its
    source file is frequent too. Python iterates a set of uuids in an
    unspecified order; here that order is a parameter. */
module TopSources {
  import opened Common
  import opened Documents
  import opened Dedup
  import opened Ranking

  /** `doc.metadata.get('source')` and `doc.metadata.get('weaviate_uuid')`. */
  function SourceOf(d: Document): Value {
    Get(d.metadata, "source")
  }

  function UuidOf(d: Document): Value {
    Get(d.metadata, "weaviate_uuid")
  }

  /** The truthy values of f over docs, in document order: what a Counter
      guarded by `if value:` is fed. */
  function TruthyValues(docs: seq<Document>, f: Document -> Value): seq<Value> {
    if docs == [] then []
    else
      var init := TruthyValues(docs[..|docs| - 1], f);
      var v := f(docs[|docs| - 1]);
      if Truthy(v) then init + [v] else init
  }

  /** The position of the first document carrying uuid u. */
  function FirstIndex(docs: seq<Document>, u: Value): (r: Option<nat>)
    ensures r.Some? ==> r.value < |docs| && UuidOf(docs[r.value]) == u
                        && forall j :: 0 <= j < r.value ==> UuidOf(docs[j]) != u
    ensures r.None? ==> forall j :: 0 <= j < |docs| ==> UuidOf(docs[j]) != u
  {
    if docs == [] then None
    else
      var r := FirstIndex(docs[..|docs| - 1], u);
      if r.Some? then Some(r.value)
      else if UuidOf(docs[|docs| - 1]) == u then Some(|docs| - 1)
      else None
  }

  /** `uuid_to_doc`: `setdefault` for every truthy uuid. */
  function FirstSeen(docs: seq<Document>): map<Value, Document> {
    if docs == [] then map[]
    else
      var m := FirstSeen(docs[..|docs| - 1]);
      var d := docs[|docs| - 1];
      if Truthy(UuidOf(d)) && UuidOf(d) !in m then m[UuidOf(d) := d] else m
  }

  /** The map holds exactly the truthy uuids, each with its first document. */
  lemma {:induction false} FirstSeenAt(docs: seq<Document>, u: Value)
    ensures u in FirstSeen(docs) <==> Truthy(u) && FirstIndex(docs, u).Some?
    ensures u in FirstSeen(docs) ==> FirstSeen(docs)[u] == docs[FirstIndex(docs, u).value]
  {
    if docs != [] {
      FirstSeenAt(docs[..|docs| - 1], u);
    }
  }

  /** The keys of `most_common(n)` as a set. */
  function TopKeys(c: Dict<Value, nat>, n: int): set<Value> {
    set k | k in Keys(MostCommon(c, n))
  }

  /** The uuids and the sources that count as frequent. */
  function TopUuids(documents: seq<Document>, n: int): set<Value> {
    TopKeys(Tally(TruthyValues(documents, UuidOf)), n)
  }

  function TopSourceSet(documents: seq<Document>, n: int): set<Value> {
    TopKeys(Tally(TruthyValues(documents, SourceOf)), n)
  }

  /** The documents the final loop collects when it visits the uuids in
      `order`: the first document of each uuid that has one and whose
      source is frequent. */
  function Picked(order: seq<Value>, firstDoc: map<Value, Document>, sources: set<Value>): seq<Document> {
    if order == [] then []
    else
      var init := Picked(order[..|order| - 1], firstDoc, sources);
      var u := order[|order| - 1];
      if u in firstDoc && SourceOf(firstDoc[u]) in sources then init + [firstDoc[u]] else init
  }

  /** `order` visits every frequent uuid exactly once. */
  predicate Enumerates(order: seq<Value>, s: set<Value>) {
    Distinct(order) && (forall u :: u in order ==> u in s) && (forall u :: u in s ==> u in order)
  }

  /** What `get_top_sources` returns when the set of top uuids is iterated
      in `order`. */
  function TopSourcesOf(documents: seq<Document>, topNSource: int, topNUuids: int, order: seq<Value>): seq<Document> {
    if documents == [] then []
    else RemoveDuplicates(Picked(order, FirstSeen(documents), TopSourceSet(documents, topNSource)), "uuid")
  }

  /** One more document counts its value when that value is truthy. */
  lemma TallyStep(docs: seq<Document>, i: nat, f: Document -> Value)
    requires i < |docs|
    ensures Tally(TruthyValues(docs[..i + 1], f)) ==
              if Truthy(f(docs[i])) then Count1(Tally(TruthyValues(docs[..i], f)), f(docs[i]))
              else Tally(TruthyValues(docs[..i], f))
  {
    var prefix := docs[..i + 1];
    assert prefix[..i] == docs[..i] && prefix[i] == docs[i];
    var t := TruthyValues(prefix, f);
    if Truthy(f(docs[i])) {
      assert t == TruthyValues(docs[..i], f) + [f(docs[i])];
      assert t[..|t| - 1] == TruthyValues(docs[..i], f);
      TallySnoc(t);
    }
  }

  /** One more document is recorded when its uuid is truthy and new. */
  lemma FirstSeenStep(docs: seq<Document>, i: nat)
    requires i < |docs|
    ensures FirstSeen(docs[..i + 1]) ==
              if Truthy(UuidOf(docs[i])) && UuidOf(docs[i]) !in FirstSeen(docs[..i])
              then FirstSeen(docs[..i])[UuidOf(docs[i]) := docs[i]]
              else FirstSeen(docs[..i])
  {
    var prefix := docs[..i + 1];
    assert prefix[..i] == docs[..i] && prefix[i] == docs[i];
  }

  /** The counting loop: the two Counters and `uuid_to_doc`. */
  method CountDocuments(documents: seq<Document>)
    returns (uuidToDoc: map<Value, Document>, uuidCounter: Dict<Value, nat>, sourceCounter: Dict<Value, nat>)
    ensures uuidToDoc == FirstSeen(documents)
    ensures uuidCounter == Tally(TruthyValues(documents, UuidOf))
    ensures sourceCounter == Tally(TruthyValues(documents, SourceOf))
  {
    uuidToDoc, uuidCounter, sourceCounter := map[], [], [];
    var i := 0;
    while i < |documents|
      invariant 0 <= i <= |documents|
      invariant uuidToDoc == FirstSeen(documents[..i])
      invariant uuidCounter == Tally(TruthyValues(documents[..i], UuidOf))
      invariant sourceCounter == Tally(TruthyValues(documents[..i], SourceOf))
    {
      var doc := documents[i];
      var source := Get(doc.metadata, "source");
      var uuid := Get(doc.metadata, "weaviate_uuid");
      TallyStep(documents, i, SourceOf);
      TallyStep(documents, i, UuidOf);
      FirstSeenStep(documents, i);
      if Truthy(source) {
        sourceCounter := Count1(sourceCounter, source);
      }
      if Truthy(uuid) {
        uuidCounter := Count1(uuidCounter, uuid);
        if uuid !in uuidToDoc {
          uuidToDoc := uuidToDoc[uuid := doc];
        }
      }
      i := i + 1;
    }
    assert documents[..i] == documents;
  }

  /** The collecting loop over the top uuids, with its `seen_uuids` guard
      (which never fires, each uuid being visited once). */
  method CollectDocuments(order: seq<Value>, uuidToDoc: map<Value, Document>, topSources: set<Value>)
    returns (finalDocs: seq<Document>)
    requires Distinct(order)
    ensures finalDocs == Picked(order, uuidToDoc, topSources)
  {
    finalDocs := [];
    var seenUuids: set<Value> := {};
    var j := 0;
    while j < |order|
      invariant 0 <= j <= |order|
      invariant finalDocs == Picked(order[..j], uuidToDoc, topSources)
      invariant forall u :: u in seenUuids ==> u in order[..j]
    {
      assert order[..j + 1][..j] == order[..j];
      var uuid := order[j];
      assert uuid !in order[..j];
      if uuid in uuidToDoc {
        var doc := uuidToDoc[uuid];
        var source := Get(doc.metadata, "source");
        if source in topSources && uuid !in seenUuids {
          finalDocs := finalDocs + [doc];
          seenUuids := seenUuids + {uuid};
        }
      }
      j := j + 1;
    }
    assert order[..j] == order;
  }

  method GetTopSources(documents: seq<Document>, topNSource: int, topNUuids: int, order: seq<Value>)
    returns (r: seq<Document>)
    requires Enumerates(order, TopUuids(documents, topNUuids))
    ensures r == TopSourcesOf(documents, topNSource, topNUuids, order)
  {
    if documents == [] {
      return [];
    }
    var uuidToDoc, uuidCounter, sourceCounter := CountDocuments(documents);
    var topSources := set k | k in Keys(MostCommon(sourceCounter, topNSource));
    var finalDocs := CollectDocuments(order, uuidToDoc, topSources);
    r := RemoveDuplicateDocuments(finalDocs, "uuid");
  }

  // ---------------------------------------------------------------------
  // Properties
  // ---------------------------------------------------------------------

  /** A document is collected exactly when it is the first document of a
      uuid in `order` and its source is frequent. */
  lemma {:induction false} PickedIn(order: seq<Value>, firstDoc: map<Value, Document>, sources: set<Value>, d: Document)
    ensures d in Picked(order, firstDoc, sources) <==>
              exists u :: u in order && u in firstDoc && firstDoc[u] == d && SourceOf(d) in sources
  {
    if order != [] {
      var init := order[..|order| - 1];
      PickedIn(init, firstDoc, sources, d);
      assert order == init + [order[|order| - 1]];
      assert forall u :: u in order <==> u in init || u == order[|order| - 1];
    }
  }

  /** The documents collected are first documents of distinct uuids from
      `order`, at most one per uuid. */
  lemma {:induction false} PickedDistinct(order: seq<Value>, firstDoc: map<Value, Document>, sources: set<Value>)
    requires Distinct(order)
    requires forall u :: u in firstDoc ==> UuidOf(firstDoc[u]) == u
    ensures |Picked(order, firstDoc, sources)| <= |order|
    ensures var p := Picked(order, firstDoc, sources);
            forall i, j :: 0 <= i < j < |p| ==> UuidOf(p[i]) != UuidOf(p[j])
  {
    if order != [] {
      var init := order[..|order| - 1];
      var u := order[|order| - 1];
      assert Distinct(init);
      PickedDistinct(init, firstDoc, sources);
      var p := Picked(init, firstDoc, sources);
      forall i | 0 <= i < |p|
        ensures UuidOf(p[i]) != u
      {
        PickedIn(init, firstDoc, sources, p[i]);
        assert p[i] in p;
        var w :| w in init && w in firstDoc && firstDoc[w] == p[i] && SourceOf(p[i]) in sources;
        assert w != u;
      }
    }
  }

  /** A distinct sequence is no longer than any sequence holding all its
      elements. */
  lemma {:induction false} DistinctShorter<T>(a: seq<T>, b: seq<T>)
    requires Distinct(a) && forall x :: x in a ==> x in b
    ensures |a| <= |b|
  {
    DistinctCard(a);
    SeqCard(b);
    SubsetCard(set x | x in a, set x | x in b);
  }

  lemma {:induction false} SubsetCard<T>(a: set<T>, b: set<T>)
    requires a <= b
    ensures |a| <= |b|
    decreases a
  {
    if a != {} {
      var x :| x in a;
      SubsetCard(a - {x}, b - {x});
    }
  }

  lemma {:induction false} DistinctCard<T>(a: seq<T>)
    requires Distinct(a)
    ensures |set x | x in a| == |a|
  {
    if a != [] {
      var init := a[..|a| - 1];
      assert Distinct(init);
      DistinctCard(init);
      assert (set x | x in a) == (set x | x in init) + {a[|a| - 1]};
      assert a[|a| - 1] !in init;
    }
  }

  lemma {:induction false} SeqCard<T>(b: seq<T>)
    ensures |set x | x in b| <= |b|
  {
    if b != [] {
      var init := b[..|b| - 1];
      SeqCard(init);
      assert (set x | x in b) == (set x | x in init) + {b[|b| - 1]};
    }
  }

  /** Empty input gives no documents. */
  lemma TopSourcesEmpty(topNSource: int, topNUuids: int, order: seq<Value>)
    ensures TopSourcesOf([], topNSource, topNUuids, order) == []
  {
  }

  /** A document is returned exactly when it is the first document of a
      frequent truthy uuid and its source is frequent; no two returned
      documents share a uuid, and there are at most `top_n_uuids` of
      them. The final "uuid" deduplication changes nothing. */
  lemma TopSourcesSpec(documents: seq<Document>, topNSource: int, topNUuids: int, order: seq<Value>, d: Document)
    requires Enumerates(order, TopUuids(documents, topNUuids))
    ensures var r := TopSourcesOf(documents, topNSource, topNUuids, order);
            && (d in r <==>
                  Truthy(UuidOf(d)) && UuidOf(d) in TopUuids(documents, topNUuids)
                  && FirstIndex(documents, UuidOf(d)).Some? && d == documents[FirstIndex(documents, UuidOf(d)).value]
                  && SourceOf(d) in TopSourceSet(documents, topNSource))
            && (forall i, j :: 0 <= i < j < |r| ==> UuidOf(r[i]) != UuidOf(r[j]))
            && (topNUuids >= 0 ==> |r| <= topNUuids)
            && (topNUuids < 0 ==> r == [])
  {
    if documents != [] {
      var firstDoc := FirstSeen(documents);
      var sources := TopSourceSet(documents, topNSource);
      var p := Picked(order, firstDoc, sources);
      forall u | u in firstDoc
        ensures UuidOf(firstDoc[u]) == u && Truthy(u)
      {
        FirstSeenAt(documents, u);
      }
      PickedDistinct(order, firstDoc, sources);
      forall i | 0 <= i < |p|
        ensures Truthy(UuidOf(p[i])) && UuidKey(p[i]) == UuidOf(p[i])
      {
        PickedIn(order, firstDoc, sources, p[i]);
        assert p[i] in p;
      }
      KeepFirstDistinct(p, UuidKey, Falsy);
      assert TopSourcesOf(documents, topNSource, topNUuids, order) == p;
      PickedIn(order, firstDoc, sources, d);
      FirstSeenAt(documents, UuidOf(d));
      if d in p {
        var u :| u in order && u in firstDoc && firstDoc[u] == d && SourceOf(d) in sources;
        FirstSeenAt(documents, u);
      }
      var top := Keys(MostCommon(Tally(TruthyValues(documents, UuidOf)), topNUuids));
      DistinctShorter(order, top);
    }
  }
}
