/** The document-search page: result objects turned into display records,
    per-source statistics, content previews, the phrase fan-out of a
    search, and the merge of all results (one record per uuid, the last
    one fetched) sorted by score. */
module SearchUi {
  import opened Common
  import opened Documents
  import opened Dedup
  import opened Sorting
  import opened WeaviateClient
  import opened Ranking
  import opened Combinations

  // ---------------------------------------------------------------------
  // Display records
  // ---------------------------------------------------------------------

  /** The dictionary the page shows for one object. */
  datatype DisplayDoc = DisplayDoc(
    content: Value,
    metadata: Dict<string, Value>,
    source: Value,
    uuid: string,
    score: Option<int>,
    distance: Option<int>)

  /** `{k: v for k, v in props.items() if k not in ['content', 'source']}`. */
  function OtherProperties(props: Record): (r: Dict<string, Value>)
    ensures |r| <= |props|
  {
    if props == [] then []
    else
      var init := OtherProperties(props[..|props| - 1]);
      var e := props[|props| - 1];
      if e.0 == "content" || e.0 == "source" then init else init + [e]
  }

  /** The record for one object. */
  function DisplayOf(obj: WeaviateObject): DisplayDoc {
    DisplayDoc(
      Prop(obj.properties, "content", VStr("")),
      OtherProperties(obj.properties),
      Prop(obj.properties, "source", VStr("Unknown source")),
      obj.uuid,
      if obj.metadata.Some? then obj.metadata.value.score else None,
      if obj.metadata.Some? then obj.metadata.value.distance else None)
  }

  /** The metadata holds, in property order, exactly the properties other
      than "content" and "source"; the source falls back to "Unknown source"
      and the content to ""; an object without query metadata has neither
      score nor distance. */
  lemma {:induction false} DisplayShape(obj: WeaviateObject)
    ensures Subseq(DisplayOf(obj).metadata, obj.properties)
    ensures forall e :: e in DisplayOf(obj).metadata <==> e in obj.properties && e.0 != "content" && e.0 != "source"
    ensures "source" !in Keys(obj.properties) ==> DisplayOf(obj).source == VStr("Unknown source")
    ensures "content" !in Keys(obj.properties) ==> DisplayOf(obj).content == VStr("")
    ensures obj.metadata.None? ==> DisplayOf(obj).score.None? && DisplayOf(obj).distance.None?
  {
    OtherPropertiesSpec(obj.properties);
  }

  lemma {:induction false} OtherPropertiesSpec(props: Record)
    ensures Subseq(OtherProperties(props), props)
    ensures forall e :: e in OtherProperties(props) <==> e in props && e.0 != "content" && e.0 != "source"
  {
    if props != [] {
      var init := props[..|props| - 1];
      var e := props[|props| - 1];
      OtherPropertiesSpec(init);
      assert props == init + [e];
      var r := OtherProperties(init);
      if !(e.0 == "content" || e.0 == "source") {
        assert (r + [e])[..|r|] == r;
      } else {
        SubseqSnoc(r, init, e);
      }
    }
  }

  lemma DisplayedStep(objs: seq<WeaviateObject>, i: nat)
    requires i < |objs|
    ensures Displayed(objs)[..i + 1] == Displayed(objs)[..i] + [DisplayOf(objs[i])]
  {
  }

  /** `convert_weaviate_objects_to_display`. */
  method ConvertToDisplay(objs: seq<WeaviateObject>) returns (documents: seq<DisplayDoc>)
    ensures documents == Displayed(objs)
  {
    documents := [];
    var i := 0;
    while i < |objs|
      invariant 0 <= i <= |objs|
      invariant documents == Displayed(objs)[..i]
    {
      var obj := objs[i];
      var source := Prop(obj.properties, "source", VStr("Unknown source"));
      var score := if obj.metadata.Some? then obj.metadata.value.score else None;
      var distance := if obj.metadata.Some? then obj.metadata.value.distance else None;
      var doc := DisplayDoc(Prop(obj.properties, "content", VStr("")), OtherProperties(obj.properties),
                            source, obj.uuid, score, distance);
      assert doc == DisplayOf(obj);
      DisplayedStep(objs, i);
      documents := documents + [doc];
      i := i + 1;
    }
    assert Displayed(objs)[..i] == Displayed(objs);
  }

  // ---------------------------------------------------------------------
  // Collection statistics
  // ---------------------------------------------------------------------

  /** `obj.properties.get('source', 'Unknown')` for every object. */
  function SourcesOf(objs: seq<WeaviateObject>): (r: seq<Value>)
    ensures |r| == |objs|
  {
    if objs == [] then []
    else SourcesOf(objs[..|objs| - 1]) + [Prop(objs[|objs| - 1].properties, "source", VStr("Unknown"))]
  }

  /** One more object counts its source. */
  lemma SourcesStep(objs: seq<WeaviateObject>, i: nat)
    requires i < |objs|
    ensures Tally(SourcesOf(objs[..i + 1])) ==
              Count1(Tally(SourcesOf(objs[..i])), Prop(objs[i].properties, "source", VStr("Unknown")))
  {
    var prefix := objs[..i + 1];
    assert prefix[..i] == objs[..i] && prefix[i] == objs[i];
    var t := SourcesOf(prefix);
    assert t[..|t| - 1] == SourcesOf(objs[..i]);
    TallySnoc(t);
  }

  /** The counting loop: `source_counts[source] = source_counts.get(source, 0) + 1`. */
  method CountSources(objs: seq<WeaviateObject>) returns (counts: Dict<Value, nat>)
    ensures counts == Tally(SourcesOf(objs))
  {
    counts := [];
    var i := 0;
    while i < |objs|
      invariant 0 <= i <= |objs|
      invariant counts == Tally(SourcesOf(objs[..i]))
    {
      var source := Prop(objs[i].properties, "source", VStr("Unknown"));
      SourcesStep(objs, i);
      counts := Count1(counts, source);
      i := i + 1;
    }
    assert objs[..i] == objs;
  }

  /** Every source is listed once, with its number of objects; the counts
      add up to the number of objects fetched; the listing is ordered by
      count, highest first, ties in order of first appearance. */
  lemma SourceStatistics(objs: seq<WeaviateObject>, s: Value, e: (Value, nat))
    ensures var counts := Tally(SourcesOf(objs));
            && Distinct(Keys(counts))
            && CountOf(counts, s) == Count(SourcesOf(objs), s)
            && Total(counts) == |objs|
            && Sorted(Sort(counts, ByCountDesc), ByCountDesc)
            && multiset(Sort(counts, ByCountDesc)) == multiset(counts)
            && Equivalents(Sort(counts, ByCountDesc), e, ByCountDesc) == Equivalents(counts, e, ByCountDesc)
  {
    var counts := Tally(SourcesOf(objs));
    TallyKeys(SourcesOf(objs), s);
    TallyCount(SourcesOf(objs), s);
    TallyTotal(SourcesOf(objs));
    ByCountDescPreorder<Value>();
    SortSorted(counts, ByCountDesc);
    SortStable(counts, e, ByCountDesc);
  }

  /** The sample preview: the first 200 characters and "..." when the
      content is longer, otherwise the whole content. */
  function Preview(content: string): (r: string)
    ensures |content| <= 200 ==> r == content
    ensures |content| > 200 ==> |r| == 203 && r[..200] == content[..200] && r[200..] == "..."
  {
    if |content| > 200 then content[..200] + "..." else content
  }

  // ---------------------------------------------------------------------
  // Search
  // ---------------------------------------------------------------------

  /** One hybrid query the page issues: the stripped phrase, the result
      limit and the optional source filter. */
  datatype UiQuery = UiQuery(query: string, limit: int, sourceFilter: Option<string>)

  /** The phrase list: the comma pieces, one sampled combination of them,
      and the whole query. */
  method SearchPhrases(query: string, chosen: seq<nat>) returns (phrases: seq<string>)
    requires ValidSample(chosen, Pow2(|Split(query, ',')|) - 1, 1)
    ensures var pieces := Split(query, ',');
            phrases == pieces + [AllCombos(pieces)[chosen[0]]] + [query]
  {
    var keywords := Split(query, ',');
    var combos := SampleCombinations(keywords, 1, chosen);
    phrases := keywords + combos.value + [query];
  }

  /** The queries issued for a phrase list, in order. */
  function Queries(phrases: seq<string>, topK: int, sourceFilter: Option<string>): (r: seq<UiQuery>)
    ensures |r| == |phrases|
    ensures forall i :: 0 <= i < |phrases| ==> r[i] == UiQuery(Strip(phrases[i]), topK, sourceFilter)
  {
    seq(|phrases|, i requires 0 <= i < |phrases| => UiQuery(Strip(phrases[i]), topK, sourceFilter))
  }

  lemma QueriesSnoc(phrases: seq<string>, i: nat, topK: int, sourceFilter: Option<string>)
    requires i < |phrases|
    ensures Queries(phrases[..i + 1], topK, sourceFilter)
            == Queries(phrases[..i], topK, sourceFilter) + [UiQuery(Strip(phrases[i]), topK, sourceFilter)]
  {
    var l := Queries(phrases[..i + 1], topK, sourceFilter);
    var r := Queries(phrases[..i], topK, sourceFilter) + [UiQuery(Strip(phrases[i]), topK, sourceFilter)];
    forall k | 0 <= k < |l|
      ensures l[k] == r[k]
    {
      assert phrases[..i + 1][k] == phrases[k];
    }
  }

  /** Every record fetched, query by query. */
  function Fetched(queries: seq<UiQuery>, hybrid: UiQuery -> seq<WeaviateObject>): seq<DisplayDoc> {
    if queries == [] then []
    else Fetched(queries[..|queries| - 1], hybrid) + Displayed(hybrid(queries[|queries| - 1]))
  }

  /** The records of a result list, object by object. */
  function Displayed(objs: seq<WeaviateObject>): (r: seq<DisplayDoc>)
    ensures |r| == |objs| && forall i :: 0 <= i < |objs| ==> r[i] == DisplayOf(objs[i])
  {
    seq(|objs|, i requires 0 <= i < |objs| => DisplayOf(objs[i]))
  }

  lemma FetchedSnoc(queries: seq<UiQuery>, request: UiQuery, hybrid: UiQuery -> seq<WeaviateObject>)
    ensures Fetched(queries + [request], hybrid) == Fetched(queries, hybrid) + Displayed(hybrid(request))
  {
    assert (queries + [request])[..|queries|] == queries;
  }

  /** `{doc['uuid']: doc for doc in docs}`: one entry per uuid, in order of
      first appearance, holding the last record with that uuid. */
  function ByUuid(docs: seq<DisplayDoc>): Dict<string, DisplayDoc> {
    if docs == [] then []
    else
      var d := docs[|docs| - 1];
      Put(ByUuid(docs[..|docs| - 1]), d.uuid, d)
  }

  function Values<K, V>(d: Dict<K, V>): (r: seq<V>)
    ensures |r| == |d| && forall i :: 0 <= i < |d| ==> r[i] == d[i].1
  {
    seq(|d|, i requires 0 <= i < |d| => d[i].1)
  }

  /** The positions of the first and of the last record with uuid u. */
  function FirstWith(docs: seq<DisplayDoc>, u: string): (r: Option<nat>)
    ensures r.Some? ==> r.value < |docs| && docs[r.value].uuid == u
                        && forall j :: 0 <= j < r.value ==> docs[j].uuid != u
    ensures r.None? ==> forall j :: 0 <= j < |docs| ==> docs[j].uuid != u
  {
    if docs == [] then None
    else
      var r := FirstWith(docs[..|docs| - 1], u);
      if r.Some? then r
      else if docs[|docs| - 1].uuid == u then Some(|docs| - 1)
      else None
  }

  function LastWith(docs: seq<DisplayDoc>, u: string): (r: Option<nat>)
    ensures r.Some? ==> r.value < |docs| && docs[r.value].uuid == u
                        && forall j :: r.value < j < |docs| ==> docs[j].uuid != u
    ensures r.None? ==> forall j :: 0 <= j < |docs| ==> docs[j].uuid != u
  {
    if docs == [] then None
    else if docs[|docs| - 1].uuid == u then Some(|docs| - 1)
    else LastWith(docs[..|docs| - 1], u)
  }

  /** Each entry's key is its record's uuid; the keys are distinct; a uuid
      is a key exactly when some record carries it, and reads the last
      such record. */
  lemma {:induction false} ByUuidSpec(docs: seq<DisplayDoc>, u: string)
    ensures forall e :: e in ByUuid(docs) ==> e.1.uuid == e.0
    ensures Distinct(Keys(ByUuid(docs)))
    ensures u in Keys(ByUuid(docs)) <==> FirstWith(docs, u).Some?
    ensures LastWith(docs, u).Some? ==> Lookup(ByUuid(docs), u) == Some(docs[LastWith(docs, u).value])
  {
    if docs != [] {
      var init := docs[..|docs| - 1];
      var d := docs[|docs| - 1];
      var m := ByUuid(init);
      ByUuidSpec(init, u);
      PutEntries(m, d.uuid, d);
      PutDistinct(m, d.uuid, d);
      PutLookup(m, d.uuid, d, u);
    }
  }

  /** The entries are in order of each uuid's first appearance. */
  lemma ByUuidOrder(docs: seq<DisplayDoc>)
    ensures var ks := Keys(ByUuid(docs));
            forall i :: 0 <= i < |ks| ==> FirstWith(docs, ks[i]).Some?
    ensures var ks := Keys(ByUuid(docs));
            forall i, j :: 0 <= i < j < |ks| ==> FirstWith(docs, ks[i]).value < FirstWith(docs, ks[j]).value
  {
    var ks := Keys(ByUuid(docs));
    forall i | 0 <= i < |ks| ensures FirstWith(docs, ks[i]).Some? {
      ByUuidSpec(docs, ks[i]);
    }
    forall i, j | 0 <= i < j < |ks| ensures FirstWith(docs, ks[i]).value < FirstWith(docs, ks[j]).value {
      KeysFirstOrder(docs, i, j);
    }
  }

  /** Of two entries, the earlier one's uuid appears first. */
  lemma {:induction false} KeysFirstOrder(docs: seq<DisplayDoc>, i: nat, j: nat)
    requires i < j < |Keys(ByUuid(docs))|
    ensures FirstWith(docs, Keys(ByUuid(docs))[i]).Some? && FirstWith(docs, Keys(ByUuid(docs))[j]).Some?
    ensures FirstWith(docs, Keys(ByUuid(docs))[i]).value < FirstWith(docs, Keys(ByUuid(docs))[j]).value
    decreases |docs|
  {
    var init := docs[..|docs| - 1];
    var d := docs[|docs| - 1];
    var ks0 := Keys(ByUuid(init));
    var ks := Keys(ByUuid(docs));
    ByUuidSnoc(docs);
    assert ks0[i] in ks0;
    ByUuidSpec(init, ks0[i]);
    if j < |ks0| {
      assert ks[i] == ks0[i] && ks[j] == ks0[j];
      KeysFirstOrder(init, i, j);
      FirstsStayOrdered(docs, ks0[i], ks0[j]);
    } else {
      assert ks == ks0 + [d.uuid] && ks[i] == ks0[i] && ks[j] == d.uuid;
      ByUuidSpec(init, d.uuid);
      FirstBeforeNew(docs, ks0[i]);
    }
  }

  /** Two uuids seen before the last record keep their first positions,
      and so their order. */
  lemma FirstsStayOrdered(docs: seq<DisplayDoc>, u: string, v: string)
    requires docs != []
    requires FirstWith(docs[..|docs| - 1], u).Some? && FirstWith(docs[..|docs| - 1], v).Some?
    requires FirstWith(docs[..|docs| - 1], u).value < FirstWith(docs[..|docs| - 1], v).value
    ensures FirstWith(docs, u).Some? && FirstWith(docs, v).Some?
    ensures FirstWith(docs, u).value < FirstWith(docs, v).value
  {
    FirstWithPrefix(docs, u);
    FirstWithPrefix(docs, v);
  }

  /** A uuid seen before the last record comes first when the last
      record's uuid is new. */
  lemma FirstBeforeNew(docs: seq<DisplayDoc>, u: string)
    requires docs != []
    requires FirstWith(docs[..|docs| - 1], u).Some?
    requires FirstWith(docs[..|docs| - 1], docs[|docs| - 1].uuid).None?
    ensures FirstWith(docs, u).Some? && FirstWith(docs, docs[|docs| - 1].uuid).Some?
    ensures FirstWith(docs, u).value < FirstWith(docs, docs[|docs| - 1].uuid).value
  {
    FirstWithPrefix(docs, u);
    assert FirstWith(docs, docs[|docs| - 1].uuid) == Some(|docs| - 1);
  }

  /** A uuid already seen before the last record keeps its first
      position. */
  lemma FirstWithPrefix(docs: seq<DisplayDoc>, u: string)
    requires docs != [] && FirstWith(docs[..|docs| - 1], u).Some?
    ensures FirstWith(docs, u) == FirstWith(docs[..|docs| - 1], u)
  {
  }

  /** The last record adds its uuid as a new last key, or leaves the keys
      as they were. */
  lemma ByUuidSnoc(docs: seq<DisplayDoc>)
    requires docs != []
    ensures var ks0 := Keys(ByUuid(docs[..|docs| - 1]));
            Keys(ByUuid(docs)) == if docs[|docs| - 1].uuid in ks0 then ks0 else ks0 + [docs[|docs| - 1].uuid]
  {
  }

  /** Higher scores first, a missing score counting as 0. */
  function ScoreOrZero(d: DisplayDoc): int {
    if d.score.Some? then d.score.value else 0
  }

  predicate ByDisplayScore(a: DisplayDoc, b: DisplayDoc) {
    ScoreOrZero(a) >= ScoreOrZero(b)
  }

  /** The search button: issue one query per phrase, convert and collect
      every result, keep one record per uuid, and sort by score. */
  method Search(query: string, topK: int, sourceFilter: Option<string>, chosen: seq<nat>,
                hybrid: UiQuery -> seq<WeaviateObject>)
    returns (issued: seq<UiQuery>, documents: seq<DisplayDoc>)
    requires ValidSample(chosen, Pow2(|Split(query, ',')|) - 1, 1)
    ensures var pieces := Split(query, ',');
            issued == Queries(pieces + [AllCombos(pieces)[chosen[0]]] + [query], topK, sourceFilter)
    ensures documents == Sort(Values(ByUuid(Fetched(issued, hybrid))), ByDisplayScore)
  {
    var keywordList := SearchPhrases(query, chosen);
    var aggregated;
    issued, aggregated := FetchAll(keywordList, topK, sourceFilter, hybrid);
    var unique := KeepLast(aggregated);
    documents := Sort(Values(unique), ByDisplayScore);
  }

  /** The phrase loop: one query per phrase, every result converted and
      collected. */
  method FetchAll(phrases: seq<string>, topK: int, sourceFilter: Option<string>, hybrid: UiQuery -> seq<WeaviateObject>)
    returns (issued: seq<UiQuery>, aggregated: seq<DisplayDoc>)
    ensures issued == Queries(phrases, topK, sourceFilter)
    ensures aggregated == Fetched(issued, hybrid)
  {
    issued := [];
    aggregated := [];
    var i := 0;
    while i < |phrases|
      invariant 0 <= i <= |phrases|
      invariant issued == Queries(phrases[..i], topK, sourceFilter)
      invariant aggregated == Fetched(issued, hybrid)
    {
      var request := UiQuery(Strip(phrases[i]), topK, sourceFilter);
      QueriesSnoc(phrases, i, topK, sourceFilter);
      var objs := hybrid(request);
      var docs := ConvertToDisplay(objs);
      FetchedSnoc(issued, request, hybrid);
      issued := issued + [request];
      aggregated := aggregated + docs;
      i := i + 1;
    }
    assert phrases[..i] == phrases;
  }

  /** The uuid dictionary comprehension. */
  method KeepLast(docs: seq<DisplayDoc>) returns (unique: Dict<string, DisplayDoc>)
    ensures unique == ByUuid(docs)
  {
    unique := [];
    var i := 0;
    while i < |docs|
      invariant 0 <= i <= |docs|
      invariant unique == ByUuid(docs[..i])
    {
      assert docs[..i + 1][..i] == docs[..i];
      unique := Put(unique, docs[i].uuid, docs[i]);
      i := i + 1;
    }
    assert docs[..i] == docs;
  }

  /** The records shown are the merged records sorted by descending score,
      ties in first-appearance order, and no uuid is shown twice. */
  lemma SearchResults(fetched: seq<DisplayDoc>, e: DisplayDoc)
    ensures var shown := Sort(Values(ByUuid(fetched)), ByDisplayScore);
            && Sorted(shown, ByDisplayScore)
            && multiset(shown) == multiset(Values(ByUuid(fetched)))
            && Equivalents(shown, e, ByDisplayScore) == Equivalents(Values(ByUuid(fetched)), e, ByDisplayScore)
            && forall i, j :: 0 <= i < j < |shown| ==> shown[i].uuid != shown[j].uuid
  {
    var vals := Values(ByUuid(fetched));
    var shown := Sort(vals, ByDisplayScore);
    assert TotalPreorder(ByDisplayScore);
    SortSorted(vals, ByDisplayScore);
    SortStable(vals, e, ByDisplayScore);
    ByUuidSpec(fetched, "");
    var m := ByUuid(fetched);
    forall i, j | 0 <= i < j < |vals|
      ensures vals[i].uuid != vals[j].uuid
    {
      assert m[i] in m && m[j] in m;
      assert Keys(m)[i] != Keys(m)[j];
    }
    forall i, j | 0 <= i < j < |shown|
      ensures shown[i].uuid != shown[j].uuid
    {
      SortedDistinctBy(vals, shown, i, j);
    }
  }

  /** A permutation of records with distinct uuids has distinct uuids. */
  lemma SortedDistinctBy(vals: seq<DisplayDoc>, shown: seq<DisplayDoc>, i: nat, j: nat)
    requires multiset(shown) == multiset(vals)
    requires forall a, b :: 0 <= a < b < |vals| ==> vals[a].uuid != vals[b].uuid
    requires i < j < |shown|
    ensures shown[i].uuid != shown[j].uuid
  {
    assert shown[i] in multiset(vals) && shown[j] in multiset(vals);
    var a :| 0 <= a < |vals| && vals[a] == shown[i];
    var b :| 0 <= b < |vals| && vals[b] == shown[j];
    if a == b {
      assert multiset(shown)[shown[i]] >= 2 by {
        var rest := shown[..i] + shown[i + 1..];
        assert shown == shown[..i] + [shown[i]] + shown[i + 1..];
        assert shown[j] in rest by {
          assert rest[j - 1] == shown[j];
        }
      }
      MultisetOne(vals, a);
    }
  }

  /** In a sequence with distinct uuids every element occurs once. */
  lemma {:induction false} MultisetOne(vals: seq<DisplayDoc>, a: nat)
    requires forall x, y :: 0 <= x < y < |vals| ==> vals[x].uuid != vals[y].uuid
    requires a < |vals|
    ensures multiset(vals)[vals[a]] == 1
  {
    var rest := vals[..a] + vals[a + 1..];
    assert vals == vals[..a] + [vals[a]] + vals[a + 1..];
    assert vals[a] !in rest by {
      forall k | 0 <= k < |rest|
        ensures rest[k] != vals[a]
      {
        if k < a {
          assert rest[k] == vals[k];
        } else {
          assert rest[k] == vals[k + 1];
        }
      }
    }
  }
}
