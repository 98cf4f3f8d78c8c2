/** `retrieve_documents`: every phrase is searched twice, by MongoDB full
    text and by the Weaviate hybrid query (with its content-vector retry),
    the two result lists are aggregated over the phrases, and the node
    answers with the frequent-source documents of the vector side and the
    best-scored documents of the text side. */
module RetrieverNode {
  import opened Common
  import opened Documents
  import opened Ranking
  import opened Sorting
  import opened TopSources
  import opened Combinations
  import opened WeaviateClient
  import opened Retrieval

  /** The backends a phrase is searched with: the MongoDB full-text search
      (phrase and limit to raw records), the client's embedding and the
      hybrid query. */
  datatype Services = Services(textSearch: (string, int) -> seq<Record>,
                               embed: Param -> seq<int>,
                               hybrid: Dict<string, Param> -> Result<seq<WeaviateObject>>)

  /** One phrase of `retrieve_documents`, the query dict built for it and
      the backends it is searched with. */
  datatype PhraseCall = PhraseCall(keyword: string, topK: int, params: Dict<string, Param>, sv: Services)

  /** One phrase: the hybrid query (retried once on the content vector),
      then the conversion of the full-text records; the first exception
      ends the node. */
  function Step(c: PhraseCall): Result<(seq<Document>, seq<Document>)> {
    var response := FallbackFetch(c.params, c.sv.embed, c.sv.hybrid);
    if response.Err? then Err(response.error)
    else
      match ConvertAll(c.sv.textSearch(c.keyword, c.topK), MongoDoc)
      case Err(e) => Err(e)
      case Ok(mongo) => Ok((response.value, mongo))
  }

  /** A successful phrase yields the query's reply and the converted
      full-text records. */
  lemma StepVector(c: PhraseCall)
    requires Step(c).Ok?
    ensures Replied(Step(c).value.0, c)
  {
  }

  lemma StepText(c: PhraseCall)
    requires Step(c).Ok?
    ensures Converted(Step(c).value.1, c)
  {
  }

  /** `docs` is the reply to the phrase's query. */
  predicate Replied(docs: seq<Document>, c: PhraseCall) {
    FallbackFetch(c.params, c.sv.embed, c.sv.hybrid) == Ok(docs)
  }

  /** d is in the reply to the phrase's query. */
  predicate FromQuery(d: Document, c: PhraseCall) {
    var r := FallbackFetch(c.params, c.sv.embed, c.sv.hybrid);
    r.Ok? && d in r.value
  }

  /** d is one of the phrase's converted full-text records. */
  predicate FromText(d: Document, c: PhraseCall) {
    var r := ConvertAll(c.sv.textSearch(c.keyword, c.topK), MongoDoc);
    r.Ok? && d in r.value
  }

  /** `docs` are the phrase's converted full-text records. */
  predicate Converted(docs: seq<Document>, c: PhraseCall) {
    ConvertAll(c.sv.textSearch(c.keyword, c.topK), MongoDoc) == Ok(docs)
  }

  /** One call per phrase, in phrase order. */
  function PhraseCalls(keywords: seq<string>, topK: int, sv: Services): (r: seq<PhraseCall>)
    ensures |r| == |keywords|
    ensures forall i :: 0 <= i < |keywords| ==> r[i] == PhraseCall(keywords[i], topK, InitialParams(keywords[i], topK), sv)
  {
    seq(|keywords|, i requires 0 <= i < |keywords| => PhraseCall(keywords[i], topK, InitialParams(keywords[i], topK), sv))
  }

  /** The two aggregates after the calls, in call order; the first failing
      call ends the fold with its error. */
  function Gathered<R>(calls: seq<R>, f: R -> Result<(seq<Document>, seq<Document>)>): Result<(seq<Document>, seq<Document>)> {
    if calls == [] then Ok(([], []))
    else
      match Gathered(calls[..|calls| - 1], f)
      case Err(e) => Err(e)
      case Ok(agg) =>
        match f(calls[|calls| - 1])
        case Err(e) => Err(e)
        case Ok(s) => Ok((agg.0 + s.0, agg.1 + s.1))
  }

  lemma GatheredSnoc<R>(calls: seq<R>, i: nat, f: R -> Result<(seq<Document>, seq<Document>)>)
    requires i < |calls| && Gathered(calls[..i], f).Ok? && f(calls[i]).Ok?
    ensures var agg := Gathered(calls[..i], f).value;
            var s := f(calls[i]).value;
            Gathered(calls[..i + 1], f) == Ok((agg.0 + s.0, agg.1 + s.1))
  {
    assert calls[..i + 1][..i] == calls[..i];
  }

  /** Once a call fails, the fold fails with its error. */
  lemma {:induction false} GatheredStop<R>(calls: seq<R>, i: nat, n: nat, f: R -> Result<(seq<Document>, seq<Document>)>)
    requires i < n <= |calls| && Gathered(calls[..i], f).Ok? && f(calls[i]).Err?
    ensures Gathered(calls[..n], f) == Err(f(calls[i]).error)
  {
    var prefix := calls[..n];
    assert prefix[..n - 1] == calls[..n - 1];
    if n == i + 1 {
      assert prefix[n - 1] == calls[i];
    } else {
      GatheredStop(calls, i, n - 1, f);
    }
  }

  lemma GatheredFails<R>(calls: seq<R>, i: nat, f: R -> Result<(seq<Document>, seq<Document>)>)
    requires i < |calls| && Gathered(calls[..i], f).Ok? && f(calls[i]).Err?
    ensures Gathered(calls, f) == Err(f(calls[i]).error)
  {
    GatheredStop(calls, i, |calls|, f);
    assert calls[..|calls|] == calls;
  }

  /** The body of the phrase loop: the full-text search, the hybrid query
      with its retry, and the conversion of the full-text records. */
  method SearchPhrase(c: PhraseCall) returns (r: Result<(seq<Document>, seq<Document>)>)
    requires c.params == InitialParams(c.keyword, c.topK)
    ensures r == Step(c)
  {
    var mongoDocsRaw := c.sv.textSearch(c.keyword, c.topK);
    InitialReads(c.keyword, c.topK);
    var response, _ := QueryWithFallback(c.params, c.sv.embed, c.sv.hybrid);
    if response.Err? {
      return Err(response.error);
    }
    var mongoDocs := ConvertMongoDocs(mongoDocsRaw);
    if mongoDocs.Err? {
      return Err(mongoDocs.error);
    }
    r := Ok((response.value, mongoDocs.value));
  }

  /** The phrase loop of `retrieve_documents`. */
  method RetrieveAll(keywords: seq<string>, topK: int, sv: Services)
    returns (r: Result<(seq<Document>, seq<Document>)>)
    ensures r == Gathered(PhraseCalls(keywords, topK, sv), Step)
  {
    var calls := PhraseCalls(keywords, topK, sv);
    var aggregatedVector: seq<Document> := [];
    var aggregatedText: seq<Document> := [];
    var i := 0;
    while i < |calls|
      invariant 0 <= i <= |calls|
      invariant Gathered(calls[..i], Step) == Ok((aggregatedVector, aggregatedText))
    {
      var step := SearchPhrase(calls[i]);
      if step.Err? {
        GatheredFails(calls, i, Step);
        return Err(step.error);
      }
      GatheredSnoc(calls, i, Step);
      aggregatedVector := aggregatedVector + step.value.0;
      aggregatedText := aggregatedText + step.value.1;
      i := i + 1;
    }
    assert calls[..i] == calls;
    r := Ok((aggregatedVector, aggregatedText));
  }

  /** The fold succeeds exactly when every call does; a document is
      aggregated exactly when some call's result holds it. */
  lemma {:induction false} GatheredSpec<R>(calls: seq<R>, f: R -> Result<(seq<Document>, seq<Document>)>)
    ensures Gathered(calls, f).Ok? <==> forall i :: 0 <= i < |calls| ==> f(calls[i]).Ok?
    ensures Gathered(calls, f).Ok? ==>
              var agg := Gathered(calls, f).value;
              && (forall d :: d in agg.0 <==> exists i :: 0 <= i < |calls| && d in f(calls[i]).value.0)
              && (forall d :: d in agg.1 <==> exists i :: 0 <= i < |calls| && d in f(calls[i]).value.1)
  {
    if calls != [] {
      var init := calls[..|calls| - 1];
      var last := |calls| - 1;
      GatheredSpec(init, f);
      assert forall i :: 0 <= i < |init| ==> init[i] == calls[i];
      if Gathered(calls, f).Ok? {
        var agg := Gathered(calls, f).value;
        var a := Gathered(init, f).value;
        var s := f(calls[last]).value;
        forall d | d in agg.0
          ensures exists i :: 0 <= i < |calls| && d in f(calls[i]).value.0
        {
          if d in a.0 {
            var i :| 0 <= i < |init| && d in f(init[i]).value.0;
            assert calls[i] == init[i];
          } else {
            assert d in s.0;
          }
        }
        forall d | d in agg.1
          ensures exists i :: 0 <= i < |calls| && d in f(calls[i]).value.1
        {
          if d in a.1 {
            var i :| 0 <= i < |init| && d in f(init[i]).value.1;
            assert calls[i] == init[i];
          } else {
            assert d in s.1;
          }
        }
        forall d, i | 0 <= i < |calls| && d in f(calls[i]).value.0
          ensures d in agg.0
        {
          if i < last {
            assert init[i] == calls[i];
          }
        }
        forall d, i | 0 <= i < |calls| && d in f(calls[i]).value.1
          ensures d in agg.1
        {
          if i < last {
            assert init[i] == calls[i];
          }
        }
      }
    }
  }

  // ---------------------------------------------------------------------
  // The answer
  // ---------------------------------------------------------------------

  /** The order in which the set of top uuids is visited: Python leaves a
      set's iteration order unspecified; the model takes the counter's
      `most_common` order. */
  function TopOrder(documents: seq<Document>, n: int): seq<Value> {
    Keys(MostCommon(Tally(TruthyValues(documents, UuidOf)), n))
  }

  /** That order visits every top uuid exactly once. */
  lemma TopOrderEnumerates(documents: seq<Document>, n: int)
    ensures Enumerates(TopOrder(documents, n), TopUuids(documents, n))
  {
    var values := TruthyValues(documents, UuidOf);
    var u: Value :| true;
    TallyKeys(values, u);
    MostCommonDistinct(Tally(values), n);
  }

  /** A full-text record whose document has a numeric (or no) score. */
  predicate ScoredRecord(rec: Record) {
    MongoDoc(rec).Ok? ==> ScoreValue(MongoDoc(rec).value).Some?
  }

  /** The full-text search scores every record (MongoDB's `textScore`). */
  ghost predicate ScoredText(textSearch: (string, int) -> seq<Record>) {
    forall q, k, rec :: rec in textSearch(q, k) ==> ScoredRecord(rec)
  }

  /** The aggregates of the phrase loop. */
  function Aggregated(keywords: seq<string>, topK: int, sv: Services): Result<(seq<Document>, seq<Document>)> {
    Gathered(PhraseCalls(keywords, topK, sv), Step)
  }

  /** With a scoring search, the text aggregate can be sorted by score. */
  lemma GatheredComparable(keywords: seq<string>, topK: int, sv: Services)
    requires ScoredText(sv.textSearch) && Aggregated(keywords, topK, sv).Ok?
    ensures Comparable(Aggregated(keywords, topK, sv).value.1)
  {
    var calls := PhraseCalls(keywords, topK, sv);
    var text := Aggregated(keywords, topK, sv).value.1;
    GatheredSpec(calls, Step);
    forall j | 0 <= j < |text|
      ensures ScoreValue(text[j]).Some?
    {
      assert text[j] in text;
      var i :| 0 <= i < |calls| && text[j] in Step(calls[i]).value.1;
      var docs := Step(calls[i]).value.1;
      StepText(calls[i]);
      ConvertedComparable(docs, calls[i]);
      var m :| 0 <= m < |docs| && docs[m] == text[j];
    }
  }

  /** A scoring search's records convert to documents with scores. */
  lemma ConvertedComparable(docs: seq<Document>, c: PhraseCall)
    requires ScoredText(c.sv.textSearch) && Converted(docs, c)
    ensures Comparable(docs)
  {
    var raw := c.sv.textSearch(c.keyword, c.topK);
    forall m | 0 <= m < |docs|
      ensures ScoreValue(docs[m]).Some?
    {
      assert raw[m] in c.sv.textSearch(c.keyword, c.topK);
      assert ScoredRecord(raw[m]);
      assert MongoDoc(raw[m]).Ok? && docs[m] == MongoDoc(raw[m]).value;
    }
  }

  /** The node's reply: the two renderings of the chosen documents, and
      the documents themselves. */
  datatype Retrieved = Retrieved(vectorText: string, textText: string, vectorDocs: seq<Document>, textDocs: seq<Document>)

  /** `random.sample` drew one index into the combinations of the latest
      message's pieces. */
  predicate SampleFits(messages: seq<Message>, chosen: seq<nat>) {
    messages != [] ==> ValidSample(chosen, Pow2(|Split(messages[|messages| - 1].content, ',')|) - 1, 1)
  }

  /** The phrases `retrieve_documents` searches for. */
  function PhrasesOf(messages: seq<Message>, chosen: seq<nat>): seq<string>
    requires messages != [] && SampleFits(messages, chosen)
  {
    RetrievalPhrases(messages[|messages| - 1].content, messages[0].content, chosen)
  }

  /** What `retrieve_documents` returns, or the exception it raises. */
  function RetrieveDocumentsOf(messages: seq<Message>, chosen: seq<nat>, topK: int, sv: Services): Result<Retrieved>
    requires SampleFits(messages, chosen) && ScoredText(sv.textSearch)
  {
    if messages == [] then Err("IndexError")
    else
      var phrases := PhrasesOf(messages, chosen);
      match Aggregated(phrases, topK, sv)
      case Err(e) => Err(e)
      case Ok(agg) =>
        GatheredComparable(phrases, topK, sv);
        var top := TopSourcesOf(agg.0, topK, topK, TopOrder(agg.0, topK));
        var ranked := SortByScore(agg.1, topK);
        Ok(Retrieved(Join("\n", PageContents(top)), Join("\n", PageContents(ranked)), top, ranked))
  }

  method RetrieveDocuments(messages: seq<Message>, chosen: seq<nat>, topK: int, sv: Services)
    returns (r: Result<Retrieved>)
    requires SampleFits(messages, chosen) && ScoredText(sv.textSearch)
    ensures r == RetrieveDocumentsOf(messages, chosen, topK, sv)
  {
    if |messages| == 0 {
      return Err("IndexError");
    }
    var query := messages[|messages| - 1].content;
    var initialQuestion := messages[0].content;
    var keywords := Keywords(query, initialQuestion, chosen);
    var aggregated := RetrieveAll(keywords, topK, sv);
    if aggregated.Err? {
      return Err(aggregated.error);
    }
    var (aggregatedVector, aggregatedText) := aggregated.value;
    TopOrderEnumerates(aggregatedVector, topK);
    var finalDocs := GetTopSources(aggregatedVector, topK, topK, TopOrder(aggregatedVector, topK));
    GatheredComparable(keywords, topK, sv);
    var finalMongoDocs := SortByScore(aggregatedText, topK);
    r := Ok(Retrieved(Join("\n", PageContents(finalDocs)), Join("\n", PageContents(finalMongoDocs)),
                      finalDocs, finalMongoDocs));
  }

  /** The node fails on an empty conversation and otherwise exactly when a
      phrase's search fails. */
  lemma RetrieveDocumentsOutcome(messages: seq<Message>, chosen: seq<nat>, topK: int, sv: Services)
    requires SampleFits(messages, chosen) && ScoredText(sv.textSearch)
    ensures messages == [] ==> RetrieveDocumentsOf(messages, chosen, topK, sv) == Err("IndexError")
    ensures messages != [] ==>
              var phrases := PhrasesOf(messages, chosen);
              (RetrieveDocumentsOf(messages, chosen, topK, sv).Ok? <==>
                 forall i :: 0 <= i < |phrases| ==> Step(PhraseCalls(phrases, topK, sv)[i]).Ok?)
  {
    if messages != [] {
      var phrases := PhrasesOf(messages, chosen);
      GatheredSpec(PhraseCalls(phrases, topK, sv), Step);
    }
  }

  /** The vector documents answered have distinct uuids, are at most
      `top_k`, and each is in the reply to some phrase's query. */
  lemma RetrieveDocumentsVector(messages: seq<Message>, chosen: seq<nat>, topK: int, sv: Services, d: Document)
    requires SampleFits(messages, chosen) && ScoredText(sv.textSearch)
    requires RetrieveDocumentsOf(messages, chosen, topK, sv).Ok?
    ensures var r := RetrieveDocumentsOf(messages, chosen, topK, sv).value;
            var phrases := PhrasesOf(messages, chosen);
            && (forall i, j :: 0 <= i < j < |r.vectorDocs| ==> UuidOf(r.vectorDocs[i]) != UuidOf(r.vectorDocs[j]))
            && (topK >= 0 ==> |r.vectorDocs| <= topK)
            && (d in r.vectorDocs ==>
                  exists i :: 0 <= i < |phrases| && FromQuery(d, PhraseCalls(phrases, topK, sv)[i]))
  {
    var phrases := PhrasesOf(messages, chosen);
    var calls := PhraseCalls(phrases, topK, sv);
    var agg := Aggregated(phrases, topK, sv).value;
    TopOrderEnumerates(agg.0, topK);
    TopSourcesSpec(agg.0, topK, topK, TopOrder(agg.0, topK), d);
    var r := RetrieveDocumentsOf(messages, chosen, topK, sv).value;
    assert r.vectorDocs == TopSourcesOf(agg.0, topK, topK, TopOrder(agg.0, topK));
    if d in r.vectorDocs {
      var i := VectorDocSource(messages, chosen, topK, sv, d);
      assert FromQuery(d, PhraseCalls(phrases, topK, sv)[i]);
    }
  }

  /** A vector document answered comes from the reply to one phrase's
      query; the index of that phrase. */
  lemma VectorDocSource(messages: seq<Message>, chosen: seq<nat>, topK: int, sv: Services, d: Document)
    returns (i: nat)
    requires SampleFits(messages, chosen) && ScoredText(sv.textSearch)
    requires RetrieveDocumentsOf(messages, chosen, topK, sv).Ok?
    requires d in RetrieveDocumentsOf(messages, chosen, topK, sv).value.vectorDocs
    ensures i < |PhrasesOf(messages, chosen)|
    ensures FromQuery(d, PhraseCalls(PhrasesOf(messages, chosen), topK, sv)[i])
  {
    var phrases := PhrasesOf(messages, chosen);
    var calls := PhraseCalls(phrases, topK, sv);
    var agg := Aggregated(phrases, topK, sv).value;
    TopOrderEnumerates(agg.0, topK);
    TopSourcesSpec(agg.0, topK, topK, TopOrder(agg.0, topK), d);
    assert RetrieveDocumentsOf(messages, chosen, topK, sv).value.vectorDocs
           == TopSourcesOf(agg.0, topK, topK, TopOrder(agg.0, topK));
    assert d in agg.0;
    GatheredSpec(calls, Step);
    i :| 0 <= i < |calls| && d in Step(calls[i]).value.0;
    StepVector(calls[i]);
  }

  /** The text documents answered are sorted by descending score, at most
      `top_k`, and each comes from some phrase's full-text records. */
  lemma RetrieveDocumentsText(messages: seq<Message>, chosen: seq<nat>, topK: int, sv: Services, d: Document)
    requires SampleFits(messages, chosen) && ScoredText(sv.textSearch)
    requires RetrieveDocumentsOf(messages, chosen, topK, sv).Ok?
    ensures var r := RetrieveDocumentsOf(messages, chosen, topK, sv).value;
            var phrases := PhrasesOf(messages, chosen);
            && Sorted(r.textDocs, ByScoreDesc)
            && (topK >= 0 ==> |r.textDocs| <= topK)
            && (d in r.textDocs ==>
                  exists i :: 0 <= i < |phrases| && FromText(d, PhraseCalls(phrases, topK, sv)[i]))
  {
    var phrases := PhrasesOf(messages, chosen);
    var calls := PhraseCalls(phrases, topK, sv);
    var agg := Aggregated(phrases, topK, sv).value;
    GatheredComparable(phrases, topK, sv);
    SortByScoreSpec(agg.1, topK);
    if d in RetrieveDocumentsOf(messages, chosen, topK, sv).value.textDocs {
      GatheredSpec(calls, Step);
      var i :| 0 <= i < |calls| && d in Step(calls[i]).value.1;
      StepText(calls[i]);
    }
  }
}
