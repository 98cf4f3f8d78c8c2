// The retrieval nodes: the phrase fan-out of the agentic workflow (one
// vector query and one full-text query per phrase) and the single-node
// `retrieve_documents`, whose vector query falls back once from the
// keyword vector to the content vector.

module Retrieval {
  import opened Common
  import opened Documents
  import opened Dedup
  import opened Sorting
  import opened Ranking
  import opened TopSources
  import opened Combinations
  import opened WeaviateClient

  // ---------------------------------------------------------------------
  // Phrase lists
  // ---------------------------------------------------------------------

  /** `messages[-1].content` and `messages[0].content`; an empty history
      raises IndexError. */
  function LatestAndQuestion(messages: seq<Message>): Result<(string, string)> {
    if messages == [] then Err("IndexError")
    else Ok((messages[|messages| - 1].content, messages[0].content))
  }

  /** `query.split(",")` followed by the original question. */
  function KeywordList(query: string, question: string): seq<string> {
    Split(query, ',') + [question]
  }

  /** The list holds at least two phrases, ends with the question, and its
      other phrases are the comma pieces of the query. */
  lemma KeywordListSpec(query: string, question: string)
    ensures var r := KeywordList(query, question);
            && |r| >= 2
            && r[|r| - 1] == question
            && Join(",", r[..|r| - 1]) == query
  {
    var r := KeywordList(query, question);
    assert r[..|r| - 1] == Split(query, ',');
    JoinSplit(query, ',');
  }

  // ---------------------------------------------------------------------
  // Collecting per-phrase replies
  // ---------------------------------------------------------------------

  /** `extend` of an accumulator with the reply to each request in turn;
      the first exception propagates and stops the loop. */
  function Fetch<R>(reqs: seq<R>, f: R -> Result<seq<Document>>): Result<seq<Document>> {
    if reqs == [] then Ok([])
    else
      match Fetch(reqs[..|reqs| - 1], f)
      case Err(e) => Err(e)
      case Ok(acc) =>
        match f(reqs[|reqs| - 1])
        case Err(e) => Err(e)
        case Ok(docs) => Ok(acc + docs)
  }

  /** Collecting succeeds iff every reply does, and then holds exactly the
      documents of the replies. */
  lemma {:induction false} FetchSpec<R>(reqs: seq<R>, f: R -> Result<seq<Document>>, d: Document)
    ensures Fetch(reqs, f).Ok? <==> forall i :: 0 <= i < |reqs| ==> f(reqs[i]).Ok?
    ensures Fetch(reqs, f).Ok? ==>
              (d in Fetch(reqs, f).value <==> exists i :: 0 <= i < |reqs| && d in f(reqs[i]).value)
  {
    if reqs != [] {
      var init := reqs[..|reqs| - 1];
      var last := reqs[|reqs| - 1];
      FetchSpec(init, f, d);
      assert forall i :: 0 <= i < |init| ==> init[i] == reqs[i];
      if Fetch(reqs, f).Ok? {
        assert Fetch(reqs, f).value == Fetch(init, f).value + f(last).value;
        if exists i :: 0 <= i < |reqs| && d in f(reqs[i]).value {
          var i :| 0 <= i < |reqs| && d in f(reqs[i]).value;
          if i < |init| {
            assert d in f(init[i]).value;
          }
        }
      }
    }
  }

  /** One more request. */
  lemma FetchSnoc<R>(reqs: seq<R>, f: R -> Result<seq<Document>>, i: nat)
    requires i < |reqs|
    ensures Fetch(reqs[..i + 1], f) ==
              match Fetch(reqs[..i], f)
              case Err(e) => Err(e)
              case Ok(acc) =>
                match f(reqs[i])
                case Err(e) => Err(e)
                case Ok(docs) => Ok(acc + docs)
  {
    assert reqs[..i + 1][..i] == reqs[..i];
  }

  /** Once a reply fails, later requests change nothing. */
  lemma {:induction false} FetchErr<R>(reqs: seq<R>, f: R -> Result<seq<Document>>, i: nat)
    requires i <= |reqs| && Fetch(reqs[..i], f).Err?
    ensures Fetch(reqs, f) == Fetch(reqs[..i], f)
  {
    if i < |reqs| {
      var init := reqs[..|reqs| - 1];
      assert init[..i] == reqs[..i];
      FetchErr(init, f, i);
    } else {
      assert reqs[..i] == reqs;
    }
  }

  /** Replies that all carry numeric scores collect into a comparable
      list. */
  lemma FetchComparable<R>(reqs: seq<R>, f: R -> Result<seq<Document>>)
    requires forall i :: 0 <= i < |reqs| && f(reqs[i]).Ok? ==> Comparable(f(reqs[i]).value)
    ensures Fetch(reqs, f).Ok? ==> Comparable(Fetch(reqs, f).value)
  {
    if Fetch(reqs, f).Ok? {
      var r := Fetch(reqs, f).value;
      forall k | 0 <= k < |r|
        ensures ScoreValue(r[k]).Some?
      {
        FetchSpec(reqs, f, r[k]);
        assert r[k] in r;
        var i :| 0 <= i < |reqs| && r[k] in f(reqs[i]).value;
        var j :| 0 <= j < |f(reqs[i]).value| && f(reqs[i]).value[j] == r[k];
      }
    }
  }

  /** The request loop for replies that are plain functions of the
      request. */
  method FetchAll<R>(reqs: seq<R>, f: R -> Result<seq<Document>>) returns (r: Result<seq<Document>>)
    ensures r == Fetch(reqs, f)
  {
    var docs: seq<Document> := [];
    var i := 0;
    while i < |reqs|
      invariant 0 <= i <= |reqs|
      invariant Fetch(reqs[..i], f) == Ok(docs)
    {
      var response := f(reqs[i]);
      FetchSnoc(reqs, f, i);
      if response.Err? {
        FetchErr(reqs, f, i + 1);
        return Err(response.error);
      }
      docs := docs + response.value;
      i := i + 1;
    }
    assert reqs[..i] == reqs;
    r := Ok(docs);
  }

  // ---------------------------------------------------------------------
  // One hybrid query through the client
  // ---------------------------------------------------------------------

  /** The dict the hybrid query receives after `query_params` has written
      into the caller's dict `d`. */
  function Sent(d: Dict<string, Param>, embed: Param -> seq<int>): Dict<string, Param> {
    match Lookup(d, "query")
    case None => Prepared(d)
    case Some(q) => Put(Prepared(d), "vector", Vector(embed(q)))
  }

  /** The outcome of `query_params` on the caller's dict `d`. */
  function Attempt(d: Dict<string, Param>, embed: Param -> seq<int>,
                   hybrid: Dict<string, Param> -> Result<seq<WeaviateObject>>): Result<seq<Document>> {
    match Lookup(d, "query")
    case None => Err("KeyError")
    case Some(_) =>
      match hybrid(Sent(d, embed))
      case Err(e) => Err(e)
      case Ok(objs) => ConvertAll(objs, WeaviateDoc)
  }

  /** One call of the client's `query_params` on a fresh parameter dict. */
  method RunQuery(d: Dict<string, Param>, embed: Param -> seq<int>,
                  hybrid: Dict<string, Param> -> Result<seq<WeaviateObject>>)
    returns (r: Result<seq<Document>>, after: Dict<string, Param>)
    ensures r == Attempt(d, embed, hybrid)
    ensures after == Sent(d, embed)
  {
    var params := new QueryParams(d);
    r := params.Query(embed, hybrid);
    after := params.entries;
  }

  /** An object whose converted document has a numeric (or no) score. */
  predicate Scored(o: WeaviateObject) {
    WeaviateDoc(o).Ok? ==> ScoreValue(WeaviateDoc(o).value).Some?
  }

  /** Every object the hybrid query may return is scored. */
  ghost predicate ScoredHybrid(hybrid: Dict<string, Param> -> Result<seq<WeaviateObject>>) {
    forall d, o :: hybrid(d).Ok? && o in hybrid(d).value ==> Scored(o)
  }

  lemma AttemptComparable(d: Dict<string, Param>, embed: Param -> seq<int>,
                          hybrid: Dict<string, Param> -> Result<seq<WeaviateObject>>)
    requires ScoredHybrid(hybrid)
    ensures Attempt(d, embed, hybrid).Ok? ==> Comparable(Attempt(d, embed, hybrid).value)
  {
    var r := Attempt(d, embed, hybrid);
    if r.Ok? {
      var reply := hybrid(Sent(d, embed));
      assert reply.Ok?;
      var objs := reply.value;
      assert r == ConvertAll(objs, WeaviateDoc);
      forall k | 0 <= k < |r.value|
        ensures ScoreValue(r.value[k]).Some?
      {
        assert objs[k] in reply.value;
        assert Scored(objs[k]);
        assert r.value[k] == WeaviateDoc(objs[k]).value;
      }
    }
  }

  // ---------------------------------------------------------------------
  // nodes/retriever.py: the vector path
  // ---------------------------------------------------------------------

  /** The dict built for one phrase: query, limit, alpha, the keyword
      vector and the runtime embedding, then a filename filter when there
      are filenames to filter on. */
  function VectorParams(keyword: string, topK: int, filenames: seq<string>, vector: seq<int>): Dict<string, Param> {
    if filenames != [] then VectorBase(keyword, topK, vector) + [("filters", ContainsAny("filename", filenames))]
    else VectorBase(keyword, topK, vector)
  }

  function VectorBase(keyword: string, topK: int, vector: seq<int>): Dict<string, Param> {
    [("query", PValue(VStr(keyword))), ("limit", PValue(VNum(topK))), ("alpha", Alpha),
     ("target_vector", PValue(VStr("keywords_vector"))), ("vector", Vector(vector))]
  }

  /** The phrase's query goes out with the keyword vector, the requested
      limit and the client's own embedding of the phrase (the runtime
      embedding is overwritten), and carries a filename filter iff the
      filename list is non-empty. */
  lemma VectorParamsSpec(keyword: string, topK: int, filenames: seq<string>, vector: seq<int>, embed: Param -> seq<int>)
    ensures var s := Sent(VectorParams(keyword, topK, filenames, vector), embed);
            && Lookup(s, "query") == Some(PValue(VStr(keyword)))
            && Lookup(s, "limit") == Some(PValue(VNum(topK)))
            && Lookup(s, "target_vector") == Some(PValue(VStr("keywords_vector")))
            && Lookup(s, "vector") == Some(Vector(embed(PValue(VStr(keyword)))))
            && (Lookup(s, "filters").Some? <==> filenames != [])
            && (filenames != [] ==> Lookup(s, "filters") == Some(ContainsAny("filename", filenames)))
  {
    var d := VectorParams(keyword, topK, filenames, vector);
    VectorParamsReads(keyword, topK, filenames, vector);
    SentReads(d, embed);
    InjectedParams(d, embed(PValue(VStr(keyword))), "filters");
  }

  /** The dict as built, before the client writes into it. */
  lemma VectorParamsReads(keyword: string, topK: int, filenames: seq<string>, vector: seq<int>)
    ensures var d := VectorParams(keyword, topK, filenames, vector);
            && Lookup(d, "query") == Some(PValue(VStr(keyword)))
            && Lookup(d, "limit") == Some(PValue(VNum(topK)))
            && Lookup(d, "target_vector") == Some(PValue(VStr("keywords_vector")))
            && (filenames != [] ==> Lookup(d, "filters") == Some(ContainsAny("filename", filenames)))
            && (filenames == [] ==> Lookup(d, "filters") == None)
  {
    var d := VectorParams(keyword, topK, filenames, vector);
    if filenames != [] {
      FilteredReads(VectorBase(keyword, topK, vector), ContainsAny("filename", filenames));
    } else {
      BaseReads(keyword, topK, vector);
    }
    LookupAt(d, 0);
    LookupAt(d, 1);
    LookupAt(d, 3);
  }

  lemma BaseReads(keyword: string, topK: int, vector: seq<int>)
    ensures Keys(VectorBase(keyword, topK, vector)) == ["query", "limit", "alpha", "target_vector", "vector"]
    ensures Distinct(Keys(VectorBase(keyword, topK, vector)))
  {
    assert Keys(VectorBase(keyword, topK, vector)) == ["query", "limit", "alpha", "target_vector", "vector"];
  }

  lemma FilteredReads(base: Dict<string, Param>, f: Param)
    requires Keys(base) == ["query", "limit", "alpha", "target_vector", "vector"]
    ensures Keys(base + [("filters", f)]) == ["query", "limit", "alpha", "target_vector", "vector", "filters"]
    ensures Distinct(Keys(base + [("filters", f)]))
    ensures Lookup(base + [("filters", f)], "filters") == Some(f)
  {
    var d := base + [("filters", f)];
    assert Keys(d) == ["query", "limit", "alpha", "target_vector", "vector", "filters"];
    LookupAt(d, 5);
  }

  /** A request to the client: the caller's dict and the two services the
      client calls. */
  datatype Call = Call(params: Dict<string, Param>, embed: Param -> seq<int>,
                       hybrid: Dict<string, Param> -> Result<seq<WeaviateObject>>)

  function AttemptCall(c: Call): Result<seq<Document>> {
    Attempt(c.params, c.embed, c.hybrid)
  }

  /** One request per phrase, in phrase order. */
  function VectorCalls(phrases: seq<string>, topK: int, filenames: seq<string>, runtimeEmbed: string -> seq<int>,
                       embed: Param -> seq<int>, hybrid: Dict<string, Param> -> Result<seq<WeaviateObject>>)
    : (r: seq<Call>)
    ensures |r| == |phrases|
    ensures forall i :: 0 <= i < |phrases| ==>
              r[i] == Call(VectorParams(phrases[i], topK, filenames, runtimeEmbed(phrases[i])), embed, hybrid)
  {
    seq(|phrases|, i requires 0 <= i < |phrases| =>
      Call(VectorParams(phrases[i], topK, filenames, runtimeEmbed(phrases[i])), embed, hybrid))
  }

  lemma CallsComparable(calls: seq<Call>, hybrid: Dict<string, Param> -> Result<seq<WeaviateObject>>)
    requires ScoredHybrid(hybrid)
    requires forall i :: 0 <= i < |calls| ==> calls[i].hybrid == hybrid
    ensures Fetch(calls, AttemptCall).Ok? ==> Comparable(Fetch(calls, AttemptCall).value)
  {
    forall i | 0 <= i < |calls| && AttemptCall(calls[i]).Ok?
      ensures Comparable(AttemptCall(calls[i]).value)
    {
      AttemptComparable(calls[i].params, calls[i].embed, hybrid);
    }
    FetchComparable(calls, AttemptCall);
  }

  /** What `retrieve_documents_by_vector_search` returns. */
  function VectorSearchResult(messages: seq<Message>, filenames: seq<string>, topK: int,
                              runtimeEmbed: string -> seq<int>, embed: Param -> seq<int>,
                              hybrid: Dict<string, Param> -> Result<seq<WeaviateObject>>): Result<seq<Document>>
    requires ScoredHybrid(hybrid)
  {
    match LatestAndQuestion(messages)
    case Err(e) => Err(e)
    case Ok(qs) =>
      var calls := VectorCalls(KeywordList(qs.0, qs.1), topK, filenames, runtimeEmbed, embed, hybrid);
      CallsComparable(calls, hybrid);
      match Fetch(calls, AttemptCall)
      case Err(e) => Err(e)
      case Ok(docs) => Ok(SortByScore(docs, topK))
  }

  /** The phrase loop of the vector path: one client query per request. */
  method QueryAll(calls: seq<Call>) returns (r: Result<seq<Document>>)
    ensures r == Fetch(calls, AttemptCall)
  {
    var docs: seq<Document> := [];
    var i := 0;
    while i < |calls|
      invariant 0 <= i <= |calls|
      invariant Fetch(calls[..i], AttemptCall) == Ok(docs)
    {
      var response, _ := RunQuery(calls[i].params, calls[i].embed, calls[i].hybrid);
      assert response == AttemptCall(calls[i]);
      FetchSnoc(calls, AttemptCall, i);
      if response.Err? {
        FetchErr(calls, AttemptCall, i + 1);
        return Err(response.error);
      }
      docs := docs + response.value;
      i := i + 1;
    }
    assert calls[..i] == calls;
    r := Ok(docs);
  }

  /** `retrieve_documents_by_vector_search`: one client query per phrase,
      the replies collected, then sorted, cut to `top_k` and deduplicated. */
  method RetrieveByVectorSearch(messages: seq<Message>, filenames: seq<string>, topK: int,
                                runtimeEmbed: string -> seq<int>, embed: Param -> seq<int>,
                                hybrid: Dict<string, Param> -> Result<seq<WeaviateObject>>)
    returns (r: Result<seq<Document>>)
    requires ScoredHybrid(hybrid)
    ensures r == VectorSearchResult(messages, filenames, topK, runtimeEmbed, embed, hybrid)
  {
    if messages == [] {
      return Err("IndexError");
    }
    var keywords := KeywordList(messages[|messages| - 1].content, messages[0].content);
    assert LatestAndQuestion(messages) == Ok((messages[|messages| - 1].content, messages[0].content));
    var calls := VectorCalls(keywords, topK, filenames, runtimeEmbed, embed, hybrid);
    var gathered := QueryAll(calls);
    CallsComparable(calls, hybrid);
    if gathered.Err? {
      return Err(gathered.error);
    }
    r := Ok(SortByScore(gathered.value, topK));
  }

  // ---------------------------------------------------------------------
  // nodes/retriever.py: the full-text path
  // ---------------------------------------------------------------------

  /** The arguments of one full-text search. */
  datatype FullTextRequest = FullTextRequest(query: string, filenames: seq<string>, limit: int)

  /** One call of the database manager's full-text search: its arguments, the
      search behind it (which may raise; an `Err` names the exception) and
      the number of parameters the called method declares after `self`. */
  datatype TextCall = TextCall(request: FullTextRequest, search: FullTextRequest -> Result<seq<Document>>,
                               declared: nat)

  /** The positional arguments the full-text node passes after `self`: the
      database, the collection, the phrase, the filenames and top_k. */
  const FullTextSearchArgs: nat := 5

  /** The parameters `MongoDBManager.full_text_search` declares after
      `self`: db_name, collection_name, query and top_k. */
  const FullTextSearchParams: nat := 4

  /** Python binds the positional arguments before the body runs: more
      arguments than declared parameters raise TypeError and the database is
      never asked. */
  function SearchCall(c: TextCall): Result<seq<Document>> {
    if FullTextSearchArgs > c.declared then Err("TypeError") else c.search(c.request)
  }

  function TextCalls(phrases: seq<string>, filenames: seq<string>, topK: int,
                     search: FullTextRequest -> Result<seq<Document>>, declared: nat)
    : (r: seq<TextCall>)
    ensures |r| == |phrases|
    ensures forall i :: 0 <= i < |phrases| ==>
              r[i] == TextCall(FullTextRequest(phrases[i], filenames, topK), search, declared)
  {
    seq(|phrases|, i requires 0 <= i < |phrases| =>
      TextCall(FullTextRequest(phrases[i], filenames, topK), search, declared))
  }

  /** Every document a successful full-text search returns is scored. */
  ghost predicate ScoredSearch(search: FullTextRequest -> Result<seq<Document>>) {
    forall q :: search(q).Ok? ==> Comparable(search(q).value)
  }

  /** What `retrieve_documents_by_fulltext_search` returns when the manager's
      full-text search declares `declared` parameters after `self`. */
  function FullTextSearchResult(declared: nat, messages: seq<Message>, filenames: seq<string>, topK: int,
                                search: FullTextRequest -> Result<seq<Document>>): Result<seq<Document>>
    requires ScoredSearch(search)
  {
    match LatestAndQuestion(messages)
    case Err(e) => Err(e)
    case Ok(qs) =>
      var calls := TextCalls(KeywordList(qs.0, qs.1), filenames, topK, search, declared);
      FetchComparable(calls, SearchCall);
      match Fetch(calls, SearchCall)
      case Err(e) => Err(e)
      case Ok(docs) => Ok(SortByScore(docs, topK))
  }

  /** `retrieve_documents_by_fulltext_search`. */
  method RetrieveByFulltextSearch(declared: nat, messages: seq<Message>, filenames: seq<string>, topK: int,
                                  search: FullTextRequest -> Result<seq<Document>>)
    returns (r: Result<seq<Document>>)
    requires ScoredSearch(search)
    ensures r == FullTextSearchResult(declared, messages, filenames, topK, search)
  {
    if messages == [] {
      return Err("IndexError");
    }
    var keywords := KeywordList(messages[|messages| - 1].content, messages[0].content);
    var calls := TextCalls(keywords, filenames, topK, search, declared);
    var gathered := FetchAll(calls, SearchCall);
    if gathered.Err? {
      return Err(gathered.error);
    }
    FetchComparable(calls, SearchCall);
    r := Ok(SortByScore(gathered.value, topK));
  }

  /** As written, the node passes five positional arguments to a search that
      declares four: on any non-empty history the first phrase's call raises
      TypeError, and the node raises it. */
  lemma FullTextAsWrittenRaises(messages: seq<Message>, filenames: seq<string>, topK: int,
                                search: FullTextRequest -> Result<seq<Document>>)
    requires ScoredSearch(search)
    requires messages != []
    ensures FullTextSearchResult(FullTextSearchParams, messages, filenames, topK, search) == Err("TypeError")
  {
    var phrases := KeywordList(messages[|messages| - 1].content, messages[0].content);
    KeywordListSpec(messages[|messages| - 1].content, messages[0].content);
    var calls := TextCalls(phrases, filenames, topK, search, FullTextSearchParams);
    assert calls[..0] == [];
    FetchSnoc(calls, SearchCall, 0);
    FetchErr(calls, SearchCall, 1);
  }

  /** d is among the documents the client returns for the dict. */
  predicate InReply(d: Document, params: Dict<string, Param>, embed: Param -> seq<int>,
                    hybrid: Dict<string, Param> -> Result<seq<WeaviateObject>>) {
    Attempt(params, embed, hybrid).Ok? && d in Attempt(params, embed, hybrid).value
  }

  /** Both search paths fail with an IndexError on an empty history, when
      the last message is looked up. */
  lemma SearchPathsEmpty(declared: nat, filenames: seq<string>, topK: int,
                         runtimeEmbed: string -> seq<int>, embed: Param -> seq<int>,
                         hybrid: Dict<string, Param> -> Result<seq<WeaviateObject>>,
                         search: FullTextRequest -> Result<seq<Document>>)
    requires ScoredHybrid(hybrid) && ScoredSearch(search)
    ensures VectorSearchResult([], filenames, topK, runtimeEmbed, embed, hybrid) == Err("IndexError")
    ensures FullTextSearchResult(declared, [], filenames, topK, search) == Err("IndexError")
  {
  }

  /** With a search that accepts every argument the node passes, the
      full-text path succeeds iff every phrase's search does; its documents
      are then ordered by score, capped at top_k, and each comes from one
      phrase's search. */
  lemma FullTextPathSpec(declared: nat, messages: seq<Message>, filenames: seq<string>, topK: int,
                         search: FullTextRequest -> Result<seq<Document>>, d: Document)
    requires ScoredSearch(search)
    requires messages != []
    requires declared >= FullTextSearchArgs
    ensures var phrases := KeywordList(messages[|messages| - 1].content, messages[0].content);
            var v := FullTextSearchResult(declared, messages, filenames, topK, search);
            && (v.Ok? <==> forall i :: 0 <= i < |phrases| ==> search(FullTextRequest(phrases[i], filenames, topK)).Ok?)
            && (v.Ok? ==>
                  && Sorted(v.value, ByScoreDesc)
                  && (topK >= 0 ==> |v.value| <= topK)
                  && (d in v.value ==>
                        exists i :: 0 <= i < |phrases| && d in search(FullTextRequest(phrases[i], filenames, topK)).value))
  {
    var phrases := KeywordList(messages[|messages| - 1].content, messages[0].content);
    var tcalls := TextCalls(phrases, filenames, topK, search, declared);
    FetchSpec(tcalls, SearchCall, d);
    FetchComparable(tcalls, SearchCall);
    if Fetch(tcalls, SearchCall).Ok? {
      var docs := Fetch(tcalls, SearchCall).value;
      SortByScoreSpec(docs, topK);
      if d in SortByScore(docs, topK) {
        var i :| 0 <= i < |tcalls| && d in SearchCall(tcalls[i]).value;
      }
    }
  }

  /** A successful vector path is ordered by score, capped at top_k, free of
      repeated truthy uuids, and each object is in the reply to one keyword's
      query. */
  lemma VectorPathSpec(messages: seq<Message>, filenames: seq<string>, topK: int,
                       runtimeEmbed: string -> seq<int>, embed: Param -> seq<int>,
                       hybrid: Dict<string, Param> -> Result<seq<WeaviateObject>>, d: Document)
    requires ScoredHybrid(hybrid)
    requires messages != []
    ensures var v := VectorSearchResult(messages, filenames, topK, runtimeEmbed, embed, hybrid);
            v.Ok? ==>
              var phrases := KeywordList(messages[|messages| - 1].content, messages[0].content);
              && Sorted(v.value, ByScoreDesc)
              && (topK >= 0 ==> |v.value| <= topK)
              && (forall i, j :: 0 <= i < j < |v.value| && Truthy(UuidKey(v.value[i])) ==> UuidKey(v.value[i]) != UuidKey(v.value[j]))
              && (d in v.value ==>
                    exists i :: 0 <= i < |phrases| && InReply(d, VectorParams(phrases[i], topK, filenames, runtimeEmbed(phrases[i])), embed, hybrid))
  {
    var phrases := KeywordList(messages[|messages| - 1].content, messages[0].content);
    var vcalls := VectorCalls(phrases, topK, filenames, runtimeEmbed, embed, hybrid);
    FetchSpec(vcalls, AttemptCall, d);
    CallsComparable(vcalls, hybrid);
    if Fetch(vcalls, AttemptCall).Ok? {
      var vdocs := Fetch(vcalls, AttemptCall).value;
      SortByScoreSpec(vdocs, topK);
      if d in SortByScore(vdocs, topK) {
        var i :| 0 <= i < |vcalls| && d in AttemptCall(vcalls[i]).value;
        assert InReply(d, vcalls[i].params, embed, hybrid);
      }
    }
  }

  // ---------------------------------------------------------------------
  // retriever_node.py: retrieve_documents
  // ---------------------------------------------------------------------

  /** The split pieces, one sampled combination of them, then the original
      question. */
  function RetrievalPhrases(query: string, question: string, chosen: seq<nat>): seq<string>
    requires ValidSample(chosen, Pow2(|Split(query, ',')|) - 1, 1)
  {
    var pieces := Split(query, ',');
    pieces + [AllCombos(pieces)[chosen[0]]] + [question]
  }

  /** The phrase list has the pieces, which rejoin to the query, then the
      space-joined pieces at some non-empty increasing run of positions,
      then the question. */
  lemma RetrievalPhrasesSpec(query: string, question: string, chosen: seq<nat>)
    requires ValidSample(chosen, Pow2(|Split(query, ',')|) - 1, 1)
    ensures var pieces := Split(query, ',');
            var r := RetrievalPhrases(query, question, chosen);
            && |r| == |pieces| + 2
            && Join(",", r[..|pieces|]) == query
            && r[|r| - 1] == question
            && exists t :: 1 <= |t| <= |pieces| && IsComb(t, 0, |pieces|, |t|) && r[|pieces|] == ComboString(pieces, t)
  {
    var pieces := Split(query, ',');
    var r := RetrievalPhrases(query, question, chosen);
    assert r[..|pieces|] == pieces;
    JoinSplit(query, ',');
    var n := |pieces|;
    IndexCombosCount(n, n);
    BinomRow(n);
    var t := IndexCombos(n, n)[chosen[0]];
    IndexCombosSpec(n, n);
    assert t in IndexCombos(n, n);
    assert r[n] == ComboString(pieces, t);
  }

  /** `keywords` of `retrieve_documents`, with `random.sample` drawing
      `chosen`. */
  method Keywords(query: string, question: string, chosen: seq<nat>) returns (phrases: seq<string>)
    requires ValidSample(chosen, Pow2(|Split(query, ',')|) - 1, 1)
    ensures phrases == RetrievalPhrases(query, question, chosen)
  {
    phrases := Split(query, ',');
    var combos := SampleCombinations(phrases, 1, chosen);
    phrases := phrases + combos.value;
    phrases := phrases + [question];
  }

  /** The parameters `retrieve_documents` builds for a phrase (the source
      filter is never added: its source name is always None). */
  function InitialParams(keyword: string, topK: int): Dict<string, Param> {
    [("query", PValue(VStr(keyword))), ("limit", PValue(VNum(topK))), ("alpha", Alpha),
     ("target_vector", PValue(VStr("keywords_vector")))]
  }

  /** The caller's dict after the failed query, retargeted at the content
      vector. */
  function Retargeted(d: Dict<string, Param>, embed: Param -> seq<int>): Dict<string, Param> {
    Put(Sent(d, embed), "target_vector", PValue(VStr("content_vector")))
  }

  /** The query on the caller's dict, or, when it raises, the one retry on
      the content vector. */
  function FallbackFetch(d: Dict<string, Param>, embed: Param -> seq<int>,
                         hybrid: Dict<string, Param> -> Result<seq<WeaviateObject>>): Result<seq<Document>> {
    if Attempt(d, embed, hybrid).Ok? then Attempt(d, embed, hybrid) else Attempt(Retargeted(d, embed), embed, hybrid)
  }

  /** The dicts the hybrid query receives, in order. */
  function FallbackRequests(d: Dict<string, Param>, embed: Param -> seq<int>,
                            hybrid: Dict<string, Param> -> Result<seq<WeaviateObject>>): seq<Dict<string, Param>> {
    if Attempt(d, embed, hybrid).Ok? then [Sent(d, embed)]
    else [Sent(d, embed), Sent(Retargeted(d, embed), embed)]
  }

  /** The query for a phrase; when it raises, the same dict (already
      written into by the client) is retargeted and queried once more, and
      a second exception propagates. */
  method QueryWithFallback(d: Dict<string, Param>, embed: Param -> seq<int>,
                           hybrid: Dict<string, Param> -> Result<seq<WeaviateObject>>)
    returns (r: Result<seq<Document>>, sent: seq<Dict<string, Param>>)
    requires Lookup(d, "query").Some?
    ensures r == FallbackFetch(d, embed, hybrid)
    ensures sent == FallbackRequests(d, embed, hybrid)
  {
    var params := new QueryParams(d);
    r := QueryOn(params, embed, hybrid);
    sent := [params.entries];
    FallbackBranches(d, embed, hybrid);
    if r.Err? {
      params.entries := Put(params.entries, "target_vector", PValue(VStr("content_vector")));
      r := QueryOn(params, embed, hybrid);
      sent := sent + [params.entries];
    }
  }

  /** The two branches of the fallback, one call at a time. */
  lemma FallbackBranches(d: Dict<string, Param>, embed: Param -> seq<int>,
                         hybrid: Dict<string, Param> -> Result<seq<WeaviateObject>>)
    ensures Attempt(d, embed, hybrid).Ok? ==>
              && FallbackFetch(d, embed, hybrid) == Attempt(d, embed, hybrid)
              && FallbackRequests(d, embed, hybrid) == [Sent(d, embed)]
    ensures Attempt(d, embed, hybrid).Err? ==>
              && FallbackFetch(d, embed, hybrid) == Attempt(Retargeted(d, embed), embed, hybrid)
              && FallbackRequests(d, embed, hybrid) == [Sent(d, embed)] + [Sent(Retargeted(d, embed), embed)]
  {
  }

  /** `query_params` on a parameter object, in terms of the dict it held. */
  method QueryOn(params: QueryParams, embed: Param -> seq<int>,
                 hybrid: Dict<string, Param> -> Result<seq<WeaviateObject>>)
    returns (r: Result<seq<Document>>)
    modifies params
    ensures r == Attempt(old(params.entries), embed, hybrid)
    ensures params.entries == Sent(old(params.entries), embed)
  {
    r := params.Query(embed, hybrid);
  }

  /** The fresh dict reads the phrase, the limit and the keyword vector. */
  lemma InitialReads(keyword: string, topK: int)
    ensures var d := InitialParams(keyword, topK);
            && Lookup(d, "query") == Some(PValue(VStr(keyword)))
            && Lookup(d, "limit") == Some(PValue(VNum(topK)))
            && Lookup(d, "target_vector") == Some(PValue(VStr("keywords_vector")))
  {
    var d := InitialParams(keyword, topK);
    assert Keys(d) == ["query", "limit", "alpha", "target_vector"];
    assert Distinct(Keys(d));
    LookupAt(d, 0);
    LookupAt(d, 1);
    LookupAt(d, 3);
  }

  /** What the client writes: the embedding of the query under "vector";
      the query, the limit and the target read as before. */
  lemma SentReads(d: Dict<string, Param>, embed: Param -> seq<int>)
    requires Lookup(d, "query").Some?
    ensures var s := Sent(d, embed);
            && Lookup(s, "vector") == Some(Vector(embed(Lookup(d, "query").value)))
            && Lookup(s, "query") == Lookup(d, "query")
            && Lookup(s, "limit") == Lookup(d, "limit")
            && Lookup(s, "target_vector") == Lookup(d, "target_vector")
  {
    var v := embed(Lookup(d, "query").value);
    InjectedParams(d, v, "vector");
    InjectedParams(d, v, "query");
    InjectedParams(d, v, "limit");
    InjectedParams(d, v, "target_vector");
  }

  /** Retargeting changes the target only. */
  lemma RetargetedReads(d: Dict<string, Param>, embed: Param -> seq<int>)
    requires Lookup(d, "query").Some?
    ensures var t := Retargeted(d, embed);
            && Lookup(t, "target_vector") == Some(PValue(VStr("content_vector")))
            && Lookup(t, "query") == Lookup(d, "query")
            && Lookup(t, "limit") == Lookup(d, "limit")
  {
    var s := Sent(d, embed);
    SentReads(d, embed);
    PutLookup(s, "target_vector", PValue(VStr("content_vector")), "query");
    PutLookup(s, "target_vector", PValue(VStr("content_vector")), "limit");
    PutLookup(s, "target_vector", PValue(VStr("content_vector")), "target_vector");
  }

  /** A failed query is retried exactly once, and the outcome is the reply
      to the last query sent. */
  lemma FallbackShape(d: Dict<string, Param>, embed: Param -> seq<int>,
                      hybrid: Dict<string, Param> -> Result<seq<WeaviateObject>>)
    requires Lookup(d, "query").Some?
    ensures var reqs := FallbackRequests(d, embed, hybrid);
            && 1 <= |reqs| <= 2
            && (|reqs| == 2 <==> Attempt(d, embed, hybrid).Err?)
            && FallbackFetch(d, embed, hybrid) ==
                 match hybrid(reqs[|reqs| - 1])
                 case Err(e) => Err(e)
                 case Ok(objs) => ConvertAll(objs, WeaviateDoc)
  {
    var reqs := FallbackRequests(d, embed, hybrid);
    if Attempt(d, embed, hybrid).Err? {
      assert reqs[1] == Sent(Retargeted(d, embed), embed);
      RetargetedReads(d, embed);
      assert Lookup(Retargeted(d, embed), "query").Some?;
    } else {
      assert reqs[0] == Sent(d, embed);
    }
  }

  /** Both queries carry the caller's query and limit and the client's
      embedding of the query; the first keeps the caller's target and the
      retry targets the content vector. */
  lemma FallbackReads(d: Dict<string, Param>, embed: Param -> seq<int>,
                      hybrid: Dict<string, Param> -> Result<seq<WeaviateObject>>)
    requires Lookup(d, "query").Some?
    ensures var reqs := FallbackRequests(d, embed, hybrid);
            && Lookup(reqs[0], "query") == Lookup(d, "query")
            && Lookup(reqs[0], "limit") == Lookup(d, "limit")
            && Lookup(reqs[0], "vector") == Some(Vector(embed(Lookup(d, "query").value)))
            && Lookup(reqs[0], "target_vector") == Lookup(d, "target_vector")
    ensures var reqs := FallbackRequests(d, embed, hybrid);
            |reqs| == 2 ==>
              && Lookup(reqs[1], "query") == Lookup(d, "query")
              && Lookup(reqs[1], "limit") == Lookup(d, "limit")
              && Lookup(reqs[1], "vector") == Some(Vector(embed(Lookup(d, "query").value)))
              && Lookup(reqs[1], "target_vector") == Some(PValue(VStr("content_vector")))
  {
    var reqs := FallbackRequests(d, embed, hybrid);
    var s := Sent(d, embed);
    var t := Retargeted(d, embed);
    assert reqs[0] == s;
    SentReads(d, embed);
    if |reqs| == 2 {
      assert reqs[1] == Sent(t, embed);
      RetargetedReads(d, embed);
      SentReads(t, embed);
    }
  }
}
