/** The Weaviate client manager: turning query results into documents,
    preparing the caller's hybrid-query parameters in place, and the
    existence guard in front of collection creation. The database itself,
    the embedding service and the hybrid search are parameters. */
module WeaviateClient {
  import opened Common
  import opened Documents

  /** The query metadata Weaviate attaches to a result object; scores and
      distances are integers in this model. */
  datatype ObjectMeta = ObjectMeta(distance: Option<int>, score: Option<int>)

  /** A Weaviate result object: its properties, its uuid (already rendered
      with `str`) and its optional query metadata. */
  datatype WeaviateObject = WeaviateObject(properties: Record, uuid: string, metadata: Option<ObjectMeta>)

  /** `metadata[k] = v` when the object carries a non-None value for k. */
  function AddIfPresent(m: Meta, k: string, v: Option<int>): Meta {
    if v.Some? then m[k := VNum(v.value)] else m
  }

  /** The distance and score the object's metadata carries, if any. */
  function Distance(obj: WeaviateObject): Option<int> {
    if obj.metadata.Some? then obj.metadata.value.distance else None
  }

  function Score(obj: WeaviateObject): Option<int> {
    if obj.metadata.Some? then obj.metadata.value.score else None
  }

  /** The metadata `_processing_query_returns` builds for one object. */
  function WeaviateMeta(obj: WeaviateObject): Meta {
    var m := CopiedMeta(obj.properties)["weaviate_uuid" := VStr(obj.uuid)];
    AddIfPresent(AddIfPresent(m, "distance", Distance(obj)), "score", Score(obj))
  }

  /** The document `_processing_query_returns` builds for one object. */
  function WeaviateDoc(obj: WeaviateObject): Result<Document> {
    match PageContent(obj.properties)
    case Err(e) => Err(e)
    case Ok(c) => Ok(Document(c, WeaviateMeta(obj)))
  }

  /** The metadata always carries the object's uuid and never "content"
      or "filename". A non-None distance (score) from the query metadata
      is stored under "distance" ("score"); otherwise that key is present
      only if a property of that name was copied. */
  lemma WeaviateMetaShape(obj: WeaviateObject)
    ensures WeaviateMeta(obj)["weaviate_uuid"] == VStr(obj.uuid)
    ensures "content" !in WeaviateMeta(obj) && "filename" !in WeaviateMeta(obj)
    ensures "distance" in WeaviateMeta(obj) <==> Distance(obj).Some? || LastStored(obj.properties, "distance").Some?
    ensures Distance(obj).Some? ==> WeaviateMeta(obj)["distance"] == VNum(Distance(obj).value)
    ensures "score" in WeaviateMeta(obj) <==> Score(obj).Some? || LastStored(obj.properties, "score").Some?
    ensures Score(obj).Some? ==> WeaviateMeta(obj)["score"] == VNum(Score(obj).value)
  {
    var c := CopiedMeta(obj.properties);
    CopiedMetaKeys(obj.properties);
    CopiedMetaAt(obj.properties, "distance");
    CopiedMetaAt(obj.properties, "score");
    var m0 := c["weaviate_uuid" := VStr(obj.uuid)];
    var m1 := AddIfPresent(m0, "distance", Distance(obj));
    assert "distance" in m0 <==> "distance" in c;
    assert "score" in m1 <==> "score" in c;
  }

  /** One document per object, with the object's content. */
  lemma WeaviateDocContent(obj: WeaviateObject)
    ensures WeaviateDoc(obj).Ok? <==> PageContent(obj.properties).Ok?
    ensures WeaviateDoc(obj).Ok? ==> WeaviateDoc(obj).value == Document(PageContent(obj.properties).value, WeaviateMeta(obj))
  {
  }

  /** The metadata of one object: its properties copied, then the uuid,
      the distance and the score. */
  method ObjectMetadata(obj: WeaviateObject) returns (metadata: Meta)
    ensures metadata == WeaviateMeta(obj)
  {
    metadata := CopyProperties(obj.properties);
    metadata := metadata["weaviate_uuid" := VStr(obj.uuid)];
    ghost var withUuid := metadata;
    if obj.metadata.Some? && obj.metadata.value.distance.Some? {
      metadata := metadata["distance" := VNum(obj.metadata.value.distance.value)];
    }
    assert metadata == AddIfPresent(withUuid, "distance", Distance(obj));
    if obj.metadata.Some? && obj.metadata.value.score.Some? {
      metadata := metadata["score" := VNum(obj.metadata.value.score.value)];
    }
  }

  /** The object loop of `_processing_query_returns`. */
  method ProcessQueryReturns(objs: seq<WeaviateObject>) returns (r: Result<seq<Document>>)
    ensures r == ConvertAll(objs, WeaviateDoc)
  {
    var docs: seq<Document> := [];
    var i := 0;
    while i < |objs|
      invariant 0 <= i <= |objs|
      invariant ConvertAll(objs[..i], WeaviateDoc) == Ok(docs)
    {
      var obj := objs[i];
      var content := PageContent(obj.properties);
      if content.Err? {
        ConvertAllStop(objs, i, |objs|, WeaviateDoc);
        assert objs[..|objs|] == objs;
        return Err(content.error);
      }
      var metadata := ObjectMetadata(obj);
      assert WeaviateDoc(obj) == Ok(Document(content.value, metadata));
      ConvertAllSnoc(objs, i, WeaviateDoc);
      docs := docs + [Document(content.value, metadata)];
      i := i + 1;
    }
    assert objs[..i] == objs;
    r := Ok(docs);
  }

  // ---------------------------------------------------------------------
  // Hybrid-query parameters
  // ---------------------------------------------------------------------

  /** A value in the keyword arguments of a hybrid query. */
  datatype Param =
    | PValue(v: Value)
    | ReturnMetadata(score: bool, explainScore: bool)
    | Bm25Or(minimumMatch: nat)
    | Vector(embedding: seq<int>)
    | Alpha                                        // the hybrid weighting, a float left uninterpreted
    | ContainsAny(property: string, values: seq<string>)   // `Filter.by_property(p).contains_any(vs)`

  /** The two settings every query gets before the embedding is requested. */
  function Prepared(d: Dict<string, Param>): Dict<string, Param> {
    Put(Put(d, "return_metadata", ReturnMetadata(true, true)), "bm25_operator", Bm25Or(2))
  }

  /** The caller's parameter dict, which `query_params` changes in place. */
  class QueryParams {
    var entries: Dict<string, Param>

    constructor (initial: Dict<string, Param>)
      ensures entries == initial
    {
      entries := initial;
    }

    /** `query_params`: sets the metadata request and the BM25 operator,
        embeds `params["query"]` into "vector" (a missing query raises
        KeyError after the first two writes), then runs the hybrid query
        and converts its objects. */
    method Query(embed: Param -> seq<int>, hybrid: Dict<string, Param> -> Result<seq<WeaviateObject>>)
      returns (r: Result<seq<Document>>)
      modifies this
      ensures "query" !in Keys(old(entries)) ==> entries == Prepared(old(entries)) && r == Err("KeyError")
      ensures "query" in Keys(old(entries)) ==>
                var q := Lookup(old(entries), "query").value;
                && entries == Put(Prepared(old(entries)), "vector", Vector(embed(q)))
                && r == (match hybrid(entries)
                         case Err(e) => Err(e)
                         case Ok(objs) => ConvertAll(objs, WeaviateDoc))
    {
      entries := Put(entries, "return_metadata", ReturnMetadata(true, true));
      entries := Put(entries, "bm25_operator", Bm25Or(2));
      PutLookup(old(entries), "return_metadata", ReturnMetadata(true, true), "query");
      PutLookup(Put(old(entries), "return_metadata", ReturnMetadata(true, true)), "bm25_operator", Bm25Or(2), "query");
      var query := Lookup(entries, "query");
      if query.None? {
        return Err("KeyError");
      }
      entries := Put(entries, "vector", Vector(embed(query.value)));
      var response := hybrid(entries);
      if response.Err? {
        return Err(response.error);
      }
      r := ProcessQueryReturns(response.value);
    }
  }

  /** After the injection the three keys hold the client's values, whatever
      the caller put there (a caller-supplied vector included), and every
      other parameter reads as the caller left it. */
  lemma InjectedParams(d: Dict<string, Param>, v: seq<int>, k: string)
    ensures var e := Put(Prepared(d), "vector", Vector(v));
            && Lookup(e, "return_metadata") == Some(ReturnMetadata(true, true))
            && Lookup(e, "bm25_operator") == Some(Bm25Or(2))
            && Lookup(e, "vector") == Some(Vector(v))
            && (k != "return_metadata" && k != "bm25_operator" && k != "vector" ==> Lookup(e, k) == Lookup(d, k))
  {
    var d1 := Put(d, "return_metadata", ReturnMetadata(true, true));
    var d2 := Put(d1, "bm25_operator", Bm25Or(2));
    PutLookup(d, "return_metadata", ReturnMetadata(true, true), k);
    PutLookup(d1, "bm25_operator", Bm25Or(2), k);
    PutLookup(d2, "vector", Vector(v), k);
    PutLookup(d, "return_metadata", ReturnMetadata(true, true), "return_metadata");
    PutLookup(d1, "bm25_operator", Bm25Or(2), "return_metadata");
    PutLookup(d2, "vector", Vector(v), "return_metadata");
    PutLookup(d1, "bm25_operator", Bm25Or(2), "bm25_operator");
    PutLookup(d2, "vector", Vector(v), "bm25_operator");
    PutLookup(d2, "vector", Vector(v), "vector");
  }

  // ---------------------------------------------------------------------
  // Collections
  // ---------------------------------------------------------------------

  /** The manager, reduced to the set of collection names the database
      holds. */
  class WeaviateClientManager {
    var collections: set<string>

    constructor (existing: set<string>)
      ensures collections == existing
    {
      collections := existing;
    }

    method CheckCollectionExistence(name: string) returns (b: bool)
      ensures b <==> name in collections
    {
      b := name in collections;
    }

    /** `create_collection`: an existing collection is reported and left
        alone; otherwise the database either creates it or fails with the
        reason `failure` and nothing is created. */
    method CreateCollection(name: string, failure: Option<string>) returns (ok: bool, msg: string)
      modifies this
      ensures name in old(collections) ==>
                !ok && msg == "Collection already exist in databse" && collections == old(collections)
      ensures name !in old(collections) && failure.Some? ==>
                !ok && msg == "Can't create collection : " + name + " due to " + failure.value
                && collections == old(collections)
      ensures name !in old(collections) && failure.None? ==>
                ok && msg == name + " successfully created" && collections == old(collections) + {name}
      ensures ok <==> name !in old(collections) && failure.None?
    {
      var exists_ := CheckCollectionExistence(name);
      if exists_ {
        return false, "Collection already exist in databse";
      }
      if failure.Some? {
        return false, "Can't create collection : " + name + " due to " + failure.value;
      }
      collections := collections + {name};
      ok, msg := true, name + " successfully created";
    }
  }
}
