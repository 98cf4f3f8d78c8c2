/** The document records the retrievers pass around, and the loop every
    converter shares: copying a backend record's properties into document
    metadata, with "content" left out and "filename" renamed "source". */
module Documents {
  import opened Common

  /** A LangChain `Document`: its page content and its metadata. */
  datatype Document = Document(content: string, metadata: Meta)

  /** The properties of a backend record, in the record's own key order. */
  type Record = Dict<string, Value>

  /** `props.get(k, d)`. */
  function Prop(props: Record, k: string, d: Value): Value {
    match Lookup(props, k)
    case Some(v) => v
    case None => d
  }

  /** The metadata key a property is copied to. */
  function MetaKey(k: string): string {
    if k == "filename" then "source" else k
  }

  /** The metadata the copy loop builds: every property but "content",
      "filename" stored as "source", a later property overwriting an
      earlier one stored under the same key. */
  function CopiedMeta(props: Record): Meta {
    if props == [] then map[]
    else
      var m := CopiedMeta(props[..|props| - 1]);
      var (k, v) := props[|props| - 1];
      if k == "content" then m else m[MetaKey(k) := v]
  }

  method CopyProperties(props: Record) returns (metadata: Meta)
    ensures metadata == CopiedMeta(props)
  {
    metadata := map[];
    var i := 0;
    while i < |props|
      invariant 0 <= i <= |props|
      invariant metadata == CopiedMeta(props[..i])
    {
      assert props[..i + 1][..i] == props[..i];
      var (key, value) := props[i];
      if key != "content" {
        if key == "filename" {
          metadata := metadata["source" := value];
        } else {
          metadata := metadata[key := value];
        }
      }
      i := i + 1;
    }
    assert props[..i] == props;
  }

  /** The last property stored under metadata key t, if any. */
  function LastStored(props: Record, t: string): (r: Option<nat>)
    ensures r.Some? ==> r.value < |props| && MetaKey(props[r.value].0) == t
                        && forall i :: r.value < i < |props| ==> MetaKey(props[i].0) != t
    ensures r.None? ==> forall i :: 0 <= i < |props| ==> MetaKey(props[i].0) != t
  {
    if props == [] then None
    else if MetaKey(props[|props| - 1].0) == t then Some(|props| - 1)
    else LastStored(props[..|props| - 1], t)
  }

  /** Neither "content" nor "filename" is ever a metadata key. */
  lemma {:induction false} CopiedMetaKeys(props: Record)
    ensures "content" !in CopiedMeta(props) && "filename" !in CopiedMeta(props)
  {
    if props != [] {
      CopiedMetaKeys(props[..|props| - 1]);
    }
  }

  /** Any other key t is present exactly when some property is stored under
      it, and then holds the value of the last such property. */
  lemma {:induction false} CopiedMetaAt(props: Record, t: string)
    requires t != "content"
    ensures t in CopiedMeta(props) <==> LastStored(props, t).Some?
    ensures t in CopiedMeta(props) ==> CopiedMeta(props)[t] == props[LastStored(props, t).value].1
  {
    if props != [] {
      CopiedMetaAt(props[..|props| - 1], t);
    }
  }

  /** `Document(page_content=props.get("content", ""))`: a content property
      that is not a string fails the document's validation. */
  function PageContent(props: Record): (r: Result<string>)
    ensures r.Ok? <==> "content" !in Keys(props) || Lookup(props, "content").value.VStr?
    ensures r.Ok? && "content" !in Keys(props) ==> r.value == ""
  {
    var v := Lookup(props, "content");
    if v.None? then Ok("")
    else if v.value.VStr? then Ok(v.value.s)
    else Err("ValidationError")
  }

  /** Applies a converter to every record, in order; the first failure
      aborts the conversion. */
  function ConvertAll<T>(objs: seq<T>, convert: T -> Result<Document>): (r: Result<seq<Document>>)
    ensures r.Ok? <==> forall i :: 0 <= i < |objs| ==> convert(objs[i]).Ok?
    ensures r.Ok? ==> |r.value| == |objs| && forall i :: 0 <= i < |objs| ==> r.value[i] == convert(objs[i]).value
  {
    if objs == [] then Ok([])
    else
      var init := objs[..|objs| - 1];
      assert forall i :: 0 <= i < |init| ==> init[i] == objs[i];
      match ConvertAll(init, convert)
      case Err(e) => Err(e)
      case Ok(docs) =>
        match convert(objs[|objs| - 1])
        case Err(e) => Err(e)
        case Ok(d) => Ok(docs + [d])
  }

  lemma ConvertAllSnoc<T>(objs: seq<T>, i: nat, convert: T -> Result<Document>)
    requires i < |objs| && ConvertAll(objs[..i], convert).Ok? && convert(objs[i]).Ok?
    ensures ConvertAll(objs[..i + 1], convert) == Ok(ConvertAll(objs[..i], convert).value + [convert(objs[i]).value])
  {
    assert objs[..i + 1][..i] == objs[..i];
  }

  /** Once a record fails, every longer prefix fails with its error. */
  lemma {:induction false} ConvertAllStop<T>(objs: seq<T>, i: nat, n: nat, convert: T -> Result<Document>)
    requires i < n <= |objs| && ConvertAll(objs[..i], convert).Ok? && convert(objs[i]).Err?
    ensures ConvertAll(objs[..n], convert) == Err(convert(objs[i]).error)
  {
    var prefix := objs[..n];
    assert prefix[..n - 1] == objs[..n - 1];
    if n == i + 1 {
      assert prefix[n - 1] == objs[i];
    } else {
      ConvertAllStop(objs, i, n - 1, convert);
    }
  }

  // ---------------------------------------------------------------------
  // MongoDB records
  // ---------------------------------------------------------------------

  /** One MongoDB record as a document: its "content" as page content, its
      other fields as metadata, and `str(_id)` stored as "uuid". */
  function MongoDoc(obj: Record): Result<Document> {
    match PageContent(obj)
    case Err(e) => Err(e)
    case Ok(c) => Ok(Document(c, CopiedMeta(obj)["uuid" := VStr(Str(Prop(obj, "_id", VNone)))]))
  }

  /** The converted document keeps the record's content, tags it with the
      record's id (overriding any "uuid" field), never carries "content" or
      "filename" in its metadata, and names its file "source". */
  lemma MongoDocShape(obj: Record)
    ensures MongoDoc(obj).Ok? <==> PageContent(obj).Ok?
    ensures MongoDoc(obj).Ok? ==>
              var d := MongoDoc(obj).value;
              && d.content == PageContent(obj).value
              && d.metadata["uuid"] == VStr(Str(Prop(obj, "_id", VNone)))
              && "content" !in d.metadata && "filename" !in d.metadata
              && ("source" in d.metadata <==> exists j :: 0 <= j < |obj| && obj[j].0 in {"filename", "source"})
  {
    CopiedMetaKeys(obj);
    CopiedMetaAt(obj, "source");
    if MongoDoc(obj).Ok? {
      var d := MongoDoc(obj).value;
      assert "source" in d.metadata <==> "source" in CopiedMeta(obj);
      assert forall j :: 0 <= j < |obj| ==> (MetaKey(obj[j].0) == "source" <==> obj[j].0 in {"filename", "source"});
      var last := LastStored(obj, "source");
      if last.Some? {
        assert obj[last.value].0 in {"filename", "source"};
      }
    }
  }

  /** The record loop of both MongoDB converters. */
  method ConvertMongoDocs(raw: seq<Record>) returns (r: Result<seq<Document>>)
    ensures r == ConvertAll(raw, MongoDoc)
  {
    var docs: seq<Document> := [];
    var i := 0;
    while i < |raw|
      invariant 0 <= i <= |raw|
      invariant ConvertAll(raw[..i], MongoDoc) == Ok(docs)
    {
      var obj := raw[i];
      var content := PageContent(obj);
      if content.Err? {
        ConvertAllStop(raw, i, |raw|, MongoDoc);
        assert raw[..|raw|] == raw;
        return Err(content.error);
      }
      var metadata := CopyProperties(obj);
      metadata := metadata["uuid" := VStr(Str(Prop(obj, "_id", VNone)))];
      ConvertAllSnoc(raw, i, MongoDoc);
      docs := docs + [Document(content.value, metadata)];
      i := i + 1;
    }
    assert raw[..i] == raw;
    r := Ok(docs);
  }

  /** The page contents of a document list, in order (what the
      `"\n".join(doc.page_content for doc in docs)` renderings read). */
  function PageContents(docs: seq<Document>): (r: seq<string>)
    ensures |r| == |docs| && forall i :: 0 <= i < |docs| ==> r[i] == docs[i].content
  {
    seq(|docs|, i requires 0 <= i < |docs| => docs[i].content)
  }
}
