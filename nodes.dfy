/** The graph nodes that read the state and return a partial update:
    keyword extraction, question rewriting, filename detection, the
    return-docs branch and its renderings, and the answer generators. Every
    model reply is a parameter: a function of the text the node puts into
    its prompt. */
module Nodes {
  import opened Common
  import opened Documents
  import opened Citations
  import opened Snippets
  import opened GraphState

  // ---------------------------------------------------------------------
  // Keyword extraction and question rewriting
  // ---------------------------------------------------------------------

  /** `extract_keywords_initial`: the keywords for the original question. */
  function ExtractKeywordsInitial(s: State, reply: string -> string): Result<Update> {
    match Nth(s.messages, 0)
    case Err(e) => Err(e)
    case Ok(question) => Ok(Update([UserMessage(reply(question.content))], map[]))
  }

  /** `extract_keywords`: new keywords for the original question given the
      previous ones (`messages[-2]`), with one more rewrite counted. */
  function ExtractKeywords(s: State, reply: (string, string) -> string): Result<Update> {
    match Nth(s.messages, 0)
    case Err(e) => Err(e)
    case Ok(question) =>
      match Nth(s.messages, -2)
      case Err(e) => Err(e)
      case Ok(previous) =>
        match IntField(s, "rewrite_count")
        case Err(e) => Err(e)
        case Ok(count) =>
          Ok(Update([UserMessage(reply(question.content, previous.content))],
                    map["rewrite_count" := FInt(count + 1)]))
  }

  /** `rewrite_question` (agents): rewrites `messages[-2]`, counts one more
      rewrite and hands the documents and their map on. */
  function RewriteQuestion(s: State, reply: string -> string): Result<Update> {
    match Nth(s.messages, -2)
    case Err(e) => Err(e)
    case Ok(question) =>
      match IntField(s, "rewrite_count")
      case Err(e) => Err(e)
      case Ok(count) =>
        match AnyField(s, "docs")
        case Err(e) => Err(e)
        case Ok(docs) =>
          match AnyField(s, "sourcing")
          case Err(e) => Err(e)
          case Ok(sourcing) =>
            Ok(Update([UserMessage(reply(question.content))],
                      map["rewrite_count" := FInt(count + 1), "docs" := docs, "sourcing" := sourcing]))
  }

  /** The first extraction appends the model's keywords and changes no other
      key; an empty conversation raises IndexError. */
  lemma ExtractKeywordsInitialStep(s: State, reply: string -> string)
    ensures s.messages == [] ==> ExtractKeywordsInitial(s, reply) == Err("IndexError")
    ensures s.messages != [] ==> ExtractKeywordsInitial(s, reply).Ok?
    ensures s.messages != [] ==>
              Apply(s, ExtractKeywordsInitial(s, reply).value)
                == State(s.messages + [UserMessage(reply(s.messages[0].content))], s.fields)
  {
    if s.messages != [] {
      assert s.fields + map[] == s.fields;
    }
  }

  /** A re-extraction appends exactly one message, built from the first and
      the second-to-last messages, adds one to the counter and changes no
      other key. */
  lemma ExtractKeywordsStep(s: State, reply: (string, string) -> string)
    requires "rewrite_count" in s.fields && s.fields["rewrite_count"].FInt?
    ensures |s.messages| < 2 ==> ExtractKeywords(s, reply) == Err("IndexError")
    ensures |s.messages| >= 2 ==> ExtractKeywords(s, reply).Ok?
    ensures |s.messages| >= 2 ==>
              var after := Apply(s, ExtractKeywords(s, reply).value);
              && after.messages == s.messages
                   + [UserMessage(reply(s.messages[0].content, s.messages[|s.messages| - 2].content))]
              && after.fields["rewrite_count"] == FInt(s.fields["rewrite_count"].i + 1)
              && after.fields.Keys == s.fields.Keys
              && forall k :: k in s.fields && k != "rewrite_count" ==> after.fields[k] == s.fields[k]
  {
  }

  /** A rewrite appends exactly one message, the rewrite of `messages[-2]`,
      adds one to the counter and leaves the documents and their map as
      they were. */
  lemma RewriteQuestionStep(s: State, reply: string -> string)
    requires "rewrite_count" in s.fields && s.fields["rewrite_count"].FInt?
    requires "docs" in s.fields && "sourcing" in s.fields
    ensures |s.messages| < 2 ==> RewriteQuestion(s, reply) == Err("IndexError")
    ensures |s.messages| >= 2 ==> RewriteQuestion(s, reply).Ok?
    ensures |s.messages| >= 2 ==>
              var after := Apply(s, RewriteQuestion(s, reply).value);
              && after.messages == s.messages + [UserMessage(reply(s.messages[|s.messages| - 2].content))]
              && after.fields["rewrite_count"] == FInt(s.fields["rewrite_count"].i + 1)
              && after.fields == s.fields["rewrite_count" := FInt(s.fields["rewrite_count"].i + 1)]
  {
  }

  /** Successive re-extractions: the counter grows by one per step, the
      conversation by one message per step. */
  function ExtractRounds(s: State, replies: seq<(string, string) -> string>): Result<State>
    decreases |replies|
  {
    if replies == [] then Ok(s)
    else
      match ExtractKeywords(s, replies[0])
      case Err(e) => Err(e)
      case Ok(u) => ExtractRounds(Apply(s, u), replies[1..])
  }

  lemma {:induction false} ExtractRoundsCount(s: State, replies: seq<(string, string) -> string>)
    requires "rewrite_count" in s.fields && s.fields["rewrite_count"].FInt?
    requires |s.messages| >= 2
    ensures ExtractRounds(s, replies).Ok?
    ensures "rewrite_count" in ExtractRounds(s, replies).value.fields
    ensures |ExtractRounds(s, replies).value.messages| == |s.messages| + |replies|
    ensures ExtractRounds(s, replies).value.fields["rewrite_count"] == FInt(s.fields["rewrite_count"].i + |replies|)
    decreases |replies|
  {
    if replies != [] {
      ExtractKeywordsStep(s, replies[0]);
      ExtractRoundsCount(Apply(s, ExtractKeywords(s, replies[0]).value), replies[1..]);
    }
  }

  // ---------------------------------------------------------------------
  // The return-docs branch
  // ---------------------------------------------------------------------

  /** `return_docs_or_generate_answer`: only the flag is read. */
  function ReturnDocsOrGenerate(s: State): Result<string> {
    match AnyField(s, "return_docs")
    case Err(e) => Err(e)
    case Ok(flag) => Ok(if FieldTruthy(flag) then "return_docs" else "generate_answer")
  }

  lemma ReturnDocsOrGenerateSpec(s: State)
    ensures "return_docs" !in s.fields ==> ReturnDocsOrGenerate(s) == Err("KeyError")
    ensures "return_docs" in s.fields ==>
              (ReturnDocsOrGenerate(s) == Ok("return_docs") <==> FieldTruthy(s.fields["return_docs"]))
    ensures "return_docs" in s.fields ==>
              (ReturnDocsOrGenerate(s) == Ok("generate_answer") <==> !FieldTruthy(s.fields["return_docs"]))
  {
  }

  /** Two states with the same flag take the same branch. */
  lemma ReturnDocsOrGenerateReadsFlag(s: State, t: State)
    requires "return_docs" in s.fields && "return_docs" in t.fields
    requires s.fields["return_docs"] == t.fields["return_docs"]
    ensures ReturnDocsOrGenerate(s) == ReturnDocsOrGenerate(t)
  {
  }

  predicate HasFilename(d: Document) { "filename" in d.metadata }

  /** `f"Source : {doc.metadata['filename']}\n{doc.page_content}"`. */
  function SourceEntry(d: Document): string
    requires HasFilename(d)
  {
    "Source : " + Str(d.metadata["filename"]) + "\n" + d.content
  }

  function SourceEntries(docs: seq<Document>): (r: seq<string>)
    requires forall i :: 0 <= i < |docs| ==> HasFilename(docs[i])
    ensures |r| == |docs|
  {
    seq(|docs|, i requires 0 <= i < |docs| && HasFilename(docs[i]) => SourceEntry(docs[i]))
  }

  /** `return_docs` (workflows): the vector documents, then the full-text
      ones, one "Source :" entry each, as one system message; a document
      without a filename raises KeyError. */
  function ReturnDocs(s: State): Result<Update> {
    match DocsField(s, "vector_docs")
    case Err(e) => Err(e)
    case Ok(vector) =>
      match DocsField(s, "full_text_docs")
      case Err(e) => Err(e)
      case Ok(text) =>
        var docs := vector + text;
        if forall i :: 0 <= i < |docs| ==> HasFilename(docs[i]) then
          Ok(Update([Message("system", Join("\n", SourceEntries(docs)), None)], map[]))
        else Err("KeyError")
  }

  /** Joining two non-empty lists: the first's text, the separator, the
      second's text. */
  lemma {:induction false} JoinAppend(sep: string, a: seq<string>, b: seq<string>)
    requires a != [] && b != []
    ensures Join(sep, a + b) == Join(sep, a) + sep + Join(sep, b)
    decreases |a|
  {
    if |a| == 1 {
      assert (a + b)[1..] == b;
    } else {
      assert (a + b)[1..] == a[1..] + b;
      JoinAppend(sep, a[1..], b);
    }
  }

  /** The rendering lists the vector documents before the full-text ones;
      with no documents it is empty; it is one new message and nothing
      else. */
  lemma ReturnDocsSpec(s: State, vector: seq<Document>, text: seq<Document>)
    requires "vector_docs" in s.fields && s.fields["vector_docs"] == FDocs(vector)
    requires "full_text_docs" in s.fields && s.fields["full_text_docs"] == FDocs(text)
    requires forall i :: 0 <= i < |vector| ==> HasFilename(vector[i])
    requires forall i :: 0 <= i < |text| ==> HasFilename(text[i])
    ensures ReturnDocs(s).Ok?
    ensures |ReturnDocs(s).value.messages| == 1 && ReturnDocs(s).value.fields == map[]
    ensures vector != [] && text != [] ==>
              ReturnDocs(s).value.messages[0].content
                == Join("\n", SourceEntries(vector)) + "\n" + Join("\n", SourceEntries(text))
    ensures vector == [] && text == [] ==> ReturnDocs(s).value.messages[0].content == ""
  {
    var docs := vector + text;
    assert forall i :: 0 <= i < |docs| ==> HasFilename(docs[i]) by {
      forall i | 0 <= i < |docs|
        ensures HasFilename(docs[i])
      {
        if i >= |vector| {
          assert docs[i] == text[i - |vector|];
        }
      }
    }
    if vector != [] && text != [] {
      assert SourceEntries(docs) == SourceEntries(vector) + SourceEntries(text);
      JoinAppend("\n", SourceEntries(vector), SourceEntries(text));
    }
  }

  /** A document without a filename makes the rendering raise KeyError. */
  lemma ReturnDocsMissingFilename(s: State, vector: seq<Document>, text: seq<Document>, j: nat)
    requires "vector_docs" in s.fields && s.fields["vector_docs"] == FDocs(vector)
    requires "full_text_docs" in s.fields && s.fields["full_text_docs"] == FDocs(text)
    requires j < |vector| && !HasFilename(vector[j])
    ensures ReturnDocs(s) == Err("KeyError")
  {
    assert (vector + text)[j] == vector[j];
  }

  /** `return_docs` (agents): the page contents joined by newlines, as one
      user message. */
  function ReturnDocsAgents(s: State): Result<Update> {
    match DocsField(s, "docs")
    case Err(e) => Err(e)
    case Ok(docs) => Ok(Update([UserMessage(Join("\n", PageContents(docs)))], map[]))
  }

  /** Exactly one message, the contents in document order, "" for no
      documents, and no other key returned. */
  lemma ReturnDocsAgentsSpec(s: State, docs: seq<Document>)
    requires "docs" in s.fields && s.fields["docs"] == FDocs(docs)
    ensures ReturnDocsAgents(s).Ok?
    ensures ReturnDocsAgents(s).value.fields == map[]
    ensures ReturnDocsAgents(s).value.messages == [UserMessage(Join("\n", PageContents(docs)))]
    ensures docs == [] ==> ReturnDocsAgents(s).value.messages[0].content == ""
    ensures |docs| == 1 ==> ReturnDocsAgents(s).value.messages[0].content == docs[0].content
    ensures Apply(s, ReturnDocsAgents(s).value).fields == s.fields
  {
  }

  // ---------------------------------------------------------------------
  // Filename detection
  // ---------------------------------------------------------------------

  /** The file ids the reply names that are available: the stripped comma
      pieces that are keys, in reply order, duplicates kept. */
  function DetectedIds(answer: string, available: Dict<string, string>): seq<string> {
    FlatMap(Pieces(answer), KnownId(available))
  }

  /** `answer.split(",")`. */
  function Pieces(answer: string): seq<string> {
    Split(answer, ',')
  }

  /** What one piece of the reply contributes: its stripped form when that
      is an available id. */
  function KnownId(available: Dict<string, string>): string -> seq<string> {
    (p: string) => if Strip(p) in Keys(available) then [Strip(p)] else []
  }

  /** The filenames of the detected ids. */
  function SelectedFilenames(ids: seq<string>, available: Dict<string, string>): seq<string> {
    FlatMap(ids, NameOf(available))
  }

  /** What one id contributes: its available filename. */
  function NameOf(available: Dict<string, string>): string -> seq<string> {
    (id: string) => match Lookup(available, id) case Some(name) => [name] case None => []
  }

  /** The filenames a reply selects. */
  function SelectFiles(answer: string, available: Dict<string, string>): seq<string> {
    SelectedFilenames(DetectedIds(answer, available), available)
  }

  /** `detect_filename`: with filtering off the state is returned as it is
      and nothing is looked up; otherwise the model (`reply`, given the
      question and the available files) names ids. `files` is the distinct
      filename lookup of the database and collection. */
  function DetectFilename(s: State, useFiltering: bool,
                          files: (string, string) -> Dict<string, string>,
                          reply: (string, Dict<string, string>) -> string): Result<Update>
  {
    if !useFiltering then Ok(Unchanged(s))
    else
      match Nth(s.messages, -1)
      case Err(e) => Err(e)
      case Ok(question) =>
        match StrField(s, "mongodb_dbname")
        case Err(e) => Err(e)
        case Ok(db) =>
          match StrField(s, "mongodb_files_collection")
          case Err(e) => Err(e)
          case Ok(collection) =>
            var available := files(db, collection);
            Ok(Update([], map["filtered_filenames" := FNames(SelectFiles(reply(question.content, available), available))]))
  }

  /** With filtering off the node changes nothing. */
  lemma DetectFilenameDisabled(s: State, files: (string, string) -> Dict<string, string>,
                               reply: (string, Dict<string, string>) -> string)
    ensures DetectFilename(s, false, files, reply) == Ok(Unchanged(s))
    ensures Apply(s, DetectFilename(s, false, files, reply).value) == s
  {
    UnchangedKeeps(s);
  }

  /** With filtering on, the only key returned is `filtered_filenames`, no
      message is added, and the names are those the reply selects among
      the files of the state's database and collection. */
  lemma DetectFilenameShape(s: State, files: (string, string) -> Dict<string, string>,
                            reply: (string, Dict<string, string>) -> string)
    requires s.messages != []
    requires "mongodb_dbname" in s.fields && s.fields["mongodb_dbname"].FStr?
    requires "mongodb_files_collection" in s.fields && s.fields["mongodb_files_collection"].FStr?
    ensures DetectFilename(s, true, files, reply).Ok?
    ensures DetectFilename(s, true, files, reply).value.messages == []
    ensures DetectFilename(s, true, files, reply).value.fields.Keys == {"filtered_filenames"}
    ensures var available := files(s.fields["mongodb_dbname"].s, s.fields["mongodb_files_collection"].s);
            DetectFilename(s, true, files, reply).value.fields["filtered_filenames"]
              == FNames(SelectFiles(reply(s.messages[|s.messages| - 1].content, available), available))
  {
  }

  lemma KnownIdContributes(available: Dict<string, string>, p: string, id: string)
    ensures id in KnownId(available)(p) <==> id in Keys(available) && Strip(p) == id
  {
  }

  /** An id is kept iff some piece strips to it and it is an available
      key. */
  lemma KnownIdsMember(pieces: seq<string>, available: Dict<string, string>, id: string)
    ensures id in FlatMap(pieces, KnownId(available)) <==>
              id in Keys(available) && exists k :: 0 <= k < |pieces| && Strip(pieces[k]) == id
  {
    FlatMapMember(pieces, KnownId(available), id);
    if id in FlatMap(pieces, KnownId(available)) {
      var k :| 0 <= k < |pieces| && id in KnownId(available)(pieces[k]);
      KnownIdContributes(available, pieces[k], id);
    }
    if id in Keys(available) && exists k :: 0 <= k < |pieces| && Strip(pieces[k]) == id {
      var k :| 0 <= k < |pieces| && Strip(pieces[k]) == id;
      KnownIdContributes(available, pieces[k], id);
    }
  }

  /** An id is detected iff some comma piece of the reply strips to it and
      it is an available key. */
  lemma DetectedIdsSpec(answer: string, available: Dict<string, string>, id: string)
    ensures id in DetectedIds(answer, available) <==>
              id in Keys(available) && exists k :: 0 <= k < |Pieces(answer)| && Strip(Pieces(answer)[k]) == id
  {
    KnownIdsMember(Pieces(answer), available, id);
  }

  /** Every selected filename is the available name of a detected id, and
      every detected id contributes its name. */
  lemma SelectedFilenamesSpec(ids: seq<string>, available: Dict<string, string>, name: string)
    ensures name in SelectedFilenames(ids, available) <==>
              exists k :: 0 <= k < |ids| && Lookup(available, ids[k]) == Some(name)
  {
    FlatMapMember(ids, NameOf(available), name);
    if exists k :: 0 <= k < |ids| && Lookup(available, ids[k]) == Some(name) {
      var k :| 0 <= k < |ids| && Lookup(available, ids[k]) == Some(name);
      assert name in NameOf(available)(ids[k]);
    }
  }

  /** Each detected id yields exactly one filename, so the selection keeps
      the ids' order and their duplicates: one name per id, position by
      position. */
  lemma {:induction false} SelectedPerId(ids: seq<string>, available: Dict<string, string>)
    requires forall k :: 0 <= k < |ids| ==> Lookup(available, ids[k]).Some?
    ensures |SelectedFilenames(ids, available)| == |ids|
    ensures forall k :: 0 <= k < |ids| ==> SelectedFilenames(ids, available)[k] == Lookup(available, ids[k]).value
  {
    if ids != [] {
      var init := ids[..|ids| - 1];
      var last := ids[|ids| - 1];
      assert forall k :: 0 <= k < |init| ==> init[k] == ids[k];
      SelectedPerId(init, available);
      var name := Lookup(available, last).value;
      assert NameOf(available)(last) == [name];
      var sel := SelectedFilenames(ids, available);
      assert sel == SelectedFilenames(init, available) + [name];
      forall k | 0 <= k < |ids|
        ensures sel[k] == Lookup(available, ids[k]).value
      {
        if k < |init| {
          assert ids[k] == init[k];
        }
      }
    }
  }

  /** The selection names one file per detected id, position by position:
      reply order and duplicates are kept. */
  lemma SelectFilesSpec(answer: string, available: Dict<string, string>)
    ensures |SelectFiles(answer, available)| == |DetectedIds(answer, available)|
    ensures forall k :: 0 <= k < |DetectedIds(answer, available)| ==>
              Lookup(available, DetectedIds(answer, available)[k]).Some?
              && SelectFiles(answer, available)[k] == Lookup(available, DetectedIds(answer, available)[k]).value
  {
    var ids := DetectedIds(answer, available);
    forall k | 0 <= k < |ids|
      ensures Lookup(available, ids[k]).Some?
    {
      assert ids[k] in ids;
      DetectedIdsSpec(answer, available, ids[k]);
    }
    SelectedPerId(ids, available);
  }

  // ---------------------------------------------------------------------
  // Answer generation
  // ---------------------------------------------------------------------

  /** The two retrieval channels of the workflow graph. */
  datatype Channel = VectorChannel | FulltextChannel {
    function DocsKey(): string {
      match this
      case VectorChannel => "vector_docs"
      case FulltextChannel => "full_text_docs"
    }
    function Path(): string {
      match this
      case VectorChannel => "vector_search"
      case FulltextChannel => "fulltext_search"
    }
    function SourcingKey(): string {
      match this
      case VectorChannel => "sourcing_vector_search"
      case FulltextChannel => "sourcing_full_text_search"
    }
  }

  /** `generate_answer_agentic_rag_for_vector_search` and `..._fulltext_search`:
      the answer for the channel's documents, tagged with the channel's
      path, and the channel's snippet map. `reply` is the model's answer
      for the question and the snippet context. */
  function GenerateForChannel(s: State, ch: Channel, reply: (string, string) -> string): Result<Update> {
    match Nth(s.messages, 0)
    case Err(e) => Err(e)
    case Ok(question) =>
      match DocsField(s, ch.DocsKey())
      case Err(e) => Err(e)
      case Ok(docs) =>
        Ok(Update([Message("ai", reply(question.content, Context(docs)), Some(ch.Path()))],
                  map[ch.SourcingKey() := FSourcing(SourcingOf(docs))]))
  }

  /** One tagged answer and one map whose keys are exactly 1..n for the
      channel's n documents; the two channels write different keys, so
      their updates never overwrite each other. */
  lemma GenerateForChannelSpec(s: State, ch: Channel, reply: (string, string) -> string, docs: seq<Document>)
    requires s.messages != []
    requires ch.DocsKey() in s.fields && s.fields[ch.DocsKey()] == FDocs(docs)
    ensures GenerateForChannel(s, ch, reply).Ok?
    ensures |GenerateForChannel(s, ch, reply).value.messages| == 1
    ensures GenerateForChannel(s, ch, reply).value.messages[0].path == Some(ch.Path())
    ensures GenerateForChannel(s, ch, reply).value.fields.Keys == {ch.SourcingKey()}
    ensures forall n :: n in GenerateForChannel(s, ch, reply).value.fields[ch.SourcingKey()].sourcing <==> 1 <= n <= |docs|
    ensures VectorChannel.SourcingKey() != FulltextChannel.SourcingKey()
    ensures VectorChannel.Path() != FulltextChannel.Path()
  {
    SourcingKeys(docs);
  }

  /** `generate_answer_branching` returns the state it is given. */
  function GenerateAnswerBranching(s: State): Update {
    Unchanged(s)
  }

  lemma GenerateAnswerBranchingKeeps(s: State)
    ensures Apply(s, GenerateAnswerBranching(s)) == s
  {
    UnchangedKeeps(s);
  }

  /** `generate_answer_agentic_rag` (agents): one answer and the map built
      from `docs`. */
  function GenerateAnswerAgenticRag(s: State, reply: (string, string) -> string): Result<Update> {
    match Nth(s.messages, 0)
    case Err(e) => Err(e)
    case Ok(question) =>
      match DocsField(s, "docs")
      case Err(e) => Err(e)
      case Ok(docs) =>
        Ok(Update([AiMessage(reply(question.content, Context(docs)))], map["sourcing" := FSourcing(SourcingOf(docs))]))
  }

  lemma GenerateAnswerAgenticRagSpec(s: State, reply: (string, string) -> string, docs: seq<Document>)
    requires s.messages != []
    requires "docs" in s.fields && s.fields["docs"] == FDocs(docs)
    ensures GenerateAnswerAgenticRag(s, reply).Ok?
    ensures |GenerateAnswerAgenticRag(s, reply).value.messages| == 1
    ensures GenerateAnswerAgenticRag(s, reply).value.fields.Keys == {"sourcing"}
    ensures forall n :: n in GenerateAnswerAgenticRag(s, reply).value.fields["sourcing"].sourcing <==> 1 <= n <= |docs|
    ensures docs == [] ==> GenerateAnswerAgenticRag(s, reply).value.fields["sourcing"].sourcing == map[]
  {
    SourcingKeys(docs);
  }

  /** `generate_intial_answer`: the general answer to the first message. */
  function GenerateInitialAnswer(s: State, reply: string -> string): Result<Update> {
    match Nth(s.messages, 0)
    case Err(e) => Err(e)
    case Ok(question) => Ok(Update([AiMessage(reply(question.content))], map[]))
  }

  /** `generate_null_answer`: one empty user message. */
  function GenerateNullAnswer(s: State): Update {
    Update([UserMessage("")], map[])
  }

  /** `generate_answer_smart_sql`: the answer for the first message given
      the last one (the rendered rows). */
  function GenerateAnswerSmartSql(s: State, reply: (string, string) -> string): Result<Update> {
    match Nth(s.messages, 0)
    case Err(e) => Err(e)
    case Ok(question) =>
      match Nth(s.messages, -1)
      case Err(e) => Err(e)
      case Ok(context) => Ok(Update([AiMessage(reply(question.content, context.content))], map[]))
  }

  /** Each of these answers appends exactly one message and changes no key;
      the null answer is empty. */
  lemma SingleAnswers(s: State, reply: string -> string, sqlReply: (string, string) -> string)
    requires s.messages != []
    ensures Apply(s, GenerateNullAnswer(s)) == State(s.messages + [UserMessage("")], s.fields)
    ensures GenerateInitialAnswer(s, reply).Ok?
    ensures Apply(s, GenerateInitialAnswer(s, reply).value)
              == State(s.messages + [AiMessage(reply(s.messages[0].content))], s.fields)
    ensures GenerateAnswerSmartSql(s, sqlReply).Ok?
    ensures Apply(s, GenerateAnswerSmartSql(s, sqlReply).value)
              == State(s.messages + [AiMessage(sqlReply(s.messages[0].content, s.messages[|s.messages| - 1].content))], s.fields)
  {
    assert s.fields + map[] == s.fields;
  }
}
