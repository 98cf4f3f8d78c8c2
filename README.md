# Agentic RAG core, modelled in Dafny

This project models the deterministic core of an agentic retrieval-augmented
answering service. A user question goes through keyword extraction and an
optional filename detection. Then two retrievals run: a hybrid vector search
in Weaviate and a full-text search in MongoDB. Their documents are
deduplicated, ranked and numbered as snippets for a language model. The
model's answers cite the snippets as `**(n)**`. These citations are rendered
as Unicode superscripts with a "Sources:" list of download links. A relevance
grader and routers move the conversation through LangGraph workflows. A
Smart-SQL path turns a question into a cleaned SQL query and renders its
rows. A download route serves stored source files.

The language model, the embedding service, the search backends and the
databases are not modelled. Their replies are parameters: functions from the
request to the reply, or values passed in. Everything between those calls is
modelled as the code does it:

- the citation scanners and renderers, in their three revisions;
- deduplication, stable score sorting and frequency-based top sources;
- phrase fan-out and the random sample of phrase combinations;
- the retry of a failed vector query;
- snippet numbering and the per-channel answer state;
- the relevance parse and the routing decisions;
- the workflow graphs and the YAML-to-configuration translation;
- SQL fence cleaning and the attempt loop;
- environment parsing;
- the download route's content type, chunking and headers.

One Dafny module per concern, one file each:

| file | module | what it holds |
|---|---|---|
| common.dfy | Common | Python values and truthiness, ordered dicts (`Dict`, `Put`, `Lookup`), string helpers (`split`, `strip`, `lower`, `find`, `replace(…, 1)`), decimal rendering and parsing |
| superscript.dfy | Superscript | `int_to_superscript`, `superscript_to_int` |
| markers.dfy | Markers | `re.findall` of the citation pattern, the fold of first-occurrence replacements, and the theory of answers made of text pieces and markers |
| citations.dfy | Citations | the shared first stage: ordinals, valid ordinals, deletion of unknown markers |
| keep_ordinals.dfy | KeepOrdinals | the keep-ordinal policy (`prettify_sources` of the workflow nodes, `prettify_sources_new`) |
| grouped.dfy | GroupedCitations | the renumber-by-source policy (`prettify_sources` of the workflow module and of the agents) |
| source_lists.dfy | SourceLists | `concatenate_answer` in all revisions and `show_source` in all three |
| documents.dfy | Documents | the document record and the MongoDB record converters |
| weaviate_client.dfy | WeaviateClient | `_processing_query_returns`, the in-place `query_params`, `create_collection` |
| sorting.dfy | Sorting | stable descending sort by score |
| dedup.dfy | Dedup | `remove_duplicate_documents` with its strategies |
| ranking.dfy | Ranking | `sort_documents_by_score`, the `[:k]` slice, `Counter` and `most_common` |
| top_sources.dfy | TopSources | `get_top_sources` |
| combinations.dfy | Combinations | `sample_combinations` in its two revisions |
| retrieval.dfy | Retrieval | the phrase lists and both retrieval paths of the workflow nodes, the vector-query fallback |
| retriever_node.dfy | RetrieverNode | `retrieve_documents` of the earlier workflow module |
| search_ui.dfy | SearchUi | the Weaviate search page: display records, source counts, content preview, phrase list, the uuid merge and sort |
| snippets.dfy | Snippets | `augment_context` |
| graph_state.dfy | GraphState | the graph state and its update rule (messages appended, other keys replaced) |
| grading.dfy | Grading | `safe_parse_grade`, `grade_query`, `grade_documents` |
| nodes.dfy | Nodes | the node functions: keyword extraction, rewrite, filename detection, answers, decision point, document rendering |
| workflows.dfy | Workflows | the static agentic RAG workflow as a graph, its paths and shape |
| load_config.dfy | LoadConfig | `load_workflow_config` |
| agent_graph.dfy | AgentGraph | the agents' two graph builders |
| smart_sql.dfy | SmartSql | `clean_sql`, the SQL attempt loop and row rendering |
| env_config.dfy | EnvConfig | `initialize` of the environment configuration |
| download.dfy | Download | the download route |

## Model

| member | source | states |
|---|---|---|
| Superscript.DigitsToSuperscript | app/workflows/nodes/sourcing.py:7-10 | `int_to_superscript` on the decimal digits of n: one glyph per digit, the glyph at the digit's position in "⁰¹²³⁴⁵⁶⁷⁸⁹" (the same helper is at app/workflows/sourcing_node.py:12-13 and app/agents/sourcing_node.py:11-12) |
| Superscript.SuperscriptIndex | app/workflows/nodes/sourcing.py:13 | `list.index` in the glyph list: a found position is below 10 and holds the glyph; a missing glyph is not a superscript digit |
| Superscript.SuperscriptToInt | app/workflows/nodes/sourcing.py:12-13 | `superscript_to_int` succeeds exactly when every character is a superscript digit, and then returns a digit STRING of the same length, not an integer |
| Superscript.DigitsRoundTrip | app/workflows/nodes/sourcing.py:9-13 | reading the glyphs of a digit string back gives that digit string |
| Superscript.SuperscriptRoundTrip | app/workflows/nodes/sourcing.py:9-13 | `superscript_to_int(int_to_superscript(n)) == str(n)` for every n ≥ 0 |
| Superscript.IntToSuperscriptInjective | app/workflows/nodes/sourcing.py:9-10 | different ordinals get different superscripts, so a superscript-keyed map never merges two ordinals |
| Superscript.SuperscriptHasNoMarkerChars | app/workflows/nodes/sourcing.py:9-10 | a superscript is non-empty and holds only superscript digits: no `*` and no space, so no marker can be formed from it |
| Markers.DigitRunEnd | app/workflows/nodes/sourcing.py:16-17 | the `\d+` group: the end of the maximal digit run from a position, everything before it a digit, the character at it not a digit |
| Markers.MatchAt | app/workflows/nodes/sourcing.py:16-17 | a match of `\*\*\((\d+)\)\*\*` starts with `*`, has a non-empty digit group and fits inside the text |
| Markers.CloseAfter | app/workflows/nodes/sourcing.py:16 | the greedy digit group ends where `)**` follows a non-empty run |
| Markers.Scan | app/workflows/nodes/sourcing.py:16-17 | `re.findall` from a position: every group found is a non-empty string of ASCII digits |
| Markers.FindMarkers | app/workflows/nodes/sourcing.py:16-17 | the scanning loop computes the leftmost non-overlapping matches, each group a non-empty digit string |
| Markers.ScanMarker | app/workflows/nodes/sourcing.py:16-17 | a spaced marker ` **(d)**` contributes exactly its digit group d to the matches |
| Markers.ScanPlain | app/workflows/nodes/sourcing.py:16-17 | text without `*` contributes no match |
| Markers.ScanPieces | app/workflows/nodes/sourcing.py:16-17 | on an answer made of star-free text and spaced markers, the matches are exactly the cited ordinals in text order, as decimal strings |
| Markers.ScanShift | app/workflows/nodes/sourcing.py:16-17 | the matches after a prefix do not depend on the prefix |
| Markers.ReplaceEachSnoc | app/workflows/nodes/sourcing.py:30-32 | the replacement loop is a fold: one more pair is one more `str.replace(" **(d)**", new, 1)` on the text so far |
| Markers.MarkerMismatch | app/workflows/nodes/sourcing.py:32 | the marker text of one ordinal never occurs at the start of the marker of another ordinal |
| Markers.NoEarlyOccurrence | app/workflows/nodes/sourcing.py:32 | before the first marker for n, the text ` **(n)**` occurs nowhere, even across piece boundaries |
| Markers.FirstMarkerOccurrence | app/workflows/nodes/sourcing.py:32 | `str.find` of ` **(n)**` lands on the first marker that cites n |
| Markers.ReplaceSelected | app/workflows/nodes/sourcing.py:32 | replacing the first occurrence of a picked marker behind an already rewritten prefix replaces exactly that marker |
| Markers.ReplaceEachPieces | app/workflows/nodes/sourcing.py:30-32 | the replacement loop on a well-formed answer rewrites every picked marker in place, into its star-free replacement, and changes nothing else |
| Citations.Ordinals | app/workflows/nodes/sourcing.py:18 | `list(map(int, matches))`: one ordinal per match, the decimal value of its digits |
| Citations.ValidOrdinals | app/workflows/nodes/sourcing.py:19 | `[idx for idx in integers if idx in sourcing]`: an ordinal is kept iff it was cited and is a key of the map; never longer than the input |
| Citations.RemoveInvalid | app/workflows/nodes/sourcing.py:21-26 | the deletion loop: for each match whose ordinal is unknown, one `replace(" **(m)**", "", 1)` in match order (also app/workflows/sourcing_node.py:24-29 and :64-69) |
| Citations.Removed | app/workflows/nodes/sourcing.py:21-26 | the intended deletion: a marker of an unknown ordinal becomes empty text, every other piece is kept, position by position |
| Citations.OrdinalsOfDigits | app/workflows/nodes/sourcing.py:17-18 | `int` of the canonical decimal string of n is n again |
| Citations.OrdsRemoved | app/workflows/nodes/sourcing.py:19-26 | after the deletion the cited ordinals are exactly the valid ordinals, in order |
| Citations.RemoveInvalidPieces | app/workflows/nodes/sourcing.py:16-26 | on a well-formed answer: the matches are the cited ordinals, the deletion loop produces the intended deletion, and what is left cites exactly the valid ordinals |
| Citations.NoMarkerLeft | app/workflows/nodes/sourcing.py:16-17 | an answer of plain star-free text has no marker left for a scan to find |
| Citations.RemovedWellFormed | app/workflows/nodes/sourcing.py:21-26 | deleting unknown markers keeps an answer well-formed |
| KeepOrdinals.SupToIdxEntries | app/workflows/nodes/sourcing.py:34-38 | `superscript_to_idx` has distinct keys, and each entry maps the superscript of a valid ordinal to that ordinal |
| KeepOrdinals.SupToIdxLookup | app/workflows/nodes/sourcing.py:34-38 | every valid ordinal is found under its own superscript |
| KeepOrdinals.PrettifyKeep | app/workflows/nodes/sourcing.py:15-40 | `prettify_sources`: the text after the deletion loop and the superscript loop, and the superscript-to-ordinal map of the valid ordinals (also `prettify_sources_new`, app/workflows/sourcing_node.py:58-83) |
| KeepOrdinals.Superscripts | app/workflows/nodes/sourcing.py:28-32 | the superscript loop: one `replace(" **(n)**", superscript(n), 1)` per valid ordinal, in order |
| KeepOrdinals.BuildSupToIdx | app/workflows/nodes/sourcing.py:34-38 | the map-building loop computes `superscript_to_idx` |
| KeepOrdinals.KeepRender | app/workflows/nodes/sourcing.py:28-32 | the intended rendering, position by position: a known ordinal's marker becomes its own superscript, an unknown one's disappears, text is kept |
| KeepOrdinals.KeepTextPieces | app/workflows/nodes/sourcing.py:15-32 | on a well-formed answer, the rendered text is the intended rendering and holds no marker: no dangling citation survives |
| KeepOrdinals.SuperscriptPieces | app/workflows/nodes/sourcing.py:30-32 | after the deletion, the superscript loop turns each remaining marker into its ordinal's superscript, with no renumbering |
| KeepOrdinals.UnspacedMarkerKept | app/workflows/nodes/sourcing.py:16-38 | `**(1)**` without its leading space is counted as a valid citation and enters the map, but the text keeps it verbatim |
| KeepOrdinals.LeadingZeroMarkerKept | app/workflows/nodes/sourcing.py:16-38 | ` **(01)**` is counted as a valid citation of 1 and enters the map, but the replacement looks for ` **(1)**`, so the text keeps the marker verbatim |
| KeepOrdinals.SupRender | app/workflows/nodes/sourcing.py:28-32 | after the deletion, each marker of a known ordinal becomes its superscript and every other piece is kept |
| KeepOrdinals.RenderAfterRemoval | app/workflows/nodes/sourcing.py:21-32 | deleting unknown markers and then rendering known ones as superscripts is the intended rendering |
| KeepOrdinals.KeepRenderClean | app/workflows/nodes/sourcing.py:28-32 | the intended rendering is well-formed and holds no marker |
| GroupedCitations.Names | app/workflows/sourcing_node.py:32-33 | the `sourcing[idx]["source"]` of each ordinal, in citation order |
| GroupedCitations.FirstSeen | app/workflows/sourcing_node.py:31-36 | the key order of `filename_to_indices`: the distinct source names, each once, exactly those cited, never more than the citations |
| GroupedCitations.WithName | app/workflows/sourcing_node.py:32-36 | the list appended to under one source: exactly the ordinals whose snippet comes from that source |
| GroupedCitations.GroupsOfSnoc | app/workflows/sourcing_node.py:32-36 | one more ordinal appends it to its source's list, creating the list at the end when the source is new |
| GroupedCitations.GroupsOfShape | app/workflows/sourcing_node.py:31-36 | `filename_to_indices` has the cited sources as keys, once each, in order of first citation, and each holds the ordinals citing it, in order |
| GroupedCitations.BuildGroups | app/workflows/sourcing_node.py:31-36 | the grouping loop computes `filename_to_indices`, and raises KeyError exactly when an ordinal has no snippet or its snippet has no "source" |
| GroupedCitations.SupMapOf | app/workflows/sourcing_node.py:38-44 | every value of `superscript_map` is free of marker characters |
| GroupedCitations.Spread | app/workflows/sourcing_node.py:42-43 | the inner loop maps exactly the group's ordinals, each to the group's superscript |
| GroupedCitations.BuildSupMap | app/workflows/sourcing_node.py:38-44 | the numbering loop computes `superscript_map` |
| GroupedCitations.SupMapOfAt | app/workflows/sourcing_node.py:38-44 | an ordinal of the i-th group and of no later group gets the superscript of i + 1 |
| GroupedCitations.GroupNumber | app/workflows/sourcing_node.py:38-44 | every ordinal of the i-th group is numbered i + 1 |
| GroupedCitations.SupMapLabel | app/workflows/sourcing_node.py:38-44 | every cited ordinal gets the number of its source in first-citation order |
| GroupedCitations.NumberingCovers | app/workflows/sourcing_node.py:38-48 | the numbering covers every cited ordinal, so `superscript_map[int(old_value)]` never raises, and gives each ordinal its source's number |
| GroupedCitations.LabelSameSource | app/workflows/sourcing_node.py:38-48 | two cited ordinals get the same superscript if and only if their snippets come from the same source file |
| GroupedCitations.LabelFirst | app/workflows/sourcing_node.py:38-44 | the first citation of the answer is always numbered 1 |
| GroupedCitations.BuildSupToOld | app/workflows/sourcing_node.py:50-54 | the legend loop computes `superscript_to_old` |
| GroupedCitations.LegendCovered | app/workflows/sourcing_node.py:50-54 | every group is non-empty and its first ordinal is numbered with the group's number, so the legend loop never raises |
| GroupedCitations.FirstCitingWithName | app/workflows/sourcing_node.py:50-54 | the first ordinal citing a source is the head of that source's group |
| GroupedCitations.LegendShape | app/workflows/sourcing_node.py:50-56 | the returned map has exactly one entry per distinct cited source, in first-citation order: the superscript of 1, 2, … and the first ordinal cited from that source; it is empty iff nothing was cited |
| GroupedCitations.Relabel | app/workflows/sourcing_node.py:46-48 | the relabelling loop: one `replace(" **(n)**", superscript_map[n], 1)` per valid ordinal, in order |
| GroupedCitations.RelabelMatches | app/agents/sourcing_node.py:37-40 | the agents' relabelling loop over the raw matches, one first-occurrence replacement each |
| GroupedCitations.PrettifyGrouped | app/workflows/sourcing_node.py:18-56 | `prettify_sources`: succeeds iff every valid ordinal's snippet has a "source" (else KeyError), and then returns the relabelled text and the legend of the valid ordinals |
| GroupedCitations.PrettifyAgents | app/agents/sourcing_node.py:17-48 | the agents' `prettify_sources`, which has no validity filter: succeeds iff every cited ordinal is a key with a "source" (else KeyError), and returns the relabelled text and the legend of all cited ordinals |
| GroupedCitations.GroupRender | app/workflows/sourcing_node.py:24-48 | the intended rendering, position by position: an unknown ordinal's marker disappears, any other becomes its source's number |
| GroupedCitations.AgentRender | app/agents/sourcing_node.py:22-40 | the agents' intended rendering: every marker becomes its source's number |
| GroupedCitations.LabelStarFree | app/workflows/sourcing_node.py:41 | a label is a superscript, never a marker character |
| GroupedCitations.GroupedPieces | app/workflows/sourcing_node.py:18-48 | on a well-formed answer the workflow renderer produces the intended rendering, and no marker survives |
| GroupedCitations.RelabelPieces | app/workflows/sourcing_node.py:46-48 | after the deletion, the relabelling loop turns each remaining marker into its source's number |
| GroupedCitations.AgentPieces | app/agents/sourcing_node.py:17-40 | on a well-formed answer whose cited ordinals are all known, the agents' renderer produces the intended rendering, and no marker survives |
| GroupedCitations.GroupRenderClean | app/workflows/sourcing_node.py:46-48 | the grouped rendering of a well-formed answer holds no marker |
| GroupedCitations.AgentRenderClean | app/agents/sourcing_node.py:37-40 | the agents' rendering of a well-formed answer holds no marker |
| SourceLists.SourceLine | app/workflows/nodes/sourcing.py:50-58 | one source line renders exactly when the ordinal is a key, its metadata has the filename key, and the filename is a string; otherwise KeyError for a missing key and TypeError for a non-string name |
| SourceLists.SourceLineShape | app/workflows/nodes/sourcing.py:55-58 | a line starts with the superscript, the filename as link text and the download base, and ends with `)` and a newline |
| SourceLists.Lines | app/workflows/nodes/sourcing.py:50-58 | the list of lines renders exactly when every line does |
| SourceLists.AppendLines | app/workflows/nodes/sourcing.py:50-58 | the loop appends the lines of all items to the text in item order, and stops with the exception of the first failing line |
| SourceLists.LinesError | app/workflows/nodes/sourcing.py:50-58 | a failing list fails with the exception of its first failing line, every earlier line rendering |
| SourceLists.ByDigitsPreorder | app/workflows/nodes/sourcing.py:47-48 | the sort key, `superscript_to_int` compared as strings, is a total preorder, so `sorted` is well defined |
| SourceLists.SortKeyOfSuperscript | app/workflows/nodes/sourcing.py:48 | the key of a legend entry is the decimal string of its ordinal |
| SourceLists.TenBeforeTwo | app/workflows/nodes/sourcing.py:47-48 | the string order lists ordinal 10 before ordinal 2 |
| SourceLists.SortedLegend | app/workflows/nodes/sourcing.py:34-48 | the sorted legend holds exactly the valid ordinals, each once and under its own superscript, in increasing order of their decimal strings |
| SourceLists.ConcatenateAnswer | app/workflows/nodes/sourcing.py:42-60 | `concatenate_answer` of the workflow nodes (and `concatenate_answer_new`, app/workflows/sourcing_node.py:106-124): the rendered answer, the header and the sorted lines, stripped, or "" when nothing valid is cited |
| SourceLists.HeaderKept | app/workflows/nodes/sourcing.py:45-60 | stripping keeps the "Sources:" header, so the result is not empty |
| SourceLists.SortedSourcesEmpty | app/workflows/nodes/sourcing.py:44-60 | no valid citation gives ""; a valid citation gives a non-empty text carrying "Sources:" |
| SourceLists.SortedSourcesOk | app/workflows/nodes/sourcing.py:50-58 | the list renders if and only if every valid cited ordinal names its file as a string |
| SourceLists.LinesOk | app/workflows/nodes/sourcing.py:50-58 | any list of items renders if and only if each item's ordinal names its file as a string |
| SourceLists.ConcatenateGrouped | app/workflows/sourcing_node.py:85-104 | `concatenate_answer` of the earlier workflow module: the answer renumbered by source, the header and one line per cited source in legend order (`chunk_index` without default, so a missing one renders "None"), stripped, or "" when nothing valid is cited |
| SourceLists.FirstCitingIn | app/workflows/sourcing_node.py:50-54 | the first ordinal citing a source is cited and comes from that source |
| SourceLists.LegendLinesOk | app/workflows/sourcing_node.py:90-98 | the legend's lines render if and only if every cited ordinal's source name is a string |
| SourceLists.LegendEntries | app/workflows/sourcing_node.py:50-56 | the k-th legend entry points at a cited ordinal of the k-th source in first-citation order |
| SourceLists.LegendEntryOf | app/workflows/sourcing_node.py:50-56 | every cited ordinal shares its source with some legend entry |
| SourceLists.GroupedSourcesShape | app/workflows/sourcing_node.py:85-104 | no valid citation gives ""; otherwise the text carries "Sources:"; it renders if and only if every valid cited ordinal has a string source name |
| SourceLists.ShowSourceAgents | app/agents/sourcing_node.py:50-69 | `show_source` of the agents: IndexError on an empty conversation, else one user message with the rendering of the last message, and `has_sources` |
| SourceLists.AgentSourcesShape | app/agents/sourcing_node.py:50-69 | the rendering succeeds iff every cited ordinal is known and names its file as a string; `has_sources` holds iff a marker matched; "Sources:" is always in the output |
| SourceLists.LastTaggedIsLast | app/workflows/nodes/sourcing.py:64-68 | the answer read for a path is absent iff no message carries it, and otherwise the content of the last message tagged with it |
| SourceLists.ShowSource | app/workflows/nodes/sourcing.py:62-94 | `show_source` of the workflow nodes: the loop finds the last answer of each path; a missing one is an UnboundLocalError; else the two renderings joined by a blank line in one system message |
| SourceLists.ShowSourcePages | app/workflows/sourcing_node.py:126-139 | `show_source` of the earlier workflow module: IndexError with fewer than two answers or maps; otherwise it succeeds iff both renderings against "pdf_pages" do, giving one user message |
| Documents.CopyProperties | app/workflows/retriever_node.py:26-33 | the property loop builds the metadata of a record: every key but "content" copied in order, "filename" stored as "source" (the same loop is at app/db/weaviate_client.py:177-184) |
| Documents.LastStored | app/workflows/retriever_node.py:28-33 | the property that ends up under a metadata key is the last one stored there; none when no property maps to the key |
| Documents.CopiedMetaKeys | app/workflows/retriever_node.py:28-33 | "content" and "filename" are never metadata keys |
| Documents.CopiedMetaAt | app/workflows/retriever_node.py:28-33 | any other key is present iff some property is stored under it, and holds the last such value: a "source" property and a "filename" property overwrite each other in record order |
| Documents.PageContent | app/workflows/retriever_node.py:24 | `obj.get("content", "")`: "" when absent; a content that is not a string fails the document's validation |
| Documents.ConvertAll | app/workflows/retriever_node.py:22-43 | one document per record, in order, exactly when every record converts; the first failure aborts |
| Documents.ConvertAllStop | app/workflows/retriever_node.py:22-43 | once a record fails, the conversion fails with its error |
| Documents.MongoDocShape | app/workflows/retriever_node.py:22-41 | a MongoDB document keeps the record's content, carries `uuid = str(_id)` overriding any "uuid" field, never holds "content" or "filename", and has "source" iff the record had "filename" or "source" (also app/workflows/retriever_node.py:45-65) |
| Documents.ConvertMongoDocs | app/workflows/retriever_node.py:16-43 | the record loop of both MongoDB converters computes the conversion of every record |
| Documents.PageContents | app/agents/return_docs_node.py:6-7 | the page contents of a document list, one per document, in order |
| WeaviateClient.WeaviateMetaShape | app/db/weaviate_client.py:177-191 | the metadata always carries `weaviate_uuid = str(uuid)` and never "content" or "filename"; "distance" and "score" hold the query metadata's value when it is not None, and are otherwise present only when copied from a property of that name |
| WeaviateClient.WeaviateDocContent | app/db/weaviate_client.py:175-196 | one document per object, with the object's content and that metadata |
| WeaviateClient.ObjectMetadata | app/db/weaviate_client.py:177-191 | the metadata loop copies the properties, then sets the uuid, the distance and the score |
| WeaviateClient.ProcessQueryReturns | app/db/weaviate_client.py:167-199 | `_processing_query_returns`: exactly one document per object, in the same order |
| WeaviateClient.QueryParams.constructor | app/db/weaviate_client.py:156 | the parameter dict is the caller's own object, holding the caller's entries |
| WeaviateClient.QueryParams.Query | app/db/weaviate_client.py:156-165 | `query_params` writes `return_metadata` and `bm25_operator` into the caller's dict, then the embedding of `params["query"]` into "vector" (KeyError when there is no query, after the first two writes), then runs the hybrid query on the updated dict and converts its objects |
| WeaviateClient.InjectedParams | app/db/weaviate_client.py:160-162 | after the writes, the three keys hold the client's values, a caller-supplied vector included, and every other key reads as the caller left it |
| WeaviateClient.WeaviateClientManager.constructor | app/db/weaviate_client.py:22-33 | the manager starts from the collections the database already has |
| WeaviateClient.WeaviateClientManager.CheckCollectionExistence | app/db/weaviate_client.py:35-37 | true iff the collection exists |
| WeaviateClient.WeaviateClientManager.CreateCollection | app/db/weaviate_client.py:48-97 | an existing collection gives `(False, "Collection already exist in databse")` and nothing changes; otherwise the collection is created with a success message, or a failure reason gives `(False, "Can't create collection : … due to …")` and nothing is created |
| Sorting.Sort | app/workflows/nodes/retriever.py:11 | `sorted` returns a permutation of its input, of the same length |
| Sorting.SortSorted | app/workflows/nodes/retriever.py:11 | under any total preorder, the result of `sorted` is in order |
| Sorting.SortStable | app/workflows/nodes/retriever.py:11 | `sorted` is stable: the elements equivalent to any e leave in their input order (for `reverse=True` as well, the key comparing descending) |
| Sorting.InsertSorted | app/workflows/nodes/retriever.py:11 | inserting into an ordered sequence keeps it ordered |
| Sorting.InsertStable | app/workflows/nodes/retriever.py:11 | inserting x ahead of its equivalents puts x first among them and keeps the rest in order |
| Dedup.KeepFirstLoop | app/workflows/nodes/retriever.py:38-69 | the loop with a `seen` set returns the first document of each key and every document whose key is exempt (a falsy uuid), in input order |
| Dedup.FuzzyMatch | app/workflows/nodes/retriever.py:74-79 | the inner loop reports a duplicate iff some kept document has the same stripped, lower-cased content |
| Dedup.KeepFirstFuzzy | app/workflows/nodes/retriever.py:71-82 | the nested "content_fuzzy" loops keep each document whose normalised content no earlier kept document has |
| Dedup.RemoveDuplicateDocuments | app/workflows/nodes/retriever.py:14-88 | `remove_duplicate_documents` dispatches on the strategy name: empty input gives `[]`, the four strategies their loops, and an unknown name the input unchanged |
| Dedup.SeenKeysIn | app/workflows/nodes/retriever.py:43-47 | a key is in `seen` exactly when some non-exempt document carries it |
| Dedup.KeepFirstSeen | app/workflows/nodes/retriever.py:38-69 | deduplication loses no key |
| Dedup.KeepFirstExempts | app/workflows/nodes/retriever.py:48-50 | every document without a uuid survives, in order |
| Dedup.KeepFirstSubseq | app/workflows/nodes/retriever.py:27 | the result is the input with some documents dropped, order of first occurrence kept |
| Dedup.KeepFirstUnique | app/workflows/nodes/retriever.py:45-47 | no two survivors share a non-exempt key |
| Dedup.KeepFirstIdempotent | app/workflows/nodes/retriever.py:14-88 | deduplicating twice gives the same as once |
| Dedup.KeepFirstDistinct | app/workflows/nodes/retriever.py:14-88 | a list whose non-exempt keys are already distinct comes out unchanged |
| Dedup.KeepFirstCover | app/workflows/nodes/retriever.py:45-47 | a non-exempt key occurs in the output iff it occurs in the input |
| Dedup.KeepFirstNoExempt | app/workflows/nodes/retriever.py:52-82 | without exemptions the survivors have pairwise distinct keys and every key of the input survives |
| Dedup.RemoveDuplicatesSubseq | app/workflows/nodes/retriever.py:14-88 | under every strategy the result is a subsequence of the input, never longer, and a second pass changes nothing |
| Dedup.UuidStrategy | app/workflows/nodes/retriever.py:41-50 | "uuid": every document whose `weaviate_uuid or uuid` is falsy survives in order; each truthy uuid of the input survives exactly once |
| Dedup.ContentStrategy | app/workflows/nodes/retriever.py:52-58 | "content": no two survivors share their content, and every content of the input survives |
| Dedup.UuidContentStrategy | app/workflows/nodes/retriever.py:60-69 | "content_and_uuid": no two survivors share the pair (uuid, content), and every pair of the input survives |
| Dedup.FuzzyStrategy | app/workflows/nodes/retriever.py:71-82 | "content_fuzzy": no two survivors share their stripped, lower-cased content, and every such content of the input survives |
| Dedup.UnknownStrategy | app/workflows/nodes/retriever.py:84-86 | any other strategy name returns the input unchanged |
| Ranking.SliceLength | app/workflows/nodes/retriever.py:11 | `[:top_k]` keeps min(k, n) elements for k >= 0, and drops -k from the end for negative k |
| Ranking.ByScoreDescPreorder | app/workflows/nodes/retriever.py:11 | ordering by descending `score` (missing score as 0) is a total preorder |
| Ranking.SortByScoreSpec | app/workflows/nodes/retriever.py:10-12 | `sort_documents_by_score`: descending by score, at most `top_k` documents and never more than the input, each from the input, no two with the same truthy uuid |
| Ranking.SortByScoreStable | app/workflows/nodes/retriever.py:11 | documents of equal score keep their input order before truncation |
| Ranking.SubseqSorted | app/workflows/nodes/retriever.py:12 | the deduplication after the sort keeps the order |
| Ranking.TallyCount | app/workflows/retriever_node.py:84-95 | the `Counter` counts each key as often as it occurs |
| Ranking.TallyKeys | app/workflows/retriever_node.py:84-95 | the `Counter`'s keys are exactly the elements counted, each once |
| Ranking.TallyTotal | app/workflows/retriever_node.py:84-95 | the counts add up to the number of elements counted |
| Ranking.PutTotal | app/workflows/retriever_node.py:89-93 | incrementing one count changes the total by the difference |
| Ranking.MostCommon | app/workflows/retriever_node.py:97-98 | `most_common(n)` has min(n, number of keys) entries, none for n <= 0 |
| Ranking.MostCommonTop | app/workflows/retriever_node.py:97-98 | every entry kept is one of the counter's, and none left out has a higher count than a kept one |
| Ranking.MostCommonDistinct | app/workflows/retriever_node.py:97-98 | the most common keys are distinct |
| TopSources.FirstIndex | app/workflows/retriever_node.py:95 | the position of the first document with a uuid: it carries the uuid and no earlier one does |
| TopSources.FirstSeenAt | app/workflows/retriever_node.py:92-95 | `uuid_to_doc` holds exactly the truthy uuids, each with its first document (`setdefault`) |
| TopSources.CountDocuments | app/workflows/retriever_node.py:84-95 | the counting loop builds `uuid_to_doc` and the two counters over the truthy uuids and sources |
| TopSources.CollectDocuments | app/workflows/retriever_node.py:100-109 | the collecting loop returns, in iteration order, the first document of each top uuid whose source is a top source |
| TopSources.GetTopSources | app/workflows/retriever_node.py:67-111 | `get_top_sources` over the given iteration order of the top-uuid set |
| TopSources.PickedIn | app/workflows/retriever_node.py:103-109 | a document is collected iff it is the first document of an iterated uuid and its source is frequent |
| TopSources.PickedDistinct | app/workflows/retriever_node.py:103-109 | the collected documents have distinct uuids, at most one per iterated uuid |
| TopSources.TopSourcesEmpty | app/workflows/retriever_node.py:76-77 | empty input gives no documents |
| TopSources.TopSourcesSpec | app/workflows/retriever_node.py:67-111 | a document is returned iff it is the first document of one of the `top_n_uuids` most frequent truthy uuids and its source is among the `top_n_source` most frequent; no two returned share a uuid; at most `top_n_uuids` of them, none for a negative count |
| Combinations.CombSound | app/workflows/retriever_node.py:204 | every tuple `itertools.combinations` yields is an increasing r-tuple of positions |
| Combinations.CombComplete | app/workflows/retriever_node.py:204 | every increasing r-tuple of positions is yielded |
| Combinations.CombDistinct | app/workflows/retriever_node.py:204 | no tuple is yielded twice |
| Combinations.CombCount | app/workflows/retriever_node.py:204 | there are C(n, r) tuples |
| Combinations.IndexCombosCount | app/workflows/retriever_node.py:203-204 | sizes 1..r together give C(n,1) + … + C(n,r) tuples |
| Combinations.BinomRow | app/workflows/retriever_node.py:203-206 | the sizes 1..n give 2^n - 1 combinations in all |
| Combinations.IndexCombosSpec | app/workflows/retriever_node.py:203-204 | the tuples behind `all_combos` are exactly the non-empty increasing position tuples, each once, smaller sizes first |
| Combinations.AllCombos | app/workflows/retriever_node.py:202-206 | `all_combos` has 2^n - 1 entries |
| Combinations.BuildCombos | app/workflows/retriever_node.py:202-204 | the outer loop builds `all_combos` size by size |
| Combinations.SampleCombinations | app/workflows/retriever_node.py:193-216 | no keywords yield nothing; a negative `max_samples` raises ValueError; otherwise min(2^n - 1, `max_samples`) combinations, the k-th being `all_combos` at the k-th sampled position |
| Retrieval.KeywordListSpec | app/workflows/nodes/retriever.py:97-101 | the phrase list has at least two phrases, the comma pieces of the latest message (which rejoin to it) and then the first message |
| Retrieval.FetchSpec | app/workflows/nodes/retriever.py:105-121 | collecting the replies succeeds iff every reply does, and then holds exactly the documents of the replies |
| Retrieval.FetchSnoc | app/workflows/nodes/retriever.py:107-121 | one more phrase extends the collected list by its reply, or fails with its exception |
| Retrieval.FetchErr | app/workflows/nodes/retriever.py:120 | once a reply raises, later phrases change nothing |
| Retrieval.FetchComparable | app/workflows/nodes/retriever.py:123 | replies that all carry numeric scores collect into a list that can be sorted by score |
| Retrieval.FetchAll | app/workflows/nodes/retriever.py:144-156 | the full-text phrase loop extends the list with each search's documents in phrase order |
| Retrieval.RunQuery | app/db/weaviate_client.py:156-165 | one `query_params` call: its outcome and the dict as the client left it |
| Retrieval.AttemptComparable | app/db/weaviate_client.py:167-199 | a reply whose objects all have numeric scores converts to documents that can be sorted by score |
| Retrieval.VectorParamsSpec | app/workflows/nodes/retriever.py:109-120 | each phrase's query goes out with that phrase, the `top_k` limit, the keyword vector and the client's embedding of the phrase (overwriting the runtime embedding), with a filename filter iff the filename list is non-empty |
| Retrieval.VectorParamsReads | app/workflows/nodes/retriever.py:109-118 | the dict as built reads the phrase, the limit, the keyword vector and the filename filter exactly when there are filenames |
| Retrieval.VectorCalls | app/workflows/nodes/retriever.py:107-120 | one request per phrase, in phrase order |
| Retrieval.CallsComparable | app/workflows/nodes/retriever.py:121-123 | scored replies collect into a list that can be sorted by score |
| Retrieval.QueryAll | app/workflows/nodes/retriever.py:105-121 | the vector phrase loop: one client query per phrase, the replies extended in order, the first exception propagating |
| Retrieval.RetrieveByVectorSearch | app/workflows/nodes/retriever.py:90-127 | `retrieve_documents_by_vector_search`: IndexError on an empty history, else the collected replies sorted by score, cut to `top_k` and deduplicated |
| Retrieval.TextCalls | app/workflows/nodes/retriever.py:146-155 | one full-text search per phrase, each passing the phrase, the filenames and `top_k`, to a search declaring a given number of parameters |
| Retrieval.RetrieveByFulltextSearch | app/workflows/nodes/retriever.py:129-162 | `retrieve_documents_by_fulltext_search`: IndexError on an empty history; else the first exception of the phrase loop (TypeError when the search declares fewer parameters than the five arguments passed), or the documents of every phrase's search sorted by score and cut to `top_k` |
| Retrieval.SearchPathsEmpty | app/workflows/nodes/retriever.py:98-137 | both search nodes raise IndexError on an empty history, whatever the search declares |
| Retrieval.FullTextPathSpec | app/workflows/nodes/retriever.py:129-162 | with a search that takes the five arguments passed, on a non-empty history the full-text node succeeds iff every phrase's search does; its documents are then ordered by descending score, at most `top_k`, each from one phrase's search |
| Retrieval.FullTextAsWrittenRaises | app/workflows/nodes/retriever.py:149-155 | as written, with `full_text_search` declaring four parameters after `self` (app/db/mongodb_client.py:48), the full-text node raises TypeError on every non-empty history |
| Retrieval.VectorPathSpec | app/workflows/nodes/retriever.py:90-127 | a successful vector node is ordered by descending score, at most `top_k`, free of repeated truthy uuids, each document in the reply to one phrase's query |
| Retrieval.RetrievalPhrasesSpec | app/workflows/retriever_node.py:226-234 | `retrieve_documents` searches the comma pieces of the latest message, then one space-joined combination of them at increasing positions, then the first message |
| Retrieval.Keywords | app/workflows/retriever_node.py:226-234 | the phrase list is built from the pieces, one sampled combination and the question |
| Retrieval.QueryWithFallback | app/workflows/retriever_node.py:245-260 | the query for a phrase and, when it raises, one retry on the same dict (already written into by the client) retargeted at "content_vector"; a second exception propagates; the dicts sent are recorded |
| Retrieval.FallbackBranches | app/workflows/retriever_node.py:255-260 | a successful first query is the answer and the only request; a failed one is followed by exactly the retargeted request, whose reply is the answer |
| Retrieval.QueryOn | app/db/weaviate_client.py:156-165 | `query_params` on a parameter object is its outcome on the dict it held, and leaves the dict the client wrote |
| Retrieval.InitialReads | app/workflows/retriever_node.py:245-250 | the fresh dict reads the phrase, the limit and the keyword vector |
| Retrieval.SentReads | app/db/weaviate_client.py:156-165 | the client writes the embedding of the query under "vector" and leaves query, limit and target as they were |
| Retrieval.RetargetedReads | app/workflows/retriever_node.py:259 | retargeting changes the target vector only |
| Retrieval.FallbackShape | app/workflows/retriever_node.py:255-260 | one or two requests, two exactly when the first query raises, and the outcome is the reply to the last request sent |
| Retrieval.FallbackReads | app/workflows/retriever_node.py:255-260 | both requests carry the caller's query, limit and the client's embedding of the query; the first keeps the keyword target, the retry targets the content vector |
| RetrieverNode.StepVector | app/workflows/retriever_node.py:255-263 | a successful phrase contributes its query's reply to the vector aggregate |
| RetrieverNode.StepText | app/workflows/retriever_node.py:243-264 | a successful phrase contributes its converted full-text records to the text aggregate |
| RetrieverNode.PhraseCalls | app/workflows/retriever_node.py:241-250 | one call per phrase, in order, each with the fresh dict for its phrase |
| RetrieverNode.GatheredSnoc | app/workflows/retriever_node.py:263-264 | a successful phrase extends both aggregates |
| RetrieverNode.GatheredStop | app/workflows/retriever_node.py:241-264 | once a phrase fails, the loop fails with its exception |
| RetrieverNode.GatheredFails | app/workflows/retriever_node.py:241-264 | a failing phrase after successful ones ends the node with its exception |
| RetrieverNode.SearchPhrase | app/workflows/retriever_node.py:243-264 | the loop body: the full-text search, the hybrid query with its retry, the conversion of the full-text records |
| RetrieverNode.RetrieveAll | app/workflows/retriever_node.py:238-264 | the phrase loop builds the two aggregates in phrase order, or stops at the first exception |
| RetrieverNode.GatheredSpec | app/workflows/retriever_node.py:238-264 | the loop succeeds iff every phrase does; a document is aggregated iff some phrase's result holds it, on each side |
| RetrieverNode.TopOrderEnumerates | app/workflows/retriever_node.py:103 | the order the top-uuid set is visited in lists each top uuid exactly once |
| RetrieverNode.GatheredComparable | app/workflows/retriever_node.py:267 | with a scoring full-text search, the text aggregate can be sorted by score |
| RetrieverNode.ConvertedComparable | app/workflows/retriever_node.py:262 | records with text scores convert to documents with scores |
| RetrieverNode.RetrieveDocuments | app/workflows/retriever_node.py:218-272 | `retrieve_documents`: IndexError on an empty history; else the phrase loop, `get_top_sources` of the vector aggregate, `sort_documents_by_score` of the text aggregate, both rendered as newline-joined page contents |
| RetrieverNode.RetrieveDocumentsOutcome | app/workflows/retriever_node.py:218-272 | the node fails on an empty history, and otherwise exactly when some phrase's searches fail |
| RetrieverNode.RetrieveDocumentsVector | app/workflows/retriever_node.py:266 | the vector documents answered have distinct uuids, are at most `top_k`, and each is in the reply to some phrase's query |
| RetrieverNode.VectorDocSource | app/workflows/retriever_node.py:255-266 | a vector document answered names the phrase whose query returned it |
| RetrieverNode.RetrieveDocumentsText | app/workflows/retriever_node.py:267 | the text documents answered are ordered by descending score, at most `top_k`, each from some phrase's full-text records |
| SearchUi.OtherProperties | weaviate_ui/app.py:54 | the metadata comprehension keeps no more entries than the properties |
| SearchUi.DisplayShape | weaviate_ui/app.py:47-61 | a record's metadata is, in property order, exactly the properties other than "content" and "source"; the source falls back to "Unknown source", the content to ""; no query metadata gives neither score nor distance |
| SearchUi.OtherPropertiesSpec | weaviate_ui/app.py:54 | the comprehension keeps exactly the properties other than "content" and "source", in order |
| SearchUi.DisplayedStep | weaviate_ui/app.py:50-60 | one more object appends its record |
| SearchUi.ConvertToDisplay | weaviate_ui/app.py:47-61 | `convert_weaviate_objects_to_display` turns each object into its record, in order |
| SearchUi.SourcesOf | weaviate_ui/app.py:136 | one source per object, "Unknown" when it has none |
| SearchUi.SourcesStep | weaviate_ui/app.py:135-137 | one more object raises its source's count by one |
| SearchUi.CountSources | weaviate_ui/app.py:134-137 | the counting loop yields the per-source counts in order of first appearance |
| SearchUi.SourceStatistics | weaviate_ui/app.py:130-153 | every source is listed once with its number of objects; the counts add up to the total shown; the listing is a permutation of the counts ordered by count, highest first, sources with equal counts in order of first appearance |
| SearchUi.Preview | weaviate_ui/app.py:165 | content longer than 200 characters is cut to its first 200 followed by "...", shorter content is shown whole |
| SearchUi.SearchPhrases | weaviate_ui/app.py:195-202 | the phrases are the comma pieces, one sampled combination, and the whole query |
| SearchUi.Queries | weaviate_ui/app.py:205-213 | one query per phrase, in order, with the stripped phrase, `top_k` and the source filter |
| SearchUi.QueriesSnoc | weaviate_ui/app.py:205-213 | one more phrase appends its query |
| SearchUi.Displayed | weaviate_ui/app.py:216 | the records of a result list, object by object |
| SearchUi.FetchedSnoc | weaviate_ui/app.py:215-217 | one more query extends the aggregate by its converted results |
| SearchUi.Values | weaviate_ui/app.py:221 | `list(unique_docs.values())` holds the entries' values in order |
| SearchUi.FirstWith | weaviate_ui/app.py:220 | the first record with a uuid carries it and no earlier one does |
| SearchUi.LastWith | weaviate_ui/app.py:220 | the last record with a uuid carries it and no later one does |
| SearchUi.ByUuidSpec | weaviate_ui/app.py:220 | the uuid dict keys each record by its uuid, has distinct keys, holds a uuid iff some record carries it, and reads the last record with that uuid |
| SearchUi.ByUuidOrder | weaviate_ui/app.py:220-221 | the dict's entries are in order of each uuid's first appearance |
| SearchUi.KeysFirstOrder | weaviate_ui/app.py:220-221 | of two entries, the earlier one's uuid appears first in the records |
| SearchUi.FirstWithPrefix | weaviate_ui/app.py:220 | a uuid seen before the last record keeps its first position |
| SearchUi.ByUuidSnoc | weaviate_ui/app.py:220 | the last record adds its uuid as a new last key, or leaves the keys as they were |
| SearchUi.Search | weaviate_ui/app.py:190-224 | the search button issues one query per phrase and shows the records of all results, one per uuid (the last fetched), sorted by score |
| SearchUi.FetchAll | weaviate_ui/app.py:205-217 | the phrase loop issues the queries in order and collects every converted result |
| SearchUi.KeepLast | weaviate_ui/app.py:220 | the dict comprehension, one insertion at a time |
| SearchUi.SearchResults | weaviate_ui/app.py:220-224 | the records shown are the merged records sorted by descending score (missing as 0), ties in first-appearance order, a permutation of the merge, no uuid shown twice |
| SearchUi.SortedDistinctBy | weaviate_ui/app.py:224 | sorting records with distinct uuids keeps them distinct |
| SearchUi.MultisetOne | weaviate_ui/app.py:224 | an element of a sequence of distinct uuids occurs once |
| Snippets.AugmentContext | app/workflows/nodes/generate_answer.py:20-27 | the enumerate loop builds exactly the snippet context and the ordinal-keyed source map of the documents |
| Snippets.SourcingKeys | app/workflows/nodes/generate_answer.py:24-25 | the map's keys are exactly 1..n and ordinal i + 1 holds document i; no documents give "" and an empty map |
| Snippets.SourcingEntrySpec | app/agents/generate_answer_node.py:49 | each entry holds "text" (overridden by a metadata "text") and exactly the metadata's other keys |
| Snippets.SnippetsSnoc | app/agents/generate_answer_node.py:48-50 | one more document appends one more numbered snippet line |
| Snippets.ContextSnippets | app/workflows/nodes/generate_answer.py:22-26 | the context is the in-order concatenation of the snippets numbered from 1 |
| GraphState.Apply | app/workflows/states.py:11 | merging an update appends its messages after the old ones and overwrites exactly the keys it returns |
| GraphState.UnchangedKeeps | app/workflows/nodes/generate_answer.py:89-90 | a node that returns the state leaves it unchanged |
| GraphState.Nth | app/workflows/nodes/generate_answer.py:78-79 | `messages[i]` with negative indices; out of range is IndexError |
| GraphState.IntField | app/workflows/states.py:16 | a missing key is KeyError, an int is read as it is, anything else fails |
| GraphState.DocsField | app/workflows/states.py:13-14 | a document list is read as it is, otherwise KeyError or a type error |
| GraphState.AnyField | app/workflows/states.py:18 | `state[key]` succeeds exactly for present keys |
| GraphState.StrField | app/workflows/states.py:19-23 | a string field is read as it is, anything else fails |
| Grading.LowerContainsYes | app/agents/helper_classes.py:16 | "yes" occurs in the lower-cased reply iff the reply spells it in some mix of case |
| Grading.SafeParseGradeSpec | app/agents/helper_classes.py:10-18 | a decodable reply is taken as given; otherwise the grade is "yes" iff the reply spells "yes", else "no" |
| Grading.GradeQuerySpec | app/agents/query_validation_node.py:29-45 | the route is keyword extraction iff the score is exactly "yes", the general answer otherwise; an empty conversation raises IndexError |
| Grading.GradeQueryFirstOnly | app/agents/query_validation_node.py:33 | only the first message decides the route |
| Grading.RetryLimit | app/agents/grade_document_node.py:10 | the limit is 3 when unset and the parsed variable otherwise |
| Grading.GradeDocumentsSpec | app/agents/grade_document_node.py:27-49 | at or past the limit the answer is generated; below it, "yes" answers and anything else rewrites |
| Grading.RewritesBounded | app/agents/grade_document_node.py:31 | from count c at most limit - c rewrites happen, whatever the grading model says |
| Grading.RewritesExhaust | app/agents/grade_document_node.py:31-49 | a grader that never says "yes" uses the whole budget and then answers |
| Nodes.ExtractKeywordsInitialStep | app/workflows/nodes/extract_keywords.py:7-15 | one keyword message from the first question, no other key; an empty conversation raises IndexError |
| Nodes.ExtractKeywordsStep | app/workflows/nodes/extract_keywords.py:18-28 | one message from the first and second-to-last messages, the counter plus one, every other key kept |
| Nodes.RewriteQuestionStep | app/agents/rewrite_question_node.py:21-27 | the rewrite of `messages[-2]` appended, the counter plus one, docs and sourcing handed on unchanged |
| Nodes.ExtractRoundsCount | app/workflows/extract_keywords_node.py:66-76 | n re-extractions add n messages and n to the counter |
| Nodes.ReturnDocsOrGenerateSpec | app/workflows/nodes/decision_point.py:6-13 | the return-docs branch iff the flag is truthy, generation otherwise; a missing flag is KeyError |
| Nodes.ReturnDocsOrGenerateReadsFlag | app/workflows/nodes/decision_point.py:11 | states with the same flag take the same branch |
| Nodes.JoinAppend | app/workflows/nodes/return_docs.py:9 | joining two lists joins their joins with one separator |
| Nodes.ReturnDocsSpec | app/workflows/nodes/return_docs.py:6-10 | one system message listing the vector documents before the full-text ones, "" for none, no key returned |
| Nodes.ReturnDocsMissingFilename | app/workflows/nodes/return_docs.py:9 | a document without a filename raises KeyError |
| Nodes.ReturnDocsAgentsSpec | app/agents/return_docs_node.py:3-8 | one user message of the page contents in order, "" for none, fields unchanged |
| Nodes.DetectFilenameDisabled | app/workflows/nodes/filename_detection.py:11-13 | with filtering off the state is unchanged |
| Nodes.DetectFilenameShape | app/workflows/nodes/filename_detection.py:15-35 | with filtering on only `filtered_filenames` is returned, the names the reply selects among the collection's files |
| Nodes.KnownIdContributes | app/workflows/nodes/filename_detection.py:32 | a piece contributes its stripped form iff that is an available id |
| Nodes.KnownIdsMember | app/workflows/nodes/filename_detection.py:32 | an id is kept iff some piece strips to it and it is available |
| Nodes.DetectedIdsSpec | app/workflows/nodes/filename_detection.py:32 | an id is detected iff some comma piece of the reply strips to it and it is available |
| Nodes.SelectedFilenamesSpec | app/workflows/nodes/filename_detection.py:33 | a name is selected iff it is the available name of a detected id |
| Nodes.SelectedPerId | app/workflows/nodes/filename_detection.py:33 | one name per id, position by position |
| Nodes.SelectFilesSpec | app/workflows/nodes/filename_detection.py:32-33 | the selection has one name per detected id in reply order, duplicates kept |
| Nodes.GenerateForChannelSpec | app/workflows/nodes/generate_answer.py:29-71 | one answer tagged with the channel's path and a map keyed exactly 1..n under the channel's own key; the two channels never share a key |
| Nodes.GenerateAnswerBranchingKeeps | app/workflows/nodes/generate_answer.py:89-90 | the branching node changes nothing |
| Nodes.GenerateAnswerAgenticRagSpec | app/agents/generate_answer_node.py:53-59 | one answer and a `sourcing` map keyed exactly 1..n |
| Nodes.SingleAnswers | app/agents/generate_answer_node.py:61-78 | the initial, SQL and null answers each append one message and change no key |
| Workflows.ChoiceSteps | app/workflows/graph.py:47-52 | a conditional edge allows one move per mapping entry, from its source to that entry's target |
| Workflows.AllChoiceStepsMember | app/workflows/graph.py:47-52 | a pair is a conditional move iff some conditional edge from that source maps some label to that target |
| Workflows.AgenticRagChoices | app/workflows/configs/agentic_rag.py:30-59 | the workflow's moves are its twelve edges and the merge's two conditional targets |
| Workflows.ListedMovesAreMoves | app/workflows/configs/agentic_rag.py:30-59 | every listed move is one of the node-by-node moves |
| Workflows.StepIsMove | app/workflows/configs/agentic_rag.py:30-59 | a move of the workflow is a node-by-node move |
| Workflows.MoveIsStep | app/workflows/configs/agentic_rag.py:30-59 | a node-by-node move is a move of the workflow |
| Workflows.AgenticRagSteps | app/workflows/configs/agentic_rag.py:30-59 | the workflow's moves are exactly the node-by-node moves |
| Workflows.IncomingMoves | app/workflows/configs/agentic_rag.py:37-48 | the moves into the entry (none), the merge (the two retrievals), the source rendering (the two generators) and the exit (return_docs and show_source) |
| Workflows.EntryAndExits | app/workflows/configs/agentic_rag.py:31-48 | one entry move to keyword extraction; exactly return_docs and show_source reach END; nothing re-enters START or leaves END |
| Workflows.FanOutFanIn | app/workflows/configs/agentic_rag.py:34-58 | detection fans out to both retrievals which join at the merge; the merge goes on to return_docs or the branching; the branching fans out to both generators which join at show_source |
| Workflows.MergeOnlyConditional | app/workflows/configs/agentic_rag.py:30-49 | no plain edge leaves the merge |
| Workflows.RankIncreases | app/workflows/configs/agentic_rag.py:30-59 | every move raises the node's rank |
| Workflows.PathsClimb | app/workflows/graph.py:44-52 | in a workflow whose moves raise a rank, rank grows strictly along every path |
| Workflows.Acyclic | app/workflows/configs/agentic_rag.py:30-59 | no node repeats on a path: the workflow has no cycle |
| Workflows.RegistrationsNamed | app/workflows/configs/agentic_rag.py:18-29 | no registration names START or END |
| Workflows.AgenticRagRegistered | app/workflows/configs/agentic_rag.py:18-29 | exactly the ten nodes other than START and END are registered |
| Workflows.EndpointsRegistered | app/workflows/configs/agentic_rag.py:18-59 | every move joins registered nodes, START or END |
| Workflows.PathCons | app/workflows/graph.py:44-52 | a path extends backwards by a move into its first node |
| Workflows.RunFromGenerator | app/workflows/configs/agentic_rag.py:42-48 | branching, a generator, show_source, END is a path |
| Workflows.RunToMerge | app/workflows/configs/agentic_rag.py:31-38 | START through either retrieval to the merge is a path prefix |
| Workflows.RunToRetrieval | app/workflows/configs/agentic_rag.py:31-35 | START, keyword extraction and detection lead to either retrieval |
| Workflows.RunThroughReturnDocs | app/workflows/configs/agentic_rag.py:31-55 | a complete run through the document rendering exists for either retrieval |
| Workflows.RunThroughGenerator | app/workflows/configs/agentic_rag.py:31-56 | a complete run through either retrieval and either generator exists |
| Workflows.EveryNodeOnARun | app/workflows/configs/agentic_rag.py:18-59 | every registered node lies on a run from START to END |
| Workflows.DecisionLabelsMapped | app/workflows/nodes/decision_point.py:6-13 | every label the decision returns is a key of the merge's mapping, and "return_docs" leads to return_docs |
| LoadConfig.TranslateSpec | app/workflows/configs/load_config.py:20-29 | only a source "START" becomes the entry and only a destination "END" the exit; every other name is kept |
| LoadConfig.TranslateRoundTrip | app/workflows/configs/load_config.py:20-21 | writing a name back and reading it gives the name, except a literal "START" source or "END" destination |
| LoadConfig.LoadNodesSpec | app/workflows/configs/load_config.py:15 | succeeds iff every function name is known (KeyError otherwise); keys kept in order, each mapped to its function |
| LoadConfig.LoadEdges | app/workflows/configs/load_config.py:17-22 | the edge loop computes exactly the translated edge list, or the ValueError of the first malformed entry |
| LoadConfig.EdgesFailFrom | app/workflows/configs/load_config.py:18-19 | once an entry fails to unpack, the whole load fails the same way |
| LoadConfig.EdgesOfSpec | app/workflows/configs/load_config.py:17-22 | succeeds iff every entry holds two names; count and order kept, each edge translated |
| LoadConfig.ExportEdges | app/workflows/configs/load_config.py:17-22 | writing edges back gives one two-name entry per edge, reserved names as "START"/"END" |
| LoadConfig.EdgesRoundTrip | app/workflows/configs/load_config.py:17-22 | loading written-back edges gives the same edges when no node is literally "START" or "END" |
| LoadConfig.ConditionalOf | app/workflows/configs/load_config.py:28-35 | one entry loads iff its function is known and it has a source and a mapping; the source translated when "START", the mapping kept, KeyError otherwise |
| LoadConfig.ConditionalsFailFrom | app/workflows/configs/load_config.py:27-28 | once an entry fails, the whole load fails the same way |
| LoadConfig.LoadConditionals | app/workflows/configs/load_config.py:24-36 | the conditional-edge loop computes exactly the loaded list or the first failure |
| LoadConfig.ConditionalsOfSpec | app/workflows/configs/load_config.py:24-36 | succeeds iff every entry loads; count and order kept, entry by entry |
| LoadConfig.LoadWorkflowConfig | app/workflows/configs/load_config.py:8-42 | the whole translation computes exactly the loaded workflow or its error |
| LoadConfig.WorkflowOfSpec | app/workflows/configs/load_config.py:15-42 | a loaded workflow holds the loaded nodes and translated edges; an absent conditional entry gives none; a missing nodes or edges entry is KeyError; only KeyError or ValueError arise |
| AgentGraph.GraphBuilder.constructor | app/agents/graph.py:15 | a new builder has no nodes, edges or routers |
| AgentGraph.GraphBuilder.AddNode | app/agents/graph.py:17-26 | appends one node name and changes nothing else |
| AgentGraph.GraphBuilder.AddEdge | app/agents/graph.py:30-37 | appends one edge and changes nothing else |
| AgentGraph.GraphBuilder.AddConditionalEdges | app/agents/graph.py:29-33 | appends one router and changes nothing else |
| AgentGraph.AddAgentNodes | app/agents/graph.py:17-26 | the ten registrations, in order |
| AgentGraph.AddAgentEdges | app/agents/graph.py:29-37 | the five edges and two routers, in order |
| AgentGraph.BuildAgenticRag | app/agents/graph.py:13-41 | a fresh builder holding exactly those nodes, edges and routers |
| AgentGraph.GradeQueryRoutesToNodes | app/agents/graph.py:29 | START is routed by grade_query, and every label it returns is a registered node |
| AgentGraph.GradeDocumentsRoutesNowhere | app/agents/graph.py:33 | retrieval is routed by grade_documents, and no label it returns is a registered node |
| AgentGraph.AgentExits | app/agents/graph.py:30-37 | exactly the initial answer, null answer, return_docs and show_source lead to END; extraction leads to retrieval and the answer to show_source |
| AgentGraph.BuildSmartSql | app/agents/graph.py:43-55 | a fresh builder with the two SQL nodes, no routers and the three edges START, execute_sql, generate_answer_smart_sql, END |
| AgentGraph.ChainLinks | app/agents/graph.py:50-52 | in a chain of distinct nodes each node is entered once and left once |
| AgentGraph.SmartSqlLinear | app/agents/graph.py:47-52 | the SQL graph is a chain: each node has exactly one way in and one way out |
| SmartSql.CleanSql | app/workflows/nodes/sql.py:13-15 | the cleaned query never starts or ends with whitespace |
| SmartSql.UnfenceStep | app/workflows/nodes/sql.py:15 | a character other than a backtick survives the fence removal |
| SmartSql.UnfenceKeeps | app/workflows/nodes/sql.py:15 | a stretch without backticks survives the fence removal as it is |
| SmartSql.StripTwice | app/workflows/nodes/sql.py:15 | stripping is idempotent |
| SmartSql.StripNoBacktick | app/workflows/nodes/sql.py:15 | stripping keeps a text free of backticks |
| SmartSql.CleanSqlNoFence | app/agents/sql_node.py:54-56 | a reply without backticks is only trimmed |
| SmartSql.UnfenceNoBacktick | app/agents/sql_node.py:56 | fence removal leaves a text without backticks unchanged |
| SmartSql.CleanSqlFenced | app/workflows/nodes/sql.py:13-15 | a trimmed backtick-free query fenced with "```" or "```sql" comes back exactly |
| SmartSql.FencedClean | app/workflows/nodes/sql.py:15 | the inner trim leaves a fenced reply as it is |
| SmartSql.FencedUnfence | app/workflows/nodes/sql.py:15 | fence removal leaves the body between its two newlines |
| SmartSql.LStripNewline | app/workflows/nodes/sql.py:15 | the outer trim drops a leading newline before a non-space |
| SmartSql.RStripNewline | app/workflows/nodes/sql.py:15 | the outer trim drops a trailing newline after a non-space |
| SmartSql.StripNewlines | app/workflows/nodes/sql.py:15 | trimming drops the newlines around an already trimmed body |
| SmartSql.AppendCells | app/workflows/nodes/sql.py:48-49 | the column loop appends exactly the row's "key: value" cells |
| SmartSql.LineAppended | app/workflows/nodes/sql.py:47-50 | one more row appends its cells and a newline |
| SmartSql.AppendRows | app/workflows/nodes/sql.py:47-50 | the row loop appends exactly the rendering of every row |
| SmartSql.RenderingAppends | app/workflows/nodes/sql.py:47-50 | rendering distributes over concatenation of columns and of rows |
| SmartSql.CellRendering | app/workflows/nodes/sql.py:49 | a column k holding "v" renders as "k: v" right after the earlier columns, with no separator |
| SmartSql.CountAppend | app/workflows/nodes/sql.py:50 | newline counts add over concatenation |
| SmartSql.OneLinePerRow | app/workflows/nodes/sql.py:47-50 | with no newline inside a cell there is exactly one line per row |
| SmartSql.FirstSuccessSpec | app/workflows/nodes/sql.py:41-53 | the first successful attempt succeeded and every earlier one failed; with none, every attempt failed |
| SmartSql.Attempts | app/workflows/nodes/sql.py:11-53 | at most two attempts; every attempt but the last failed; a success renders its rows and stops; the result is the specified one |
| SmartSql.ExecuteSql | app/workflows/nodes/sql.py:36-55 | the last message is the question and the result is one system message; an empty conversation raises IndexError |
| SmartSql.ExecuteSqlAgent | app/agents/sql_node.py:73-92 | the same attempts with the result as one user message |
| SmartSql.SqlResultCases | app/agents/sql_node.py:78-90 | two failures give ""; a first success is rendered and the second attempt never matters; a failure then a success renders the second |
| EnvConfig.ParseInt | app/configs/env_configs.py:47-56 | `int()` on a string fails only with ValueError |
| EnvConfig.ParseIntRoundTrip | app/configs/env_configs.py:47-56 | every rendered integer reads back as itself |
| EnvConfig.ParseNatRoundTrip | app/configs/env_configs.py:47 | every rendered non-negative integer reads back as itself |
| EnvConfig.ParseNegRoundTrip | app/configs/env_configs.py:47 | every rendered negative integer reads back as itself |
| EnvConfig.NonNumericRaises | app/configs/env_configs.py:47-56 | a value without a digit raises ValueError |
| EnvConfig.IntVar | app/configs/env_configs.py:47-56 | a missing variable raises TypeError, a present one is parsed |
| EnvConfig.FloatVar | app/configs/env_configs.py:50 | the weight is the variable's text when it reads as a float; a missing variable raises TypeError |
| EnvConfig.Keep | app/configs/env_configs.py:61 | a piece contributes at most one table name |
| EnvConfig.KeptMember | app/configs/env_configs.py:61 | a name is kept iff it is the non-empty stripped form of some piece |
| EnvConfig.KeptShape | app/configs/env_configs.py:61 | kept names are trimmed and comma-free |
| EnvConfig.PiecesKept | app/configs/env_configs.py:61 | the same for the comma pieces of the variable |
| EnvConfig.RequiredTablesSpec | app/configs/env_configs.py:61 | the tables are exactly the non-empty stripped comma pieces, trimmed and comma-free |
| EnvConfig.SplitNoSeparator | app/configs/env_configs.py:61 | splitting a string without the separator gives the string itself |
| EnvConfig.SingleTable | app/configs/env_configs.py:61 | a value with no comma names at most one table, its stripped self |
| EnvConfig.EndpointEnabledSpec | app/configs/env_configs.py:62 | the flag is set exactly by "true" in any mix of case, nothing around it |
| EnvConfig.TextSettingsSpec | app/configs/env_configs.py:40-60 | each text setting is its variable's value or None |
| EnvConfig.InitializeOutcome | app/configs/env_configs.py:38-87 | initialisation succeeds iff the three ports parse, the weight is a float and the table and flag variables are present; a missing port is TypeError, a non-numeric one ValueError |
| EnvConfig.InitializeFields | app/configs/env_configs.py:63-87 | every field of a successful configuration comes from its variable as the conversions say |
| EnvConfig.InitializeRenderedPorts | app/configs/env_configs.py:47-56 | rendered integer ports come back exactly |
| Download.ContentType | app/routers/download_source.py:30-36 | the media type is one of the four the route knows |
| Download.ContentTypeSpec | app/routers/download_source.py:30-36 | each type is chosen iff the lower-cased name has its extension; only a name with none of them is sent as octet-stream |
| Download.ContentStream.constructor | app/db/mongodb_client.py:72 | a new stream over the content, at position 0, open |
| Download.ContentStream.Read | app/routers/download_source.py:24 | a read returns the next bytes, at most n of them, and advances past them |
| Download.ContentStream.Close | app/routers/download_source.py:28 | closing keeps the bytes and the position |
| Download.ChunkedJoins | app/routers/download_source.py:21-28 | joining the chunks gives back the content byte for byte |
| Download.ChunkedSizes | app/routers/download_source.py:22-27 | no chunk is empty or over 4096 bytes, all but the last are full, and their number is the size divided by 4096 rounded up |
| Download.ChunkedFront | app/routers/download_source.py:24-27 | the first chunk of non-empty bytes is their first 4096 bytes or all of them |
| Download.ReadStep | app/routers/download_source.py:24-26 | an empty read means nothing was left; otherwise it is the first of the chunks left |
| Download.FileIterator | app/routers/download_source.py:21-28 | the loop yields exactly the chunks of the remaining bytes, then the stream is closed and fully read |
| Download.Utf8 | app/routers/download_source.py:38 | a character encodes to one to four bytes, one exactly below 0x80, continuation bytes in 0x80-0xBF |
| Download.Utf8Decodes | app/routers/download_source.py:38 | decoding a character's encoding gives back its code point |
| Download.HexDigit | app/routers/download_source.py:38 | an escape digit is a hexadecimal digit |
| Download.HexValue | app/routers/download_source.py:38 | a hexadecimal digit is worth less than 16 |
| Download.HexRoundTrip | app/routers/download_source.py:38 | reading back a written hexadecimal digit gives its value |
| Download.PrependTwice | app/routers/download_source.py:38 | decoded prefixes compose |
| Download.UnquotePercentByte | app/routers/download_source.py:38 | a %XX escape decodes to the byte it encodes |
| Download.UnquoteFlatMap | app/routers/download_source.py:38 | decoding concatenated encoded items decodes item by item |
| Download.UnquoteQuoteChar | app/routers/download_source.py:38 | a quoted character decodes to its UTF-8 bytes |
| Download.SingletonsJoin | app/routers/download_source.py:38 | joining one-byte pieces gives back the bytes |
| Download.UnquoteQuote | app/routers/download_source.py:38 | percent-decoding the quoted name gives the UTF-8 bytes of the name (section 2.1 of RFC 3986) |
| Download.QuoteEncoded | app/routers/download_source.py:38 | the quoted name holds only unreserved characters, '/', hexadecimal digits and '%' |
| Download.QuoteCharEncoded | app/routers/download_source.py:38 | one character's encoding holds only those characters |
| Download.DispositionCarriesName | app/routers/download_source.py:38-43 | after the fixed prefix the Content-Disposition value is the encoded name, decoding to the name's bytes; Content-Length is the stored size |
| Download.GetFileSource | app/db/mongodb_client.py:61-75 | succeeds iff the document exists with non-empty content, and then streams that content |
| Download.DownloadRoute | app/routers/download_source.py:12-57 | the route answers as specified for every lookup outcome |
| Download.AnsweredSpec | app/routers/download_source.py:19-57 | a served body joins to the stored content in chunks of at most 4096 bytes; an HTTP error passes through; any other failure, a missing file included, is a 500 with the error prefix |

## Left out

- Language model, embedding service, Weaviate, MongoDB and the SQL server: never called. Each reply is a parameter of the member that uses it (a function of the prompt's inputs, or a value), so every property holds for every reply.
- Floating point: scores and distances are integers, and sorting compares them exactly. `float(...)` of `HYBRID_SEARCH_ALPHA` keeps the text, and which texts parse is the parameter `floatOk`.
- EnvConfig.ParseInt: accepts ASCII digits only; Python's `int()` also takes underscores between digits and non-ASCII decimal digits.
- Common.Lower: lowers ASCII letters only. Every comparison in the core is against an ASCII literal ("yes", "true", ".txt", ".pdf", ".docx"), but a non-ASCII letter that Python lowers into ASCII is not modelled.
- Markers.Scan: `\d` is taken as the ASCII digits; Python's `re` also matches other Unicode decimal digits.
- The `id`-based replacement of messages by LangGraph's `add_messages` is not modelled: GraphState.Apply always appends.
- A state field of the wrong Python type is an error value in GraphState (KeyError or TypeError) rather than whatever exception Python would raise at that use.
- The filtering switch `use_file_filtering` and the key `mongodb_dbname` that the workflow nodes read are not declared on the context and state classes of app/workflows/states.py (which declare `mongo_dbname`). The switch is a parameter, and the key is read as the nodes read it.
- app/agents/grade_document_node.py imports a name `State` that app/agents/state.py does not define; the model takes the state as the graph state.
- MongoDBManager has no `full_text_search_new`, `get_all_unique_filenames` or `get_unique_field_values` in app/db/mongodb_client.py: the searches and the filename lookup are parameters.
- The Streamlit page itself (widgets, session state, the `all_sources` fetch at weaviate_ui/app.py:91-92) is not modelled; only its data functions are.
- `random.sample` is modelled by the positions it draws, passed in: which positions a given seed yields is not modelled.
- Generators are modelled as the lists they yield; laziness is not.
- LangGraph's compilation, validation and execution (including concurrent fan-out) are not modelled; the graphs are modelled as the nodes, edges and routers they are built from.
- Set iteration order in `get_top_sources` is a parameter; the node instantiates it with the key order of `most_common`.
- SmartSql.Attempts: an attempt either fails before any row is rendered or succeeds; an exception raised while rendering a row, which would leave a partial result, is not modelled. `generate_sql` and the schema fetch are part of the `run` parameter.
- The HTTP machinery of the download route (the async handler, `StreamingResponse`, the status line) is not modelled: the route is a function from the lookup's outcome to a served body with headers, or a status and a detail.
- `urllib.parse.quote` is modelled with its default safe set "/" only.
- `deterministic_uuid` and the property schema that `create_collection` sends are not modelled; only the existence check and the outcome are.
- Logging is left out.
- Markers.ReplaceEachPieces, Citations.RemoveInvalidPieces, KeepOrdinals.KeepTextPieces, GroupedCitations.GroupedPieces and GroupedCitations.AgentPieces: these are stated for answers read as pieces (WellFormed): plain text without any `*`, and spaced markers whose number has no leading zero. Answers with markdown emphasis such as `**bold**`, or with a star run touching a marker, are outside that reading and these lemmas say nothing about them; the scanner and the renderers themselves (Markers.Scan, Citations.RemoveInvalid, KeepOrdinals.KeepText, GroupedCitations.GroupedText and GroupedCitations.AgentText) are modelled on every string. Two strings outside it are worked out on their own: KeepOrdinals.UnspacedMarkerKept and KeepOrdinals.LeadingZeroMarkerKept.
- Ranking.SortByScoreSpec, Retrieval.RetrieveByVectorSearch, Retrieval.RetrieveByFulltextSearch, Retrieval.VectorPathSpec, RetrieverNode.RetrieveDocuments, RetrieverNode.RetrieveDocumentsOutcome, RetrieverNode.RetrieveDocumentsText: these rest on the requires Ranking.Comparable, Retrieval.ScoredSearch, Retrieval.ScoredHybrid and RetrieverNode.ScoredText, which ask every present `score` to be a number. A missing score sorts as 0, as the key `d.metadata.get("score", 0)` reads it, and the model does the same. A present score that is not a number (None, a string) raises TypeError in `sorted` once it is compared with a numeric one (app/workflows/nodes/retriever.py:10-12); that error path is not modelled.
- Retrieval.FullTextPathSpec: the search is taken to return documents with a `metadata` dictionary. `MongoDBManager.full_text_search` returns the raw records (app/db/mongodb_client.py:48-59), on which `sort_documents_by_score` would fail at `d.metadata` (app/workflows/nodes/retriever.py:10-12); the intended node is modelled as if the records were converted.
- Retrieval.QueryWithFallback, Retrieval.RunQuery, RetrieverNode.SearchPhrase: the vector query is modelled as the intended call, `WeaviateClientManager.query_params` with its in-place writes. As written, `from db import weaviate_client` (app/workflows/retriever_node.py:11) binds the submodule app/db/weaviate_client.py, which has no top-level `query_params`; the call at app/workflows/retriever_node.py:256 raises AttributeError, the retry at line 260 raises it again, and it propagates. The `hybrid` parameter covers that outcome (a reply that always fails), but the model does not fix it to that.
- SmartSql.Attempts, SmartSql.ExecuteSql: the attempt is modelled as the intended call, a `run` parameter that may succeed. As written, the workflow node reads `runtime.context.prompt_registry` (app/workflows/nodes/sql.py:44), which neither `SmartSQLPipelineContextSchema` (app/workflows/states.py:36) nor the router's context dict declares, and `generate_sql` calls `llm.invoke` (app/workflows/nodes/sql.py:23), which the `LLM` class of app/ai/llm.py does not define (its only completion method, `get_completions`, fails too: see the line on the workflow nodes below). Every attempt therefore raises, the exception is caught, and the node always answers ""; this is the all-failures case of SmartSql.SqlResultCases, but the model does not fix `run` to it.
- Nodes.ExtractKeywordsInitialStep, Nodes.ExtractKeywordsStep, Nodes.DetectFilenameShape, Nodes.GenerateForChannelSpec: the model reply is modelled as the intended call, a `reply` parameter that returns text. As written, the context's `llm` is the `LLM` class of app/ai/llm.py, whose `get_completions(self, model_name, temperature)` (app/ai/llm.py:19-21) takes no messages and returns None. app/workflows/nodes/extract_keywords.py:11 and :23 pass one positional list, which raises TypeError for the missing `temperature`. app/workflows/nodes/filename_detection.py:26 and app/workflows/nodes/generate_answer.py:41 and :63 pass `message=`, which raises TypeError for an unexpected keyword. A call that matched the signature would fail at `None.content` with AttributeError. So these nodes raise on every conversation that reaches the call, and the model, whose reply is always a string, does not represent that outcome. With filtering off, `detect_filename` returns before the call, as Nodes.DetectFilenameDisabled states.

## Notes on the code

The model follows the code where it differs from what its comments and docstrings describe:

- When the vector query for a phrase fails twice, the second failure propagates out of `retrieve_documents` (app/workflows/retriever_node.py:255-260). The phrase is not skipped.
- `show_source` of the workflow nodes leaves a variable unbound when no answer carries one of the two paths, so it raises UnboundLocalError (app/workflows/nodes/sourcing.py:62-94). Its own ValueError branch is not reached then.
- In app/agents/graph.py the router after `retrieve_documents` is `grade_documents`, whose labels "generate_answer" and "rewrite_question" are not registered nodes (AgentGraph.GradeDocumentsRoutesNowhere).
- The full-text node calls `full_text_search` with five positional arguments after `self` (app/workflows/nodes/retriever.py:149-155), but the method declares four (app/db/mongodb_client.py:48). Every non-empty history therefore raises TypeError at the first phrase (Retrieval.FullTextAsWrittenRaises); see "## Findings".
- The workflow nodes call `runtime.context.llm.get_completions` with arguments its signature does not accept (app/workflows/nodes/extract_keywords.py:11, app/workflows/nodes/filename_detection.py:26-30, app/workflows/nodes/generate_answer.py:41-45; app/ai/llm.py:19-21), and the method returns None. The agentic RAG workflow therefore raises at its first node, `extract_keywords`. The model takes the reply as a parameter; see "## Left out".

## Findings

| source | as written | input that shows it | evidently intended | confidence | as-written member | corrected member |
|---|---|---|---|---|---|---|
| app/workflows/nodes/retriever.py:149-155 | passes the database, the collection, the phrase, the filenames and `top_k` to `full_text_search`, which declares `db_name, collection_name, query, top_k` only | any non-empty message history: the keyword list always holds the question, so the first call raises TypeError | a search that also takes the filenames, so the node returns the scored documents of every phrase | not executed | Retrieval.FullTextAsWrittenRaises | Retrieval.FullTextPathSpec |
