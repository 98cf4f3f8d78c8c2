/** `augment_context`: the numbered snippet context handed to the answer
    model, and the ordinal-to-metadata map the citation renderers later
    read. Both generator modules carry the same loop. */
module Snippets {
  import opened Common
  import opened Documents
  import opened Citations

  /** `f"Snippet {i} : {content} <end_of_snippet>\n"`. */
  function SnippetLine(i: nat, content: string): string {
    "Snippet " + NatToString(i) + " : " + content + " <end_of_snippet>\n"
  }

  /** `{"text": doc.page_content, **doc.metadata}`: the metadata is spread
      after "text", so its own "text" key wins. */
  function SourcingEntry(d: Document): Meta {
    map["text" := VStr(d.content)] + d.metadata
  }

  /** The context after the documents, snippet by snippet. */
  function Context(docs: seq<Document>): string {
    if docs == [] then ""
    else Context(docs[..|docs| - 1]) + SnippetLine(|docs|, docs[|docs| - 1].content)
  }

  /** The map after the documents: snippet i + 1 holds document i. */
  function SourcingOf(docs: seq<Document>): Sourcing {
    if docs == [] then map[]
    else SourcingOf(docs[..|docs| - 1])[|docs| := SourcingEntry(docs[|docs| - 1])]
  }

  method AugmentContext(docs: seq<Document>) returns (context: string, sourcing: Sourcing)
    ensures context == Context(docs)
    ensures sourcing == SourcingOf(docs)
  {
    context := "";
    sourcing := map[];
    var i := 0;
    while i < |docs|
      invariant 0 <= i <= |docs|
      invariant context == Context(docs[..i])
      invariant sourcing == SourcingOf(docs[..i])
    {
      ghost var prefix := docs[..i + 1];
      assert prefix[..i] == docs[..i];
      var doc := docs[i];
      sourcing := sourcing[i + 1 := SourcingEntry(doc)];
      context := context + SnippetLine(i + 1, doc.content);
      i := i + 1;
    }
    assert docs[..i] == docs;
  }

  /** The map's keys are exactly the ordinals 1..n, and ordinal i + 1 holds
      document i; no documents give an empty context and an empty map. */
  lemma {:induction false} SourcingKeys(docs: seq<Document>)
    ensures forall n :: n in SourcingOf(docs) <==> 1 <= n <= |docs|
    ensures forall i :: 0 <= i < |docs| ==> SourcingOf(docs)[i + 1] == SourcingEntry(docs[i])
    ensures docs == [] ==> Context(docs) == "" && SourcingOf(docs) == map[]
  {
    if docs != [] {
      var init := docs[..|docs| - 1];
      SourcingKeys(init);
      assert forall i :: 0 <= i < |init| ==> init[i] == docs[i];
    }
  }

  /** Every entry has "text": the metadata's own "text" when it has one,
      the page content otherwise; every other key is the metadata's. */
  lemma SourcingEntrySpec(d: Document)
    ensures "text" in SourcingEntry(d)
    ensures SourcingEntry(d)["text"] == GetOr(d.metadata, "text", VStr(d.content))
    ensures forall k :: k != "text" ==> (k in SourcingEntry(d) <==> k in d.metadata)
    ensures forall k :: k != "text" && k in d.metadata ==> SourcingEntry(d)[k] == d.metadata[k]
  {
  }

  /** The context read front to back: snippet k for the first document,
      then the rest numbered from k + 1. */
  function Snippets(docs: seq<Document>, k: nat): string {
    if docs == [] then "" else SnippetLine(k, docs[0].content) + Snippets(docs[1..], k + 1)
  }

  lemma {:induction false} SnippetsSnoc(docs: seq<Document>, d: Document, k: nat)
    ensures Snippets(docs + [d], k) == Snippets(docs, k) + SnippetLine(k + |docs|, d.content)
  {
    if docs != [] {
      assert (docs + [d])[1..] == docs[1..] + [d];
      SnippetsSnoc(docs[1..], d, k + 1);
      AppendAssoc(SnippetLine(k, docs[0].content), Snippets(docs[1..], k + 1), SnippetLine(k + |docs|, d.content));
    }
  }

  /** The context is the in-order concatenation of the snippets numbered
      from 1. */
  lemma {:induction false} ContextSnippets(docs: seq<Document>)
    ensures Context(docs) == Snippets(docs, 1)
  {
    if docs != [] {
      var init := docs[..|docs| - 1];
      ContextSnippets(init);
      SnippetsSnoc(init, docs[|docs| - 1], 1);
      assert init + [docs[|docs| - 1]] == docs;
    }
  }
}
