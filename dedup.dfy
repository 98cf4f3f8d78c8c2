/** `remove_duplicate_documents`: keeping the first document per key, under
    the four strategies the retrievers know ("uuid", "content",
    "content_and_uuid", "content_fuzzy"). Content hashing is modelled as
    content equality. */
module Dedup {
  import opened Common
  import opened Documents

  // ---------------------------------------------------------------------
  // Keys
  // ---------------------------------------------------------------------

  /** `doc.metadata.get('weaviate_uuid') or doc.metadata.get('uuid')`. */
  function UuidKey(d: Document): Value {
    var w := Get(d.metadata, "weaviate_uuid");
    if Truthy(w) then w else Get(d.metadata, "uuid")
  }

  /** A falsy uuid identifies nothing: such a document is always kept. */
  predicate Falsy(v: Value) {
    !Truthy(v)
  }

  /** The content strategies exempt no document. */
  predicate NeverExempt<K>(k: K) {
    false
  }

  function ContentKey(d: Document): string {
    d.content
  }

  /** The composite key of "content_and_uuid". */
  function UuidContentKey(d: Document): (Value, string) {
    (UuidKey(d), d.content)
  }

  /** `doc.page_content.strip().lower()`. */
  function Normalized(d: Document): string {
    Lower(Strip(d.content))
  }

  // ---------------------------------------------------------------------
  // First occurrence per key
  // ---------------------------------------------------------------------

  /** The keys of the documents that are not exempt. */
  function SeenKeys<K(==)>(docs: seq<Document>, key: Document -> K, exempt: K -> bool): set<K> {
    if docs == [] then {}
    else
      var k := key(docs[|docs| - 1]);
      SeenKeys(docs[..|docs| - 1], key, exempt) + (if exempt(k) then {} else {k})
  }

  /** The documents that are exempt, or whose key no earlier document
      carries, in input order. */
  function KeepFirst<K(==)>(docs: seq<Document>, key: Document -> K, exempt: K -> bool): seq<Document> {
    if docs == [] then []
    else
      var init := docs[..|docs| - 1];
      var d := docs[|docs| - 1];
      KeepFirst(init, key, exempt) + (if exempt(key(d)) || key(d) !in SeenKeys(init, key, exempt) then [d] else [])
  }

  /** The exempt documents, in input order. */
  function Exempts<K(==)>(docs: seq<Document>, key: Document -> K, exempt: K -> bool): seq<Document> {
    if docs == [] then []
    else
      var d := docs[|docs| - 1];
      Exempts(docs[..|docs| - 1], key, exempt) + (if exempt(key(d)) then [d] else [])
  }

  /** a is a subsequence of b. */
  predicate Subseq<T(==)>(a: seq<T>, b: seq<T>)
    decreases |b|
  {
    if a == [] then true
    else if b == [] then false
    else (a[|a| - 1] == b[|b| - 1] && Subseq(a[..|a| - 1], b[..|b| - 1])) || Subseq(a, b[..|b| - 1])
  }

  lemma SeenKeysSnoc<K>(s: seq<Document>, d: Document, key: Document -> K, exempt: K -> bool)
    ensures SeenKeys(s + [d], key, exempt) == SeenKeys(s, key, exempt) + (if exempt(key(d)) then {} else {key(d)})
  {
    assert (s + [d])[..|s|] == s;
  }

  lemma ExemptsSnoc<K>(s: seq<Document>, d: Document, key: Document -> K, exempt: K -> bool)
    ensures Exempts(s + [d], key, exempt) == Exempts(s, key, exempt) + (if exempt(key(d)) then [d] else [])
  {
    assert (s + [d])[..|s|] == s;
  }

  lemma KeepFirstSnoc<K>(s: seq<Document>, d: Document, key: Document -> K, exempt: K -> bool)
    ensures KeepFirst(s + [d], key, exempt)
            == KeepFirst(s, key, exempt) + (if exempt(key(d)) || key(d) !in SeenKeys(s, key, exempt) then [d] else [])
  {
    assert (s + [d])[..|s|] == s;
  }

  /** A subsequence of b is one of b + [x]. */
  lemma SubseqSnoc<T>(a: seq<T>, b: seq<T>, x: T)
    requires Subseq(a, b)
    ensures Subseq(a, b + [x])
  {
    assert (b + [x])[..|b|] == b;
  }

  lemma {:induction false} SubseqLength<T>(a: seq<T>, b: seq<T>)
    requires Subseq(a, b)
    ensures |a| <= |b|
    decreases |b|
  {
    if a != [] {
      if a[|a| - 1] == b[|b| - 1] && Subseq(a[..|a| - 1], b[..|b| - 1]) {
        SubseqLength(a[..|a| - 1], b[..|b| - 1]);
      } else {
        SubseqLength(a, b[..|b| - 1]);
      }
    }
  }

  /** A key is seen exactly when some non-exempt document carries it. */
  lemma {:induction false} SeenKeysIn<K>(docs: seq<Document>, key: Document -> K, exempt: K -> bool, k: K)
    ensures k in SeenKeys(docs, key, exempt) <==> exists i :: 0 <= i < |docs| && !exempt(key(docs[i])) && key(docs[i]) == k
  {
    if docs != [] {
      var init := docs[..|docs| - 1];
      SeenKeysIn(init, key, exempt, k);
      assert forall i :: 0 <= i < |init| ==> init[i] == docs[i];
    }
  }

  /** Deduplication loses no key. */
  lemma {:induction false} KeepFirstSeen<K>(docs: seq<Document>, key: Document -> K, exempt: K -> bool)
    ensures SeenKeys(KeepFirst(docs, key, exempt), key, exempt) == SeenKeys(docs, key, exempt)
  {
    if docs != [] {
      var init := docs[..|docs| - 1];
      var d := docs[|docs| - 1];
      var r := KeepFirst(init, key, exempt);
      assert docs == init + [d];
      KeepFirstSnoc(init, d, key, exempt);
      KeepFirstSeen(init, key, exempt);
      SeenKeysSnoc(r, d, key, exempt);
      SeenKeysSnoc(init, d, key, exempt);
      if !(exempt(key(d)) || key(d) !in SeenKeys(init, key, exempt)) {
        assert KeepFirst(docs, key, exempt) == r;
      }
    }
  }

  /** Every exempt document survives, in order. */
  lemma {:induction false} KeepFirstExempts<K>(docs: seq<Document>, key: Document -> K, exempt: K -> bool)
    ensures Exempts(KeepFirst(docs, key, exempt), key, exempt) == Exempts(docs, key, exempt)
  {
    if docs != [] {
      var init := docs[..|docs| - 1];
      var d := docs[|docs| - 1];
      var r := KeepFirst(init, key, exempt);
      assert docs == init + [d];
      KeepFirstSnoc(init, d, key, exempt);
      KeepFirstExempts(init, key, exempt);
      ExemptsSnoc(r, d, key, exempt);
      ExemptsSnoc(init, d, key, exempt);
      if !(exempt(key(d)) || key(d) !in SeenKeys(init, key, exempt)) {
        assert KeepFirst(docs, key, exempt) == r;
      }
    }
  }

  /** The output is the input with some documents dropped, order kept. */
  lemma {:induction false} KeepFirstSubseq<K>(docs: seq<Document>, key: Document -> K, exempt: K -> bool)
    ensures Subseq(KeepFirst(docs, key, exempt), docs)
  {
    if docs != [] {
      var init := docs[..|docs| - 1];
      var d := docs[|docs| - 1];
      var r := KeepFirst(init, key, exempt);
      assert docs == init + [d];
      KeepFirstSnoc(init, d, key, exempt);
      KeepFirstSubseq(init, key, exempt);
      if exempt(key(d)) || key(d) !in SeenKeys(init, key, exempt) {
        var r' := r + [d];
        assert r'[..|r'| - 1] == r && r'[|r'| - 1] == d;
      } else {
        SubseqSnoc(r, init, d);
        assert KeepFirst(docs, key, exempt) == r;
      }
    }
  }

  /** No two surviving documents share a key that is not exempt. */
  lemma {:induction false} KeepFirstUnique<K>(docs: seq<Document>, key: Document -> K, exempt: K -> bool)
    ensures var r := KeepFirst(docs, key, exempt);
            forall i, j :: 0 <= i < j < |r| && !exempt(key(r[i])) ==> key(r[i]) != key(r[j])
  {
    if docs != [] {
      var init := docs[..|docs| - 1];
      var d := docs[|docs| - 1];
      var r := KeepFirst(init, key, exempt);
      assert docs == init + [d];
      KeepFirstSnoc(init, d, key, exempt);
      KeepFirstUnique(init, key, exempt);
      if exempt(key(d)) || key(d) !in SeenKeys(init, key, exempt) {
        var r' := r + [d];
        KeepFirstSeen(init, key, exempt);
        forall i | 0 <= i < |r| && !exempt(key(r[i]))
          ensures key(r[i]) != key(d)
        {
          SeenKeysIn(r, key, exempt, key(r[i]));
        }
        assert forall i :: 0 <= i < |r| ==> r'[i] == r[i];
        assert r'[|r|] == d;
      }
    }
  }

  /** Deduplicating twice changes nothing more. */
  lemma {:induction false} KeepFirstIdempotent<K>(docs: seq<Document>, key: Document -> K, exempt: K -> bool)
    ensures KeepFirst(KeepFirst(docs, key, exempt), key, exempt) == KeepFirst(docs, key, exempt)
  {
    if docs != [] {
      var init := docs[..|docs| - 1];
      var d := docs[|docs| - 1];
      var r := KeepFirst(init, key, exempt);
      assert docs == init + [d];
      KeepFirstSnoc(init, d, key, exempt);
      KeepFirstIdempotent(init, key, exempt);
      KeepFirstSeen(init, key, exempt);
      if exempt(key(d)) || key(d) !in SeenKeys(init, key, exempt) {
        KeepFirstSnoc(r, d, key, exempt);
      } else {
        assert KeepFirst(docs, key, exempt) == r;
      }
    }
  }

  /** A list whose non-exempt keys are already pairwise distinct comes out
      unchanged. */
  lemma {:induction false} KeepFirstDistinct<K>(docs: seq<Document>, key: Document -> K, exempt: K -> bool)
    requires forall i, j :: 0 <= i < j < |docs| && !exempt(key(docs[i])) ==> key(docs[i]) != key(docs[j])
    ensures KeepFirst(docs, key, exempt) == docs
  {
    if docs != [] {
      var init := docs[..|docs| - 1];
      var d := docs[|docs| - 1];
      KeepFirstDistinct(init, key, exempt);
      if !exempt(key(d)) {
        SeenKeysIn(init, key, exempt, key(d));
      }
    }
  }

  /** The loop of the "uuid", "content" and "content_and_uuid" strategies:
      a key already in `seen` drops the document, an exempt key keeps it
      without being recorded. */
  method KeepFirstLoop<K(==)>(documents: seq<Document>, key: Document -> K, exempt: K -> bool)
    returns (unique: seq<Document>)
    ensures unique == KeepFirst(documents, key, exempt)
  {
    var seen: set<K> := {};
    unique := [];
    var i := 0;
    while i < |documents|
      invariant 0 <= i <= |documents|
      invariant seen == SeenKeys(documents[..i], key, exempt)
      invariant unique == KeepFirst(documents[..i], key, exempt)
    {
      assert documents[..i + 1][..i] == documents[..i];
      var doc := documents[i];
      var k := key(doc);
      if !exempt(k) && k !in seen {
        seen := seen + {k};
        unique := unique + [doc];
      } else if exempt(k) {
        unique := unique + [doc];
      }
      i := i + 1;
    }
    assert documents[..i] == documents;
  }

  /** Some document of s has key k. */
  predicate HasKey<K(==)>(s: seq<Document>, key: Document -> K, k: K) {
    exists t :: 0 <= t < |s| && key(s[t]) == k
  }

  lemma HasKeySeen<K>(s: seq<Document>, key: Document -> K, k: K)
    ensures HasKey(s, key, k) <==> k in SeenKeys(s, key, NeverExempt)
  {
    SeenKeysIn(s, key, NeverExempt, k);
  }

  /** The inner loop of "content_fuzzy": does some kept document have
      the normalised content `norm`? */
  method FuzzyMatch<K(==)>(norm: K, unique: seq<Document>, normalize: Document -> K) returns (isDuplicate: bool)
    ensures isDuplicate <==> HasKey(unique, normalize, norm)
  {
    isDuplicate := false;
    var j := 0;
    while j < |unique|
      invariant 0 <= j <= |unique|
      invariant !isDuplicate && !HasKey(unique[..j], normalize, norm)
    {
      if norm == normalize(unique[j]) {
        assert unique[j] == unique[..|unique|][j];
        isDuplicate := true;
        break;
      }
      assert unique[..j + 1] == unique[..j] + [unique[j]];
      HasKeySnoc(unique[..j], unique[j], normalize, norm);
      j := j + 1;
    }
    if !isDuplicate {
      assert unique[..j] == unique;
    }
  }

  lemma HasKeySnoc<K>(s: seq<Document>, d: Document, key: Document -> K, k: K)
    ensures HasKey(s + [d], key, k) <==> HasKey(s, key, k) || key(d) == k
  {
    if HasKey(s, key, k) {
      var t :| 0 <= t < |s| && key(s[t]) == k;
      assert (s + [d])[t] == s[t];
    }
    if key(d) == k {
      assert (s + [d])[|s|] == d;
    }
  }

  /** The "content_fuzzy" loop: each document is compared with the ones
      already kept, and dropped at the first whose normalised content
      matches. The normalisation is `Normalized`. */
  method KeepFirstFuzzy<K(==)>(documents: seq<Document>, normalize: Document -> K) returns (unique: seq<Document>)
    ensures unique == KeepFirst(documents, normalize, NeverExempt)
  {
    unique := [];
    var i := 0;
    while i < |documents|
      invariant 0 <= i <= |documents|
      invariant unique == KeepFirst(documents[..i], normalize, NeverExempt)
    {
      var doc := documents[i];
      assert documents[..i + 1] == documents[..i] + [doc];
      KeepFirstSnoc(documents[..i], doc, normalize, NeverExempt);
      var isDuplicate := FuzzyMatch(normalize(doc), unique, normalize);
      KeepFirstSeen(documents[..i], normalize, NeverExempt);
      HasKeySeen(unique, normalize, normalize(doc));
      if !isDuplicate {
        unique := unique + [doc];
      }
      i := i + 1;
    }
    assert documents[..i] == documents;
  }

  // ---------------------------------------------------------------------
  // The strategies
  // ---------------------------------------------------------------------

  /** What `remove_duplicate_documents(documents, strategy)` returns. */
  function RemoveDuplicates(documents: seq<Document>, strategy: string): seq<Document> {
    if documents == [] then []
    else if strategy == "uuid" then KeepFirst(documents, UuidKey, Falsy)
    else if strategy == "content" then KeepFirst(documents, ContentKey, NeverExempt)
    else if strategy == "content_and_uuid" then KeepFirst(documents, UuidContentKey, NeverExempt)
    else if strategy == "content_fuzzy" then KeepFirst(documents, Normalized, NeverExempt)
    else documents
  }

  method RemoveDuplicateDocuments(documents: seq<Document>, strategy: string) returns (unique: seq<Document>)
    ensures unique == RemoveDuplicates(documents, strategy)
  {
    if documents == [] {
      return [];
    }
    if strategy == "uuid" {
      unique := KeepFirstLoop(documents, UuidKey, Falsy);
    } else if strategy == "content" {
      unique := KeepFirstLoop(documents, ContentKey, NeverExempt);
    } else if strategy == "content_and_uuid" {
      unique := KeepFirstLoop(documents, UuidContentKey, NeverExempt);
    } else if strategy == "content_fuzzy" {
      unique := KeepFirstFuzzy(documents, Normalized);
    } else {
      unique := documents;
    }
  }

  /** Under every strategy the result is a subsequence of the input (so
      never longer), and deduplicating it again changes nothing. */
  lemma RemoveDuplicatesSubseq(documents: seq<Document>, strategy: string)
    ensures Subseq(RemoveDuplicates(documents, strategy), documents)
    ensures |RemoveDuplicates(documents, strategy)| <= |documents|
    ensures RemoveDuplicates(RemoveDuplicates(documents, strategy), strategy) == RemoveDuplicates(documents, strategy)
  {
    var r := RemoveDuplicates(documents, strategy);
    if documents == [] {
    } else if strategy == "uuid" {
      KeepFirstSubseq(documents, UuidKey, Falsy);
      KeepFirstIdempotent(documents, UuidKey, Falsy);
    } else if strategy == "content" {
      KeepFirstSubseq(documents, ContentKey, NeverExempt);
      KeepFirstIdempotent(documents, ContentKey, NeverExempt);
    } else if strategy == "content_and_uuid" {
      KeepFirstSubseq(documents, UuidContentKey, NeverExempt);
      KeepFirstIdempotent(documents, UuidContentKey, NeverExempt);
    } else if strategy == "content_fuzzy" {
      KeepFirstSubseq(documents, Normalized, NeverExempt);
      KeepFirstIdempotent(documents, Normalized, NeverExempt);
    } else {
      SubseqRefl(documents);
    }
    SubseqLength(r, documents);
  }

  lemma {:induction false} SubseqRefl<T>(s: seq<T>)
    ensures Subseq(s, s)
  {
    if s != [] {
      SubseqRefl(s[..|s| - 1]);
    }
  }

  /** "uuid": every document with a falsy key survives, in order; every
      truthy key of the input survives exactly once. */
  lemma UuidStrategy(documents: seq<Document>, u: Value)
    ensures var r := RemoveDuplicates(documents, "uuid");
            && Exempts(r, UuidKey, Falsy) == Exempts(documents, UuidKey, Falsy)
            && (forall i, j :: 0 <= i < j < |r| && Truthy(UuidKey(r[i])) ==> UuidKey(r[i]) != UuidKey(r[j]))
            && (Truthy(u) ==> ((exists i :: 0 <= i < |r| && UuidKey(r[i]) == u)
                               <==> (exists i :: 0 <= i < |documents| && UuidKey(documents[i]) == u)))
  {
    if documents != [] {
      var r := KeepFirst(documents, UuidKey, Falsy);
      KeepFirstExempts(documents, UuidKey, Falsy);
      KeepFirstUnique(documents, UuidKey, Falsy);
      if Truthy(u) {
        KeepFirstCover(documents, UuidKey, Falsy, u);
      }
    }
  }

  /** A non-exempt key occurs in the output exactly when it occurs in the
      input. */
  lemma KeepFirstCover<K>(docs: seq<Document>, key: Document -> K, exempt: K -> bool, k: K)
    requires !exempt(k)
    ensures (exists i :: 0 <= i < |KeepFirst(docs, key, exempt)| && key(KeepFirst(docs, key, exempt)[i]) == k)
            <==> (exists i :: 0 <= i < |docs| && key(docs[i]) == k)
  {
    KeepFirstSeen(docs, key, exempt);
    SeenKeysIn(KeepFirst(docs, key, exempt), key, exempt, k);
    SeenKeysIn(docs, key, exempt, k);
  }

  /** No two documents of s share a key. */
  predicate KeysDistinct<K(==)>(s: seq<Document>, key: Document -> K) {
    forall i, j :: 0 <= i < j < |s| ==> key(s[i]) != key(s[j])
  }

  /** Without exemptions the survivors have pairwise distinct keys, and
      every key of the input survives. */
  lemma KeepFirstNoExempt<K>(docs: seq<Document>, key: Document -> K, k: K)
    ensures KeysDistinct(KeepFirst(docs, key, NeverExempt), key)
    ensures HasKey(KeepFirst(docs, key, NeverExempt), key, k) <==> HasKey(docs, key, k)
  {
    KeepFirstUnique(docs, key, NeverExempt);
    KeepFirstCover(docs, key, NeverExempt, k);
  }

  /** "content": no two survivors share their content, and every content
      of the input survives. */
  lemma ContentStrategy(documents: seq<Document>, c: string)
    ensures KeysDistinct(RemoveDuplicates(documents, "content"), ContentKey)
    ensures HasKey(RemoveDuplicates(documents, "content"), ContentKey, c) <==> HasKey(documents, ContentKey, c)
  {
    KeepFirstNoExempt(documents, ContentKey, c);
  }

  /** "content_and_uuid": no two survivors share both uuid key and content. */
  lemma UuidContentStrategy(documents: seq<Document>, k: (Value, string))
    ensures KeysDistinct(RemoveDuplicates(documents, "content_and_uuid"), UuidContentKey)
    ensures HasKey(RemoveDuplicates(documents, "content_and_uuid"), UuidContentKey, k) <==> HasKey(documents, UuidContentKey, k)
  {
    KeepFirstNoExempt(documents, UuidContentKey, k);
  }

  /** "content_fuzzy": no two survivors share their normalised content, and
      every normalised content of the input survives. */
  lemma FuzzyStrategy(documents: seq<Document>, c: string)
    ensures KeysDistinct(RemoveDuplicates(documents, "content_fuzzy"), Normalized)
    ensures HasKey(RemoveDuplicates(documents, "content_fuzzy"), Normalized, c) <==> HasKey(documents, Normalized, c)
  {
    var r := RemoveDuplicates(documents, "content_fuzzy");
    if documents != [] {
      assert r == KeepFirst(documents, Normalized, NeverExempt);
      KeepFirstNoExempt(documents, Normalized, c);
    }
  }

  /** An unknown strategy returns the input unchanged. */
  lemma UnknownStrategy(documents: seq<Document>, strategy: string)
    requires strategy != "uuid" && strategy != "content" && strategy != "content_and_uuid" && strategy != "content_fuzzy"
    ensures RemoveDuplicates(documents, strategy) == documents
  {
  }
}
