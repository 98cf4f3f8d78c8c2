/** The "Sources:" list appended to a rendered answer, one download-link line
    per legend entry, and the `show_source` nodes of the three graph
    revisions that render their answers with it. */
module SourceLists {
  import opened Common
  import opened Superscript
  import opened Markers
  import opened Citations
  import opened KeepOrdinals
  import opened GroupedCitations
  import opened Sorting

  /** `urllib.parse.quote`: percent-encoding is a parameter of the model. */
  type Quote = string -> string

  /** The download link of a source line. The long form names database,
      collection, file id and chunk index (`chunk_index` read with the given
      default); the short form names the file only. `base` is the configured
      download path. */
  datatype Link =
    | Deep(base: string, db: string, collection: string, chunkDefault: Value)
    | Short(base: string)

  const Header: string := "\n\nSources:\n"

  // ---------------------------------------------------------------------
  // Source lines
  // ---------------------------------------------------------------------

  /** One line `"<sup> [<filename>](<url>)\n"` for ordinal idx, the filename
      read under `key`. A missing ordinal or key raises KeyError; quoting a
      filename that is not a string raises TypeError. */
  function SourceLine(sup: string, idx: nat, sourcing: Sourcing, key: string, link: Link, quote: Quote): (r: Result<string>)
    ensures r.Ok? <==> idx in sourcing && key in sourcing[idx] && sourcing[idx][key].VStr?
    ensures r.Err? ==> r.error == if idx in sourcing && key in sourcing[idx] then "TypeError" else "KeyError"
  {
    if idx !in sourcing || key !in sourcing[idx] then Err("KeyError")
    else
      var meta := sourcing[idx];
      var filename := meta[key];
      if !filename.VStr? then Err("TypeError")
      else
        var target := match link
          case Deep(_, db, collection, chunkDefault) =>
            db + "/" + collection + "/" + quote(filename.s) + "/" + Str(Get(meta, "fileId"))
            + "/" + Str(GetOr(meta, "chunk_index", chunkDefault))
          case Short(_) => quote(filename.s);
        Ok(sup + " [" + filename.s + "](" + link.base + "/" + target + ")\n")
  }

  /** A line shows the superscript and the filename as link text, and its
      link starts with the download path. */
  lemma SourceLineShape(sup: string, idx: nat, sourcing: Sourcing, key: string, link: Link, quote: Quote)
    requires SourceLine(sup, idx, sourcing, key, link, quote).Ok?
    ensures StartsWith(SourceLine(sup, idx, sourcing, key, link, quote).value,
                       sup + " [" + sourcing[idx][key].s + "](" + link.base + "/")
    ensures EndsWith(SourceLine(sup, idx, sourcing, key, link, quote).value, ")\n")
  {
    var line := SourceLine(sup, idx, sourcing, key, link, quote).value;
    var head := sup + " [" + sourcing[idx][key].s + "](" + link.base + "/";
    var target := line[|head|..|line| - 2];
    assert line == head + target + ")\n";
    assert line[..|head|] == head;
    assert line[|line| - 2..] == ")\n";
  }

  /** The lines of all items, in item order; the first line that fails
      aborts the whole list with its exception. */
  function Lines(items: Dict<string, nat>, sourcing: Sourcing, key: string, link: Link, quote: Quote): (r: Result<string>)
    ensures r.Ok? <==> forall k :: 0 <= k < |items| ==> SourceLine(items[k].0, items[k].1, sourcing, key, link, quote).Ok?
  {
    if items == [] then Ok("")
    else
      var init := items[..|items| - 1];
      var it := items[|items| - 1];
      assert forall k :: 0 <= k < |init| ==> init[k] == items[k];
      match Lines(init, sourcing, key, link, quote)
      case Err(e) => Err(e)
      case Ok(acc) =>
        match SourceLine(it.0, it.1, sourcing, key, link, quote)
        case Err(e) => Err(e)
        case Ok(line) => Ok(acc + line)
  }

  /** The loop that appends one source line per item to `prefix`. */
  method AppendLines(prefix: string, items: Dict<string, nat>, sourcing: Sourcing, key: string, link: Link, quote: Quote)
    returns (r: Result<string>)
    ensures r.Ok? == Lines(items, sourcing, key, link, quote).Ok?
    ensures r.Ok? ==> r.value == prefix + Lines(items, sourcing, key, link, quote).value
    ensures r.Err? ==> r.error == Lines(items, sourcing, key, link, quote).error
  {
    var acc := prefix;
    ghost var done := "";
    var i := 0;
    while i < |items|
      invariant 0 <= i <= |items|
      invariant Lines(items[..i], sourcing, key, link, quote) == Ok(done)
      invariant acc == prefix + done
    {
      var line := SourceLine(items[i].0, items[i].1, sourcing, key, link, quote);
      if line.Err? {
        LinesFirstError(items, i, sourcing, key, link, quote);
        return Err(line.error);
      }
      LinesSnoc(items, i, sourcing, key, link, quote);
      AppendAssoc(prefix, done, line.value);
      acc := acc + line.value;
      done := done + line.value;
      i := i + 1;
    }
    LinesAll(items, sourcing, key, link, quote);
    r := Ok(acc);
  }

  lemma LinesAll(items: Dict<string, nat>, sourcing: Sourcing, key: string, link: Link, quote: Quote)
    ensures Lines(items[..|items|], sourcing, key, link, quote) == Lines(items, sourcing, key, link, quote)
  {
    assert items[..|items|] == items;
  }

  lemma LinesSnoc(items: Dict<string, nat>, i: nat, sourcing: Sourcing, key: string, link: Link, quote: Quote)
    requires i < |items|
    requires Lines(items[..i], sourcing, key, link, quote).Ok?
    requires SourceLine(items[i].0, items[i].1, sourcing, key, link, quote).Ok?
    ensures Lines(items[..i + 1], sourcing, key, link, quote)
            == Ok(Lines(items[..i], sourcing, key, link, quote).value
                  + SourceLine(items[i].0, items[i].1, sourcing, key, link, quote).value)
  {
    assert items[..i + 1][..i] == items[..i];
    assert items[..i + 1][i] == items[i];
  }

  /** The first failing line decides the exception of the whole list. */
  lemma {:induction false} LinesError(items: Dict<string, nat>, sourcing: Sourcing, key: string, link: Link, quote: Quote)
    requires Lines(items, sourcing, key, link, quote).Err?
    ensures exists k :: 0 <= k < |items|
              && SourceLine(items[k].0, items[k].1, sourcing, key, link, quote) == Err(Lines(items, sourcing, key, link, quote).error)
              && forall j :: 0 <= j < k ==> SourceLine(items[j].0, items[j].1, sourcing, key, link, quote).Ok?
  {
    var init := items[..|items| - 1];
    assert forall k :: 0 <= k < |init| ==> init[k] == items[k];
    if Lines(init, sourcing, key, link, quote).Err? {
      LinesError(init, sourcing, key, link, quote);
    } else {
      assert forall j :: 0 <= j < |init| ==> SourceLine(items[j].0, items[j].1, sourcing, key, link, quote).Ok?;
    }
  }

  lemma LinesFirstError(items: Dict<string, nat>, i: nat, sourcing: Sourcing, key: string, link: Link, quote: Quote)
    requires i < |items|
    requires Lines(items[..i], sourcing, key, link, quote).Ok?
    requires SourceLine(items[i].0, items[i].1, sourcing, key, link, quote).Err?
    ensures Lines(items, sourcing, key, link, quote)
            == Err(SourceLine(items[i].0, items[i].1, sourcing, key, link, quote).error)
  {
    var r := Lines(items, sourcing, key, link, quote);
    assert forall j :: 0 <= j < i ==> items[..i][j] == items[j];
    LinesError(items, sourcing, key, link, quote);
    var k :| 0 <= k < |items|
             && SourceLine(items[k].0, items[k].1, sourcing, key, link, quote) == Err(r.error)
             && forall j :: 0 <= j < k ==> SourceLine(items[j].0, items[j].1, sourcing, key, link, quote).Ok?;
    assert k == i;
  }

  // ---------------------------------------------------------------------
  // Ordering by the decimal string
  // ---------------------------------------------------------------------

  /** `superscript_to_int(sup)`: the decimal digit string behind a
      superscript (the empty string for text that is not one, which no legend
      holds). */
  function SortKey(sup: string): string {
    match SuperscriptToInt(sup)
    case Some(ds) => ds
    case None => ""
  }

  /** Python's `a <= b` on strings: code point by code point. */
  predicate StrLe(a: string, b: string) {
    if a == [] then true
    else if b == [] then false
    else a[0] < b[0] || (a[0] == b[0] && StrLe(a[1..], b[1..]))
  }

  /** The order `sorted(..., key=lambda x: superscript_to_int(x[0]))` uses. */
  predicate ByDigits(x: (string, nat), y: (string, nat)) {
    StrLe(SortKey(x.0), SortKey(y.0))
  }

  lemma {:induction false} StrLeTotal(a: string, b: string)
    ensures StrLe(a, b) || StrLe(b, a)
  {
    if a != [] && b != [] && a[0] == b[0] {
      StrLeTotal(a[1..], b[1..]);
    }
  }

  lemma {:induction false} StrLeTrans(a: string, b: string, c: string)
    requires StrLe(a, b) && StrLe(b, c)
    ensures StrLe(a, c)
  {
    if a != [] && b != [] && c != [] && a[0] == b[0] && b[0] == c[0] {
      StrLeTrans(a[1..], b[1..], c[1..]);
    }
  }

  lemma ByDigitsPreorder()
    ensures TotalPreorder(ByDigits)
  {
    forall x: (string, nat), y: (string, nat) ensures ByDigits(x, y) || ByDigits(y, x) {
      StrLeTotal(SortKey(x.0), SortKey(y.0));
    }
    forall x: (string, nat), y: (string, nat), z: (string, nat) | ByDigits(x, y) && ByDigits(y, z)
      ensures ByDigits(x, z)
    {
      StrLeTrans(SortKey(x.0), SortKey(y.0), SortKey(z.0));
    }
  }

  /** The key of a legend entry is the decimal string of its ordinal. */
  lemma SortKeyOfSuperscript(n: nat)
    ensures SortKey(IntToSuperscript(n)) == NatToString(n)
  {
    SuperscriptRoundTrip(n);
  }

  /** The string order puts ordinal 10 before ordinal 2. */
  lemma TenBeforeTwo()
    ensures Sort([(IntToSuperscript(2), 2), (IntToSuperscript(10), 10)], ByDigits)
            == [(IntToSuperscript(10), 10), (IntToSuperscript(2), 2)]
  {
    SortKeyOfSuperscript(2);
    SortKeyOfSuperscript(10);
    assert NatToString(2) == "2";
    assert NatToString(10) == "10";
    assert !StrLe("2", "10");
    var x := (IntToSuperscript(2), 2);
    var y := (IntToSuperscript(10), 10);
    assert Sort([x, y], ByDigits) == Insert(x, Sort([y], ByDigits), ByDigits);
    assert Sort([y], ByDigits) == [y];
    assert !ByDigits(x, y);
  }

  lemma {:induction false} DistinctCount<T>(s: seq<T>, x: T)
    requires Distinct(s)
    ensures multiset(s)[x] <= 1
  {
    if s != [] {
      assert s == [s[0]] + s[1..];
      assert Distinct(s[1..]) by {
        forall i, j | 0 <= i < j < |s[1..]| ensures s[1..][i] != s[1..][j] {
          assert s[1..][i] == s[i + 1] && s[1..][j] == s[j + 1];
        }
      }
      DistinctCount(s[1..], x);
      if s[0] == x {
        assert x !in s[1..];
      }
    }
  }

  lemma TwiceCount<T>(s: seq<T>, i: nat, j: nat)
    requires i < j < |s| && s[i] == s[j]
    ensures multiset(s)[s[i]] >= 2
  {
    assert s == s[..j] + [s[j]] + s[j + 1..];
    assert s[..j][i] == s[i];
  }

  lemma LookupIn<K, V>(d: Dict<K, V>, k: K, v: V)
    requires Lookup(d, k) == Some(v)
    ensures (k, v) in d
  {
  }

  /** The sorted legend of the keep policy: exactly the valid ordinals, each
      once and under its own superscript, in increasing order of their
      decimal strings. */
  lemma SortedLegend(valid: seq<nat>)
    ensures forall k :: 0 <= k < |Sort(SupToIdx(valid), ByDigits)| ==>
              Sort(SupToIdx(valid), ByDigits)[k].0 == IntToSuperscript(Sort(SupToIdx(valid), ByDigits)[k].1)
              && Sort(SupToIdx(valid), ByDigits)[k].1 in valid
    ensures forall n :: n in valid ==> (IntToSuperscript(n), n) in Sort(SupToIdx(valid), ByDigits)
    ensures forall i, j :: 0 <= i < j < |Sort(SupToIdx(valid), ByDigits)| ==>
              Sort(SupToIdx(valid), ByDigits)[i].1 != Sort(SupToIdx(valid), ByDigits)[j].1
              && StrLe(NatToString(Sort(SupToIdx(valid), ByDigits)[i].1), NatToString(Sort(SupToIdx(valid), ByDigits)[j].1))
  {
    SortedLegendMembers(valid);
    SortedLegendOrder(valid);
  }

  lemma SortedLegendMembers(valid: seq<nat>)
    ensures forall k :: 0 <= k < |Sort(SupToIdx(valid), ByDigits)| ==>
              Sort(SupToIdx(valid), ByDigits)[k].0 == IntToSuperscript(Sort(SupToIdx(valid), ByDigits)[k].1)
              && Sort(SupToIdx(valid), ByDigits)[k].1 in valid
    ensures forall n :: n in valid ==> (IntToSuperscript(n), n) in Sort(SupToIdx(valid), ByDigits)
  {
    var legend := SupToIdx(valid);
    var items := Sort(legend, ByDigits);
    SupToIdxEntries(valid);
    forall k | 0 <= k < |items|
      ensures items[k].0 == IntToSuperscript(items[k].1) && items[k].1 in valid
    {
      assert items[k] in multiset(legend);
    }
    forall n | n in valid ensures (IntToSuperscript(n), n) in items {
      SupToIdxLookup(valid, n);
      LookupIn(legend, IntToSuperscript(n), n);
      assert (IntToSuperscript(n), n) in multiset(items);
    }
  }

  lemma SortedLegendOrder(valid: seq<nat>)
    ensures forall i, j :: 0 <= i < j < |Sort(SupToIdx(valid), ByDigits)| ==>
              Sort(SupToIdx(valid), ByDigits)[i].1 != Sort(SupToIdx(valid), ByDigits)[j].1
              && StrLe(NatToString(Sort(SupToIdx(valid), ByDigits)[i].1), NatToString(Sort(SupToIdx(valid), ByDigits)[j].1))
  {
    var legend := SupToIdx(valid);
    var items := Sort(legend, ByDigits);
    SortedLegendMembers(valid);
    SupToIdxEntries(valid);
    ByDigitsPreorder();
    SortSorted(legend, ByDigits);
    assert Distinct(legend) by {
      forall i, j | 0 <= i < j < |legend| ensures legend[i] != legend[j] {
        assert Keys(legend)[i] != Keys(legend)[j];
      }
    }
    forall i, j | 0 <= i < j < |items|
      ensures items[i].1 != items[j].1
      ensures StrLe(NatToString(items[i].1), NatToString(items[j].1))
    {
      assert ByDigits(items[i], items[j]);
      SortKeyOfSuperscript(items[i].1);
      SortKeyOfSuperscript(items[j].1);
      if items[i].1 == items[j].1 {
        TwiceCount(items, i, j);
        DistinctCount(legend, items[i]);
        assert false;
      }
    }
  }

  // ---------------------------------------------------------------------
  // concatenate_answer, keep policy: lines sorted by decimal string
  // ---------------------------------------------------------------------

  /** `concatenate_answer` of the first graph and `concatenate_answer_new`
      of the second: the answer with each valid citation as the superscript
      of its own ordinal, then "Sources:" and one line per legend entry in
      order of the ordinal's decimal string, stripped; "" when no valid
      ordinal is cited. */
  function SortedSources(answer: string, sourcing: Sourcing, key: string, link: Link, quote: Quote): Result<string> {
    var legend := SupToIdx(ValidOrdinals(Ordinals(Scan(answer, 0)), sourcing));
    match Lines(Sort(legend, ByDigits), sourcing, key, link, quote)
    case Err(e) => Err(e)
    case Ok(ls) => Ok(if legend != [] then Strip(KeepText(answer, sourcing) + Header + ls) else "")
  }

  method ConcatenateAnswer(answer: string, sourcing: Sourcing, key: string, link: Link, quote: Quote)
    returns (r: Result<string>)
    ensures r == SortedSources(answer, sourcing, key, link, quote)
  {
    var newAnswer, sourceMatching := PrettifyKeep(answer, sourcing);
    var hasSources := sourceMatching != [];
    newAnswer := newAnswer + Header;
    var sortedItems := Sort(sourceMatching, ByDigits);
    var appended := AppendLines(newAnswer, sortedItems, sourcing, key, link, quote);
    if appended.Err? {
      return Err(appended.error);
    }
    AppendAssoc(KeepText(answer, sourcing), Header, Lines(sortedItems, sourcing, key, link, quote).value);
    r := Ok(if hasSources then Strip(appended.value) else "");
  }

  /** The header survives stripping. */
  lemma HeaderKept(text: string, ls: string)
    ensures Contains(Strip(text + Header + ls), "Sources:")
    ensures Strip(text + Header + ls) != ""
  {
    assert text + Header + ls == (text + "\n\n") + "Sources:" + ("\n" + ls);
    StripKeeps(text + "\n\n", "Sources:", "\n" + ls);
  }

  /** Nothing valid cited: the empty string. Something valid cited: a text
      carrying the "Sources:" header. */
  lemma SortedSourcesEmpty(answer: string, sourcing: Sourcing, key: string, link: Link, quote: Quote)
    ensures ValidOrdinals(Ordinals(Scan(answer, 0)), sourcing) == [] ==> SortedSources(answer, sourcing, key, link, quote) == Ok("")
    ensures ValidOrdinals(Ordinals(Scan(answer, 0)), sourcing) != [] && SortedSources(answer, sourcing, key, link, quote).Ok? ==>
              SortedSources(answer, sourcing, key, link, quote).value != ""
              && Contains(SortedSources(answer, sourcing, key, link, quote).value, "Sources:")
  {
    var valid := ValidOrdinals(Ordinals(Scan(answer, 0)), sourcing);
    var legend := SupToIdx(valid);
    if valid == [] {
      assert legend == [];
    } else {
      SupToIdxLookup(valid, valid[0]);
      var items := Sort(legend, ByDigits);
      var ls := Lines(items, sourcing, key, link, quote);
      if ls.Ok? {
        HeaderKept(KeepText(answer, sourcing), ls.value);
      }
    }
  }

  /** The list renders exactly when every valid cited ordinal names its
      file, as a string, under `key`. */
  lemma SortedSourcesOk(answer: string, sourcing: Sourcing, key: string, link: Link, quote: Quote)
    ensures SortedSources(answer, sourcing, key, link, quote).Ok?
            <==> forall n :: n in ValidOrdinals(Ordinals(Scan(answer, 0)), sourcing) ==> FileNamed(sourcing, n, key)
  {
    SortedLinesOk(ValidOrdinals(Ordinals(Scan(answer, 0)), sourcing), sourcing, key, link, quote);
  }

  lemma SortedLinesOk(valid: seq<nat>, sourcing: Sourcing, key: string, link: Link, quote: Quote)
    ensures Lines(Sort(SupToIdx(valid), ByDigits), sourcing, key, link, quote).Ok?
            <==> forall n :: n in valid ==> FileNamed(sourcing, n, key)
  {
    var items := Sort(SupToIdx(valid), ByDigits);
    LinesOk(items, sourcing, key, link, quote);
    if !forall n :: n in valid ==> FileNamed(sourcing, n, key) {
      var n :| n in valid && !FileNamed(sourcing, n, key);
      SortedItemUnnamed(valid, sourcing, key, n);
    } else {
      SortedItemsNamed(valid, sourcing, key);
    }
  }

  /** An unnamed valid ordinal leaves an unnamed sorted item. */
  lemma SortedItemUnnamed(valid: seq<nat>, sourcing: Sourcing, key: string, n: nat)
    requires n in valid && !FileNamed(sourcing, n, key)
    ensures exists k :: 0 <= k < |Sort(SupToIdx(valid), ByDigits)|
                        && !FileNamed(sourcing, Sort(SupToIdx(valid), ByDigits)[k].1, key)
  {
    var items := Sort(SupToIdx(valid), ByDigits);
    SortedLegendMembers(valid);
    var k :| 0 <= k < |items| && items[k] == (IntToSuperscript(n), n);
    assert !FileNamed(sourcing, items[k].1, key);
  }

  /** With every valid ordinal named, so is every sorted item. */
  lemma SortedItemsNamed(valid: seq<nat>, sourcing: Sourcing, key: string)
    requires forall n :: n in valid ==> FileNamed(sourcing, n, key)
    ensures forall k :: 0 <= k < |Sort(SupToIdx(valid), ByDigits)| ==> FileNamed(sourcing, Sort(SupToIdx(valid), ByDigits)[k].1, key)
  {
    SortedLegendMembers(valid);
  }

  /** Ordinal n is known and names its file, as a string, under `key`. */
  predicate FileNamed(sourcing: Sourcing, n: nat, key: string) {
    n in sourcing && key in sourcing[n] && sourcing[n][key].VStr?
  }

  lemma LinesOk(items: Dict<string, nat>, sourcing: Sourcing, key: string, link: Link, quote: Quote)
    ensures Lines(items, sourcing, key, link, quote).Ok?
            <==> forall k :: 0 <= k < |items| ==> FileNamed(sourcing, items[k].1, key)
  {
  }

  // ---------------------------------------------------------------------
  // concatenate_answer, grouped policy: lines in legend order
  // ---------------------------------------------------------------------

  /** `concatenate_answer` of the second graph: the answer renumbered by
      source file, then "Sources:" and one line per cited source file in
      order of first citation, `chunk_index` read without default; "" when
      no valid ordinal is cited. */
  function GroupedSources(answer: string, sourcing: Sourcing, db: string, collection: string, base: string,
                          quote: Quote): Result<string> {
    var link := Deep(base, db, collection, VNone);
    var valid := ValidOrdinals(Ordinals(Scan(answer, 0)), sourcing);
    if !AllNamed(valid, sourcing) then Err("KeyError")
    else
      var legend := Legend(valid, sourcing);
      match Lines(legend, sourcing, "source", link, quote)
      case Err(e) => Err(e)
      case Ok(ls) => Ok(if legend != [] then Strip(GroupedText(answer, sourcing) + Header + ls) else "")
  }

  method ConcatenateGrouped(answer: string, sourcing: Sourcing, db: string, collection: string, base: string,
                            quote: Quote) returns (r: Result<string>)
    ensures r == GroupedSources(answer, sourcing, db, collection, base, quote)
  {
    var link := Deep(base, db, collection, VNone);
    var prettified := PrettifyGrouped(answer, sourcing);
    if prettified.Err? {
      return Err(prettified.error);
    }
    var (newAnswer, sourceMatching) := prettified.value;
    var hasSources := sourceMatching != [];
    newAnswer := newAnswer + Header;
    var appended := AppendLines(newAnswer, sourceMatching, sourcing, "source", link, quote);
    if appended.Err? {
      return Err(appended.error);
    }
    AppendAssoc(GroupedText(answer, sourcing), Header, Lines(sourceMatching, sourcing, "source", link, quote).value);
    r := Ok(if hasSources then Strip(appended.value) else "");
  }

  lemma {:induction false} FirstCitingIn(ns: seq<nat>, sourcing: Sourcing, v: Value)
    requires AllNamed(ns, sourcing)
    requires FirstCiting(ns, sourcing, v).Some?
    ensures FirstCiting(ns, sourcing, v).value in ns
    ensures Name(sourcing, FirstCiting(ns, sourcing, v).value) == v
  {
    if Name(sourcing, ns[0]) != v {
      FirstCitingIn(ns[1..], sourcing, v);
    }
  }

  /** The legend's lines render exactly when every cited ordinal's source
      name is a string: each source has one line, read from its first
      citing ordinal. */
  lemma LegendLinesOk(ns: seq<nat>, sourcing: Sourcing, link: Link, quote: Quote)
    requires AllNamed(ns, sourcing)
    ensures Lines(Legend(ns, sourcing), sourcing, "source", link, quote).Ok?
            <==> forall n :: n in ns ==> Name(sourcing, n).VStr?
  {
    var legend := Legend(ns, sourcing);
    LegendEntries(ns, sourcing);
    LinesOk(legend, sourcing, "source", link, quote);
    if !forall n :: n in ns ==> Name(sourcing, n).VStr? {
      var n :| n in ns && !Name(sourcing, n).VStr?;
      var k := LegendEntryOf(ns, sourcing, n);
      assert !FileNamed(sourcing, legend[k].1, "source");
    }
  }

  /** Each legend entry points at a cited ordinal; the one at position k
      at an ordinal of the k-th source in first-seen order. */
  lemma LegendEntries(ns: seq<nat>, sourcing: Sourcing)
    requires AllNamed(ns, sourcing)
    ensures |Legend(ns, sourcing)| == |FirstSeen(Names(ns, sourcing))|
    ensures forall k :: 0 <= k < |Legend(ns, sourcing)| ==>
              Legend(ns, sourcing)[k].1 in ns
              && Name(sourcing, Legend(ns, sourcing)[k].1) == FirstSeen(Names(ns, sourcing))[k]
  {
    var legend := Legend(ns, sourcing);
    var fs := FirstSeen(Names(ns, sourcing));
    LegendShape(ns, sourcing);
    forall k | 0 <= k < |legend| ensures legend[k].1 in ns && Name(sourcing, legend[k].1) == fs[k] {
      FirstCitingIn(ns, sourcing, fs[k]);
    }
  }

  /** Every cited ordinal shares its source with some legend entry. */
  lemma LegendEntryOf(ns: seq<nat>, sourcing: Sourcing, n: nat) returns (k: nat)
    requires AllNamed(ns, sourcing) && n in ns
    ensures k < |Legend(ns, sourcing)| && Legend(ns, sourcing)[k].1 in ns
    ensures Name(sourcing, Legend(ns, sourcing)[k].1) == Name(sourcing, n)
  {
    var fs := FirstSeen(Names(ns, sourcing));
    LegendShape(ns, sourcing);
    LegendEntries(ns, sourcing);
    NameInNames(ns, sourcing, n);
    k :| 0 <= k < |fs| && fs[k] == Name(sourcing, n);
  }

  /** Nothing valid cited: the empty string; something valid cited: a text
      carrying the "Sources:" header. The list renders exactly when every
      valid cited ordinal names its source file as a string. */
  lemma GroupedSourcesShape(answer: string, sourcing: Sourcing, db: string, collection: string, base: string,
                            quote: Quote)
    ensures ValidOrdinals(Ordinals(Scan(answer, 0)), sourcing) == [] ==> GroupedSources(answer, sourcing, db, collection, base, quote) == Ok("")
    ensures GroupedSources(answer, sourcing, db, collection, base, quote).Ok? <==>
              var valid := ValidOrdinals(Ordinals(Scan(answer, 0)), sourcing);
              AllNamed(valid, sourcing) && forall n :: n in valid ==> Name(sourcing, n).VStr?
    ensures ValidOrdinals(Ordinals(Scan(answer, 0)), sourcing) != [] && GroupedSources(answer, sourcing, db, collection, base, quote).Ok? ==>
              GroupedSources(answer, sourcing, db, collection, base, quote).value != ""
              && Contains(GroupedSources(answer, sourcing, db, collection, base, quote).value, "Sources:")
  {
    var link := Deep(base, db, collection, VNone);
    var valid := ValidOrdinals(Ordinals(Scan(answer, 0)), sourcing);
    if AllNamed(valid, sourcing) {
      LegendShape(valid, sourcing);
      LegendLinesOk(valid, sourcing, link, quote);
      var ls := Lines(Legend(valid, sourcing), sourcing, "source", link, quote);
      if ls.Ok? {
        HeaderKept(GroupedText(answer, sourcing), ls.value);
      }
    }
  }

  // ---------------------------------------------------------------------
  // show_source of the agent graph
  // ---------------------------------------------------------------------

  /** The agent graph's rendering of an answer: every citation renumbered by
      source file, "Sources:" always appended, links to the file only, and
      `has_sources` set when the legend is not empty. */
  function AgentSources(answer: string, sourcing: Sourcing, base: string, quote: Quote): Result<(string, bool)> {
    var ns := Ordinals(Scan(answer, 0));
    if !AllNamed(ns, sourcing) then Err("KeyError")
    else
      var legend := Legend(ns, sourcing);
      match Lines(legend, sourcing, "source", Short(base), quote)
      case Err(e) => Err(e)
      case Ok(ls) => Ok((Strip(AgentText(answer, sourcing) + Header + ls), legend != []))
  }

  /** `show_source` of the agent graph: renders the last message and answers
      with one user message and the `has_sources` flag. */
  method ShowSourceAgents(messages: seq<Message>, sourcing: Sourcing, base: string, quote: Quote)
    returns (r: Result<(seq<Message>, bool)>)
    ensures messages == [] ==> r == Err("IndexError")
    ensures messages != [] ==>
              r == match AgentSources(messages[|messages| - 1].content, sourcing, base, quote)
                   case Err(e) => Err(e)
                   case Ok(out) => Ok(([Message("user", out.0, None)], out.1))
  {
    if messages == [] {
      return Err("IndexError");
    }
    var answer := messages[|messages| - 1].content;
    var prettified := PrettifyAgents(answer, sourcing);
    if prettified.Err? {
      return Err(prettified.error);
    }
    var (newAnswer, sourceMatching) := prettified.value;
    var hasSources := sourceMatching != [];
    newAnswer := newAnswer + Header;
    var appended := AppendLines(newAnswer, sourceMatching, sourcing, "source", Short(base), quote);
    if appended.Err? {
      return Err(appended.error);
    }
    AppendAssoc(AgentText(answer, sourcing), Header, Lines(sourceMatching, sourcing, "source", Short(base), quote).value);
    r := Ok(([Message("user", Strip(appended.value), None)], hasSources));
  }

  /** `has_sources` holds exactly when a marker was matched, and the header
      is always in the output; the rendering succeeds exactly when every
      cited ordinal is known and names its file as a string. */
  lemma AgentSourcesShape(answer: string, sourcing: Sourcing, base: string, quote: Quote)
    ensures AgentSources(answer, sourcing, base, quote).Ok? <==>
              AllNamed(Ordinals(Scan(answer, 0)), sourcing)
              && forall n :: n in Ordinals(Scan(answer, 0)) ==> Name(sourcing, n).VStr?
    ensures AgentSources(answer, sourcing, base, quote).Ok? ==>
              (AgentSources(answer, sourcing, base, quote).value.1 <==> Scan(answer, 0) != [])
              && Contains(AgentSources(answer, sourcing, base, quote).value.0, "Sources:")
  {
    var ns := Ordinals(Scan(answer, 0));
    if AllNamed(ns, sourcing) {
      LegendShape(ns, sourcing);
      LegendLinesOk(ns, sourcing, Short(base), quote);
      var ls := Lines(Legend(ns, sourcing), sourcing, "source", Short(base), quote);
      if ls.Ok? {
        HeaderKept(AgentText(answer, sourcing), ls.value);
      }
    }
  }

  // ---------------------------------------------------------------------
  // show_source of the two workflow graphs
  // ---------------------------------------------------------------------

  /** The content of the last message tagged with `path`. */
  function LastTagged(messages: seq<Message>, path: string): Option<string> {
    if messages == [] then None
    else if messages[|messages| - 1].path == Some(path) then Some(messages[|messages| - 1].content)
    else LastTagged(messages[..|messages| - 1], path)
  }

  /** It is absent exactly when no message carries the tag, and otherwise
      the content of a tagged message that no later message overrides. */
  lemma {:induction false} LastTaggedIsLast(messages: seq<Message>, path: string)
    ensures LastTagged(messages, path).None? <==> forall k :: 0 <= k < |messages| ==> messages[k].path != Some(path)
    ensures LastTagged(messages, path).Some? ==>
              exists k :: 0 <= k < |messages| && messages[k].path == Some(path)
                          && messages[k].content == LastTagged(messages, path).value
                          && forall j :: k < j < |messages| ==> messages[j].path != Some(path)
  {
    if messages != [] {
      var init := messages[..|messages| - 1];
      var last := |messages| - 1;
      LastTaggedIsLast(init, path);
      if messages[last].path == Some(path) {
        assert messages[last].content == LastTagged(messages, path).value;
      } else {
        assert forall k :: 0 <= k < |init| ==> init[k] == messages[k];
        if LastTagged(init, path).Some? {
          var k :| 0 <= k < |init| && init[k].path == Some(path)
                   && init[k].content == LastTagged(init, path).value
                   && forall j :: k < j < |init| ==> init[j].path != Some(path);
          assert messages[k].content == LastTagged(messages, path).value;
        }
      }
    }
  }

  /** `show_source` of the first workflow graph: the last vector-search and
      the last full-text answer, each rendered with the sorted source list
      against the page collection, joined by a blank line into one system
      message. A path no message carries leaves its variable unbound. */
  function BothChannels(messages: seq<Message>, vectorSourcing: Sourcing, fulltextSourcing: Sourcing,
                        db: string, collection: string, base: string, quote: Quote): Result<Message>
  {
    var vector := LastTagged(messages, "vector_search");
    var fulltext := LastTagged(messages, "fulltext_search");
    if vector.None? || fulltext.None? then Err("UnboundLocalError")
    else
      var link := Deep(base, db, collection, VNum(0));
      match SortedSources(vector.value, vectorSourcing, "filename", link, quote)
      case Err(e) => Err(e)
      case Ok(a) =>
        match SortedSources(fulltext.value, fulltextSourcing, "filename", link, quote)
        case Err(e) => Err(e)
        case Ok(b) => Ok(Message("system", a + "\n\n" + b, None))
  }

  method ShowSource(messages: seq<Message>, vectorSourcing: Sourcing, fulltextSourcing: Sourcing,
                    db: string, collection: string, base: string, quote: Quote) returns (r: Result<Message>)
    ensures r == BothChannels(messages, vectorSourcing, fulltextSourcing, db, collection, base, quote)
  {
    var vector: Option<string> := None;
    var fulltext: Option<string> := None;
    var i := 0;
    while i < |messages|
      invariant 0 <= i <= |messages|
      invariant vector == LastTagged(messages[..i], "vector_search")
      invariant fulltext == LastTagged(messages[..i], "fulltext_search")
    {
      assert messages[..i + 1][..i] == messages[..i];
      if messages[i].path == Some("vector_search") {
        vector := Some(messages[i].content);
      } else if messages[i].path == Some("fulltext_search") {
        fulltext := Some(messages[i].content);
      }
      i := i + 1;
    }
    assert messages[..i] == messages;
    if vector.None? || fulltext.None? {
      return Err("UnboundLocalError");
    }
    var link := Deep(base, db, collection, VNum(0));
    var a := ConcatenateAnswer(vector.value, vectorSourcing, "filename", link, quote);
    if a.Err? {
      return Err(a.error);
    }
    var b := ConcatenateAnswer(fulltext.value, fulltextSourcing, "filename", link, quote);
    if b.Err? {
      return Err(b.error);
    }
    r := Ok(Message("system", a.value + "\n\n" + b.value, None));
  }

  /** `show_source` of the second workflow graph: the first two answers
      with the first two sourcing maps, each rendered with the sorted source
      list against the fixed collection "pdf_pages", joined by a blank line
      into one user message. */
  function ShowSourcePages(answers: seq<Message>, sourcings: seq<Sourcing>, db: string, base: string, quote: Quote)
    : (r: Result<Message>)
    ensures |answers| < 2 || |sourcings| < 2 ==> r == Err("IndexError")
    ensures r.Ok? <==> |answers| >= 2 && |sourcings| >= 2
                       && SortedSources(answers[0].content, sourcings[0], "source", Deep(base, db, "pdf_pages", VNum(0)), quote).Ok?
                       && SortedSources(answers[1].content, sourcings[1], "source", Deep(base, db, "pdf_pages", VNum(0)), quote).Ok?
    ensures r.Ok? ==> r.value.role == "user"
  {
    if |answers| < 2 || |sourcings| < 2 then Err("IndexError")
    else
      var link := Deep(base, db, "pdf_pages", VNum(0));
      match SortedSources(answers[0].content, sourcings[0], "source", link, quote)
      case Err(e) => Err(e)
      case Ok(a) =>
        match SortedSources(answers[1].content, sourcings[1], "source", link, quote)
        case Err(e) => Err(e)
        case Ok(b) => Ok(Message("user", a + "\n\n" + b, None))
  }
}
