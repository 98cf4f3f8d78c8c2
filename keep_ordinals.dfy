/** The keep-ordinal citation policy (`prettify_sources` of the workflow
    nodes, and `prettify_sources_new` of the earlier workflow module): the
    markers of unknown ordinals are deleted and every other marker becomes
    the superscript of its own ordinal, with no renumbering. */
module KeepOrdinals {
  import opened Common
  import opened Superscript
  import opened Markers
  import opened Citations

  /** The pairs of the superscript loop, in order of the valid ordinals:
      the marker of n becomes the superscript of n. */
  function KeepSubs(valid: seq<nat>): seq<(string, string)> {
    if valid == [] then []
    else
      var n := valid[|valid| - 1];
      KeepSubs(valid[..|valid| - 1]) + [(NatToString(n), IntToSuperscript(n))]
  }

  /** `superscript_to_idx`: `d[int_to_superscript(idx)] = idx` for each
      valid ordinal in turn. Its keys are distinct superscripts, each the
      superscript of the ordinal it maps to. */
  function SupToIdx(valid: seq<nat>): Dict<string, nat> {
    if valid == [] then []
    else Put(SupToIdx(valid[..|valid| - 1]), IntToSuperscript(valid[|valid| - 1]), valid[|valid| - 1])
  }

  /** Its keys are distinct, and each entry is a valid ordinal under its own
      superscript. */
  lemma {:induction false} SupToIdxEntries(valid: seq<nat>)
    ensures Distinct(Keys(SupToIdx(valid)))
    ensures forall k :: 0 <= k < |SupToIdx(valid)| ==>
              SupToIdx(valid)[k].0 == IntToSuperscript(SupToIdx(valid)[k].1) && SupToIdx(valid)[k].1 in valid
  {
    if valid != [] {
      var n := valid[|valid| - 1];
      var init := SupToIdx(valid[..|valid| - 1]);
      SupToIdxEntries(valid[..|valid| - 1]);
      PutDistinct(init, IntToSuperscript(n), n);
      PutEntries(init, IntToSuperscript(n), n);
      var d := SupToIdx(valid);
      forall k | 0 <= k < |d| ensures d[k].0 == IntToSuperscript(d[k].1) && d[k].1 in valid {
        assert d[k] in d;
        if d[k] != (IntToSuperscript(n), n) {
          var k' :| 0 <= k' < |init| && init[k'] == d[k];
        }
      }
    }
  }

  /** Every valid ordinal is found under its own superscript. */
  lemma {:induction false} SupToIdxLookup(valid: seq<nat>, n: nat)
    requires n in valid
    ensures Lookup(SupToIdx(valid), IntToSuperscript(n)) == Some(n)
  {
    var m := valid[|valid| - 1];
    var init := valid[..|valid| - 1];
    assert valid == init + [m];
    PutLookup(SupToIdx(init), IntToSuperscript(m), m, IntToSuperscript(n));
    if n != m {
      IntToSuperscriptInjective(n, m);
      SupToIdxLookup(init, n);
    }
  }

  /** The rendered answer: the text after both loops. */
  function KeepText(text: string, sourcing: Sourcing): string {
    var matches := Scan(text, 0);
    var valid := ValidOrdinals(Ordinals(matches), sourcing);
    ReplaceEach(ReplaceEach(text, RemovalSubs(matches, sourcing)), KeepSubs(valid))
  }

  /** `prettify_sources(text, sourcing)`: scan, delete the markers of
      unknown ordinals, turn the others into superscripts one first
      occurrence at a time, and build the superscript-to-ordinal map. */
  method PrettifyKeep(text: string, sourcing: Sourcing) returns (replaced: string, supToIdx: Dict<string, nat>)
    ensures replaced == KeepText(text, sourcing)
    ensures supToIdx == SupToIdx(ValidOrdinals(Ordinals(Scan(text, 0)), sourcing))
  {
    var matches := FindMarkers(text);
    var valid := ValidOrdinals(Ordinals(matches), sourcing);
    var removed := RemoveInvalid(text, matches, sourcing);
    replaced := Superscripts(removed, valid);
    supToIdx := BuildSupToIdx(valid);
  }

  /** The superscript loop. */
  method Superscripts(removed: string, valid: seq<nat>) returns (replaced: string)
    ensures replaced == ReplaceEach(removed, KeepSubs(valid))
  {
    replaced := removed;
    var i := 0;
    while i < |valid|
      invariant 0 <= i <= |valid|
      invariant replaced == ReplaceEach(removed, KeepSubs(valid[..i]))
    {
      var idx := valid[i];
      assert valid[..i + 1][..i] == valid[..i];
      assert valid[..i + 1][i] == idx;
      ReplaceEachSnoc(removed, KeepSubs(valid[..i]), (NatToString(idx), IntToSuperscript(idx)));
      replaced := ReplaceFirst(replaced, MarkerText(NatToString(idx)), IntToSuperscript(idx));
      i := i + 1;
    }
    assert valid[..i] == valid;
  }

  /** The map-building loop. */
  method BuildSupToIdx(valid: seq<nat>) returns (supToIdx: Dict<string, nat>)
    ensures supToIdx == SupToIdx(valid)
  {
    supToIdx := [];
    var j := 0;
    while j < |valid|
      invariant 0 <= j <= |valid|
      invariant supToIdx == SupToIdx(valid[..j])
    {
      assert valid[..j + 1][..j] == valid[..j];
      supToIdx := Put(supToIdx, IntToSuperscript(valid[j]), valid[j]);
      j := j + 1;
    }
    assert valid[..j] == valid;
  }

  // ---------------------------------------------------------------------
  // On answers made of pieces
  // ---------------------------------------------------------------------

  /** The intended rendering: a marker of a known ordinal becomes its
      superscript, a marker of an unknown ordinal disappears. */
  function KeepRender(ps: seq<Piece>, sourcing: Sourcing): (r: seq<Piece>)
    ensures |r| == |ps|
    ensures forall i :: 0 <= i < |ps| ==>
              r[i] == if ps[i].Cite? then Plain(if ps[i].n in sourcing then IntToSuperscript(ps[i].n) else "")
                      else ps[i]
  {
    seq(|ps|, i requires 0 <= i < |ps| =>
      if ps[i].Cite? then Plain(if ps[i].n in sourcing then IntToSuperscript(ps[i].n) else "") else ps[i])
  }

  lemma {:induction false} KeepSubsOrdSubs(ns: seq<nat>, sel: nat -> bool, rep: nat -> string)
    requires forall k :: 0 <= k < |ns| ==> sel(ns[k])
    requires forall n :: rep(n) == IntToSuperscript(n)
    ensures KeepSubs(ns) == OrdSubs(ns, sel, rep)
  {
    if ns != [] {
      KeepSubsOrdSubs(ns[..|ns| - 1], sel, rep);
    }
  }

  /** On a well-formed answer, the rendered text is the intended rendering,
      and no marker is left in it. */
  lemma KeepTextPieces(ps: seq<Piece>, sourcing: Sourcing)
    requires WellFormed(ps)
    ensures KeepText(Flatten(ps), sourcing) == Flatten(KeepRender(ps, sourcing))
    ensures Scan(KeepText(Flatten(ps), sourcing), 0) == []
  {
    KeepTextRender(ps, sourcing);
    KeepRenderClean(ps, sourcing);
  }

  lemma KeepTextRender(ps: seq<Piece>, sourcing: Sourcing)
    requires WellFormed(ps)
    ensures KeepText(Flatten(ps), sourcing) == Flatten(KeepRender(ps, sourcing))
  {
    var ps1 := Removed(ps, sourcing);
    KeepTextStages(ps, sourcing);
    SuperscriptPieces(ps1, ValidOrdinals(Ords(ps), sourcing), sourcing);
    RenderAfterRemoval(ps, sourcing);
  }

  /** Blanking the unknown citations and then rendering the known ones as
      superscripts is the keep rendering. */
  lemma RenderAfterRemoval(ps: seq<Piece>, sourcing: Sourcing)
    ensures SupRender(Removed(ps, sourcing), sourcing) == KeepRender(ps, sourcing)
  {
    var l := SupRender(Removed(ps, sourcing), sourcing);
    var r := KeepRender(ps, sourcing);
    assert forall i :: 0 <= i < |l| ==> l[i] == r[i];
  }

  lemma KeepTextStages(ps: seq<Piece>, sourcing: Sourcing)
    requires WellFormed(ps)
    ensures WellFormed(Removed(ps, sourcing))
    ensures Ords(Removed(ps, sourcing)) == ValidOrdinals(Ords(ps), sourcing)
    ensures KeepText(Flatten(ps), sourcing)
            == ReplaceEach(Flatten(Removed(ps, sourcing)), KeepSubs(ValidOrdinals(Ords(ps), sourcing)))
  {
    RemoveInvalidPieces(ps, sourcing);
  }

  lemma SuperscriptPieces(ps1: seq<Piece>, valid: seq<nat>, sourcing: Sourcing)
    requires WellFormed(ps1)
    requires Ords(ps1) == valid
    requires forall k :: 0 <= k < |valid| ==> valid[k] in sourcing
    ensures ReplaceEach(Flatten(ps1), KeepSubs(valid)) == Flatten(SupRender(ps1, sourcing))
  {
    var isIn := (n: nat) => n in sourcing;
    var sup := (n: nat) => IntToSuperscript(n);
    KeepSubsOrdSubs(valid, isIn, sup);
    forall n | isIn(n) ensures StarFree(sup(n)) {
      SuperscriptHasNoMarkerChars(n);
    }
    ReplaceEachPieces(ps1, isIn, sup);
    assert Rewrite(ps1, isIn, sup) == SupRender(ps1, sourcing);
  }

  /** Every marker of a known ordinal turned into its superscript. */
  function SupRender(ps: seq<Piece>, sourcing: Sourcing): (r: seq<Piece>)
    ensures |r| == |ps|
    ensures forall i :: 0 <= i < |ps| ==>
              r[i] == if ps[i].Cite? && ps[i].n in sourcing then Plain(IntToSuperscript(ps[i].n)) else ps[i]
  {
    seq(|ps|, i requires 0 <= i < |ps| =>
      if ps[i].Cite? && ps[i].n in sourcing then Plain(IntToSuperscript(ps[i].n)) else ps[i])
  }

  lemma KeepRenderClean(ps: seq<Piece>, sourcing: Sourcing)
    requires WellFormed(ps)
    ensures WellFormed(KeepRender(ps, sourcing))
    ensures Scan(Flatten(KeepRender(ps, sourcing)), 0) == []
  {
    forall n: nat ensures StarFree(IntToSuperscript(n)) {
      SuperscriptHasNoMarkerChars(n);
    }
    NoMarkerLeft(KeepRender(ps, sourcing));
  }

  /** The scan reads `**(1)**` as the number "1". */
  lemma UnspacedScan()
    ensures Scan("**(1)**", 0) == ["1"]
  {
    var s := "**(1)**";
    assert DigitRunEnd(s, 3) == 4;
    assert OpenAt(s, 0) && CloseAt(s, 4);
    assert MatchAt(s, 0) == Some(4);
    assert Scan(s, 7) == [];
    assert s[3..4] == "1";
  }

  /** An answer whose only match reads as the valid ordinal 1 keeps its
      text up to the one replacement of ` **(1)**` by `¹`, and maps `¹` to
      1. */
  lemma SingleMatchOfOne(s: string, m: string, sourcing: Sourcing)
    requires Scan(s, 0) == [m] && AllDigits(m) && DecimalValue(m) == 1 && 1 in sourcing
    ensures KeepText(s, sourcing) == ReplaceFirst(s, MarkerText("1"), "¹")
    ensures SupToIdx(ValidOrdinals(Ordinals(Scan(s, 0)), sourcing)) == [("¹", 1)]
  {
    var one: seq<nat> := [1];
    assert DigitStringsOnly([m]);
    assert [m][..0] == [] && one[..0] == [];
    assert Ordinals([m]) == one;
    assert ValidOrdinals(one, sourcing) == ValidOrdinals([], sourcing) + one;
    assert RemovalSubs([m], sourcing) == [];
    assert KeepSubs(one) == [("1", IntToSuperscript(1))];
    assert IntToSuperscript(1) == "¹";
    assert SupToIdx(one) == Put([], "¹", 1);
    assert ReplaceEach(s, []) == s;
    assert [("1", "¹")][..0] == [];
  }

  /** A marker written without its leading space is not a ` **(n)**` and is
      left as it is, although the scan counts it as a valid citation. */
  lemma UnspacedMarkerKept(sourcing: Sourcing)
    requires 1 in sourcing
    ensures KeepText("**(1)**", sourcing) == "**(1)**"
    ensures SupToIdx(ValidOrdinals(Ordinals(Scan("**(1)**", 0)), sourcing)) == [("¹", 1)]
  {
    UnspacedScan();
    assert DecimalValue("1") == 1 by {
      assert "1"[..0] == "";
    }
    SingleMatchOfOne("**(1)**", "1", sourcing);
    assert FindFrom("**(1)**", MarkerText("1"), 0) == None;
  }

  /** The scan reads ` **(01)**` as the number "01". */
  lemma LeadingZeroScan()
    ensures Scan(" **(01)**", 0) == ["01"]
  {
    var s := " **(01)**";
    assert DigitRunEnd(s, 4) == 6;
    assert OpenAt(s, 1) && CloseAt(s, 6);
    assert MatchAt(s, 0) == None;
    assert MatchAt(s, 1) == Some(6);
    assert Scan(s, 9) == [];
    assert s[4..6] == "01";
  }

  /** ` **(1)**` does not occur in ` **(01)**`. */
  lemma LeadingZeroNotFound()
    ensures FindFrom(" **(01)**", MarkerText("1"), 0) == None
  {
    var s, pat := " **(01)**", MarkerText("1");
    assert |pat| == 8 && pat[4] == '1';
    assert s[0..8][4] == '0';
    assert s[1..9][0] == '*';
    assert FindFrom(s, pat, 2) == None;
  }

  /** A marker whose number has a leading zero is counted as the citation of
      its value, but the replacement looks for the number written without
      the zero, so the text keeps the marker. */
  lemma LeadingZeroMarkerKept(sourcing: Sourcing)
    requires 1 in sourcing
    ensures KeepText(" **(01)**", sourcing) == " **(01)**"
    ensures SupToIdx(ValidOrdinals(Ordinals(Scan(" **(01)**", 0)), sourcing)) == [("¹", 1)]
  {
    LeadingZeroScan();
    assert DecimalValue("01") == 1 by {
      assert "01"[..1] == "0" && "0"[..0] == "";
    }
    SingleMatchOfOne(" **(01)**", "01", sourcing);
    LeadingZeroNotFound();
  }
}
