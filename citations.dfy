/** What the three citation renderers share: the ordinal-to-metadata map they
    receive, the ordinals read from the markers, the validity filter, and
    the loop that deletes markers whose ordinal the map does not know. */
module Citations {
  import opened Common
  import opened Markers

  /** `sourcing`: snippet ordinal to the metadata of that snippet. */
  type Sourcing = map<nat, Meta>

  predicate DigitStringsOnly(ms: seq<string>) {
    forall k :: 0 <= k < |ms| ==> AllDigits(ms[k])
  }

  /** `list(map(int, matches))`. */
  function Ordinals(matches: seq<string>): (r: seq<nat>)
    requires DigitStringsOnly(matches)
    ensures |r| == |matches| && forall k :: 0 <= k < |r| ==> r[k] == DecimalValue(matches[k])
  {
    seq(|matches|, k requires 0 <= k < |matches| => DecimalValue(matches[k]))
  }

  /** `[idx for idx in integers if idx in sourcing]`. */
  function ValidOrdinals(ns: seq<nat>, sourcing: Sourcing): (r: seq<nat>)
    ensures forall n :: n in r <==> n in ns && n in sourcing
    ensures |r| <= |ns|
  {
    if ns == [] then []
    else
      var n := ns[|ns| - 1];
      assert ns == ns[..|ns| - 1] + [n];
      ValidOrdinals(ns[..|ns| - 1], sourcing) + (if n in sourcing then [n] else [])
  }

  /** The pairs the deletion loop applies, in order: each match whose
      ordinal is unknown, replaced by nothing. */
  function RemovalSubs(matches: seq<string>, sourcing: Sourcing): seq<(string, string)>
    requires DigitStringsOnly(matches)
  {
    if matches == [] then []
    else
      var m := matches[|matches| - 1];
      RemovalSubs(matches[..|matches| - 1], sourcing)
      + (if DecimalValue(m) !in sourcing then [(m, "")] else [])
  }

  /** The deletion loop: each marker ` **(m)**` whose ordinal is not a key
      of `sourcing` loses its first remaining occurrence, leading space
      included. */
  method RemoveInvalid(text: string, matches: seq<string>, sourcing: Sourcing) returns (replaced: string)
    requires DigitStringsOnly(matches)
    ensures replaced == ReplaceEach(text, RemovalSubs(matches, sourcing))
  {
    replaced := text;
    var i := 0;
    while i < |matches|
      invariant 0 <= i <= |matches|
      invariant replaced == ReplaceEach(text, RemovalSubs(matches[..i], sourcing))
    {
      var m := matches[i];
      var done := RemovalSubs(matches[..i], sourcing);
      assert matches[..i + 1][..i] == matches[..i];
      assert matches[..i + 1][i] == m;
      if DecimalValue(m) !in sourcing {
        assert RemovalSubs(matches[..i + 1], sourcing) == done + [(m, "")];
        ReplaceEachSnoc(text, done, (m, ""));
        replaced := ReplaceFirst(replaced, MarkerText(m), "");
      } else {
        assert RemovalSubs(matches[..i + 1], sourcing) == done + [];
        assert done + [] == done;
      }
      i := i + 1;
    }
    assert matches[..i] == matches;
  }

  // ---------------------------------------------------------------------
  // On answers made of pieces
  // ---------------------------------------------------------------------

  /** The answer with every marker of an unknown ordinal deleted. */
  function Removed(ps: seq<Piece>, sourcing: Sourcing): (r: seq<Piece>)
    ensures |r| == |ps|
    ensures forall i :: 0 <= i < |ps| ==>
              r[i] == if ps[i].Cite? && ps[i].n !in sourcing then Plain("") else ps[i]
  {
    seq(|ps|, i requires 0 <= i < |ps| =>
      if ps[i].Cite? && ps[i].n !in sourcing then Plain("") else ps[i])
  }

  /** Reading the canonical digit strings back gives the ordinals. */
  lemma OrdinalsOfDigits(ns: seq<nat>)
    ensures Ordinals(DigitStrings(ns)) == ns
  {
    forall k | 0 <= k < |ns| ensures Ordinals(DigitStrings(ns))[k] == ns[k] {
      DecimalRoundTrip(ns[k]);
    }
  }

  lemma {:induction false} RemovalSubsOfDigits(ns: seq<nat>, sourcing: Sourcing, inv: nat -> bool, blank: nat -> string)
    requires forall n :: inv(n) == (n !in sourcing)
    requires forall n :: blank(n) == ""
    ensures RemovalSubs(DigitStrings(ns), sourcing) == OrdSubs(ns, inv, blank)
  {
    if ns != [] {
      var ms := DigitStrings(ns);
      var n := ns[|ns| - 1];
      assert ms[..|ms| - 1] == DigitStrings(ns[..|ns| - 1]);
      RemovalSubsOfDigits(ns[..|ns| - 1], sourcing, inv, blank);
      DecimalRoundTrip(n);
    }
  }

  lemma {:induction false} OrdsRemoved(ps: seq<Piece>, sourcing: Sourcing)
    ensures Ords(Removed(ps, sourcing)) == ValidOrdinals(Ords(ps), sourcing)
  {
    if ps != [] {
      var init := ps[..|ps| - 1];
      var p := ps[|ps| - 1];
      var rp := if p.Cite? && p.n !in sourcing then Plain("") else p;
      assert ps == init + [p];
      assert Removed(ps, sourcing) == Removed(init, sourcing) + [rp];
      PieceSplit(init, p, "");
      PieceSplit(Removed(init, sourcing), rp, "");
      OrdsRemoved(init, sourcing);
      if p.Cite? {
        var ns := Ords(ps);
        assert ns == Ords(init) + [p.n];
        assert ns[..|ns| - 1] == Ords(init);
        assert ValidOrdinals(ns, sourcing)
               == ValidOrdinals(Ords(init), sourcing) + (if p.n in sourcing then [p.n] else []);
        if p.n in sourcing {
          assert Ords(Removed(ps, sourcing)) == Ords(Removed(init, sourcing)) + [p.n];
        } else {
          assert Ords(Removed(ps, sourcing)) == Ords(Removed(init, sourcing)) + [];
        }
      } else {
        assert rp == p;
        assert Ords(init) + [] == Ords(init);
        assert Ords(Removed(init, sourcing)) + [] == Ords(Removed(init, sourcing));
      }
    }
  }

  lemma RemovedWellFormed(ps: seq<Piece>, sourcing: Sourcing)
    requires WellFormed(ps)
    ensures WellFormed(Removed(ps, sourcing))
  {
  }

  /** The matches and the deletion loop on a well-formed answer: the
      ordinals read are the cited ones, the valid ones are those the map
      knows, and exactly the markers of unknown ordinals disappear. */
  lemma RemoveInvalidPieces(ps: seq<Piece>, sourcing: Sourcing)
    requires WellFormed(ps)
    ensures Scan(Flatten(ps), 0) == DigitStrings(Ords(ps))
    ensures Ordinals(Scan(Flatten(ps), 0)) == Ords(ps)
    ensures ReplaceEach(Flatten(ps), RemovalSubs(Scan(Flatten(ps), 0), sourcing))
            == Flatten(Removed(ps, sourcing))
    ensures Ords(Removed(ps, sourcing)) == ValidOrdinals(Ords(ps), sourcing)
  {
    var inv := (n: nat) => n !in sourcing;
    var blank := (n: nat) => "";
    ScanPieces(ps);
    OrdinalsOfDigits(Ords(ps));
    RemovalSubsOfDigits(Ords(ps), sourcing, inv, blank);
    forall n | inv(n) ensures StarFree(blank(n)) { }
    ReplaceEachPieces(ps, inv, blank);
    assert Rewrite(ps, inv, blank) == Removed(ps, sourcing);
    OrdsRemoved(ps, sourcing);
  }

  /** An answer of plain pieces only carries no marker the scan could find:
      no dangling citation is left. */
  lemma {:induction false} NoMarkerLeft(ps: seq<Piece>)
    requires WellFormed(ps)
    requires forall i :: 0 <= i < |ps| ==> ps[i].Plain?
    ensures Scan(Flatten(ps), 0) == []
  {
    ScanPieces(ps);
    PlainOrds(ps);
  }

  lemma {:induction false} PlainOrds(ps: seq<Piece>)
    requires forall i :: 0 <= i < |ps| ==> ps[i].Plain?
    ensures Ords(ps) == []
  {
    if ps != [] {
      assert forall i :: 0 <= i < |ps[1..]| ==> ps[1..][i] == ps[i + 1];
      PlainOrds(ps[1..]);
    }
  }
}
