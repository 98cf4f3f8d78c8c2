/** Citation markers in a model answer.

    The answer generator is told to cite snippet n as `**(n)**` after a
    statement. All three citation renderers first collect the markers with
    `re.findall(r"\*\*\((\d+)\)\*\*", text)` and then rewrite the text with
    `str.replace(" **(n)**", new, 1)` once per marker. This module models the
    scan as an explicit loop, the rewriting as a fold of first-occurrence
    replacements, and proves what both do on answers made of plain text and
    spaced markers. */
module Markers {
  import opened Common

  /** The text the renderers replace for the digit string d. */
  function MarkerText(d: string): string {
    " **(" + d + ")**"
  }

  // ---------------------------------------------------------------------
  // re.findall(r"\*\*\((\d+)\)\*\*", text)
  // ---------------------------------------------------------------------

  /** The position just past the run of ASCII digits starting at i. */
  function DigitRunEnd(s: string, i: nat): (j: nat)
    requires i <= |s|
    ensures i <= j <= |s|
    ensures forall k :: i <= k < j ==> IsDigit(s[k])
    ensures j == |s| || !IsDigit(s[j])
    decreases |s| - i
  {
    if i < |s| && IsDigit(s[i]) then DigitRunEnd(s, i + 1) else i
  }

  /** When the pattern matches at i, the end of its digit group. The digit
      group is greedy and is followed by `)`, so backtracking never finds a
      shorter match. */
  function MatchAt(s: string, i: nat): (r: Option<nat>)
    ensures r.Some? ==> i + 3 < r.value && r.value + 3 <= |s| && s[i] == '*'
  {
    if OpenAt(s, i) then CloseAfter(s, i + 3, DigitRunEnd(s, i + 3)) else None
  }

  /** "**(" at position i. */
  predicate OpenAt(s: string, i: int) {
    0 <= i && i + 3 <= |s| && s[i] == '*' && s[i + 1] == '*' && s[i + 2] == '('
  }

  /** ")**" at position j. */
  predicate CloseAt(s: string, j: int) {
    0 <= j && j + 3 <= |s| && s[j] == ')' && s[j + 1] == '*' && s[j + 2] == '*'
  }

  /** The end of the digit group starting at d, when the group is not empty
      and ")**" follows it. */
  function CloseAfter(s: string, d: nat, j: nat): (r: Option<nat>)
    ensures r.Some? ==> r.value == j && d < j && CloseAt(s, j)
  {
    if j > d && CloseAt(s, j) then Some(j) else None
  }

  /** The digit groups of the leftmost, non-overlapping matches at or after
      position i, in order. */
  function Scan(s: string, i: nat): (r: seq<string>)
    ensures forall k :: 0 <= k < |r| ==> |r[k]| >= 1 && AllDigits(r[k])
    decreases |s| - i
  {
    if i >= |s| then []
    else match MatchAt(s, i)
      case Some(j) => [s[i + 3..j]] + Scan(s, j + 3)
      case None => Scan(s, i + 1)
  }

  /** `re.findall` of the marker pattern, as a left-to-right scanning loop. */
  method FindMarkers(text: string) returns (matches: seq<string>)
    ensures matches == Scan(text, 0)
    ensures forall k :: 0 <= k < |matches| ==> |matches[k]| >= 1 && AllDigits(matches[k])
  {
    matches := [];
    var i := 0;
    while i < |text|
      invariant 0 <= i <= |text|
      invariant matches + Scan(text, i) == Scan(text, 0)
    {
      if OpenAt(text, i) {
        var j := i + 3;
        while j < |text| && IsDigit(text[j])
          invariant i + 3 <= j <= |text|
          invariant DigitRunEnd(text, j) == DigitRunEnd(text, i + 3)
        {
          j := j + 1;
        }
        if j > i + 3 && CloseAt(text, j) {
          matches := matches + [text[i + 3..j]];
          i := j + 3;
        } else {
          i := i + 1;
        }
      } else {
        i := i + 1;
      }
    }
  }

  // ---------------------------------------------------------------------
  // Replacing marker occurrences one at a time
  // ---------------------------------------------------------------------

  /** Each pair (d, r), in order, replaces the first ` **(d)**` still in the
      text by r: the loops of the renderers. */
  function ReplaceEach(text: string, subs: seq<(string, string)>): string {
    if subs == [] then text
    else ReplaceFirst(ReplaceEach(text, subs[..|subs| - 1]), MarkerText(subs[|subs| - 1].0), subs[|subs| - 1].1)
  }

  /** One more pair applies one more first-occurrence replacement. */
  lemma ReplaceEachSnoc(text: string, subs: seq<(string, string)>, x: (string, string))
    ensures ReplaceEach(text, subs + [x]) == ReplaceFirst(ReplaceEach(text, subs), MarkerText(x.0), x.1)
  {
    assert (subs + [x])[..|subs|] == subs;
  }

  // ---------------------------------------------------------------------
  // Answers made of plain text and spaced markers
  // ---------------------------------------------------------------------

  /** An answer is read as a sequence of pieces: plain text without `*`, or
      a marker ` **(n)**` written with its leading space, as the prompt asks. */
  datatype Piece = Plain(text: string) | Cite(n: nat)

  predicate StarFree(s: string) {
    forall i :: 0 <= i < |s| ==> s[i] != '*'
  }

  predicate WellFormed(ps: seq<Piece>) {
    forall i :: 0 <= i < |ps| && ps[i].Plain? ==> StarFree(ps[i].text)
  }

  function PieceText(p: Piece): string {
    match p
    case Plain(t) => t
    case Cite(n) => MarkerText(NatToString(n))
  }

  function Flatten(ps: seq<Piece>): string {
    if ps == [] then "" else PieceText(ps[0]) + Flatten(ps[1..])
  }

  /** The cited ordinals, in text order. */
  function Ords(ps: seq<Piece>): seq<nat> {
    if ps == [] then []
    else (if ps[0].Cite? then [ps[0].n] else []) + Ords(ps[1..])
  }

  /** Every cited piece's ordinal is among the cited ordinals. */
  lemma {:induction false} CitedInOrds(ps: seq<Piece>, i: nat)
    requires i < |ps| && ps[i].Cite?
    ensures ps[i].n in Ords(ps)
  {
    if i > 0 {
      assert ps[1..][i - 1] == ps[i];
      CitedInOrds(ps[1..], i - 1);
    }
  }

  function DigitStrings(ns: seq<nat>): (r: seq<string>)
    ensures |r| == |ns| && forall i :: 0 <= i < |ns| ==> r[i] == NatToString(ns[i])
  {
    seq(|ns|, i requires 0 <= i < |ns| => NatToString(ns[i]))
  }

  /** The replacement pairs for the ordinals picked by `sel`, in order. */
  function OrdSubs(ns: seq<nat>, sel: nat -> bool, rep: nat -> string): seq<(string, string)> {
    if ns == [] then []
    else OrdSubs(ns[..|ns| - 1], sel, rep) + OrdSub(ns[|ns| - 1], sel, rep)
  }

  function OrdSub(n: nat, sel: nat -> bool, rep: nat -> string): seq<(string, string)> {
    if sel(n) then [(NatToString(n), rep(n))] else []
  }

  function RewritePiece(p: Piece, sel: nat -> bool, rep: nat -> string): Piece {
    if p.Cite? && sel(p.n) then Plain(rep(p.n)) else p
  }

  /** Every marker picked by `sel` turned into the plain text `rep(n)`. */
  function Rewrite(ps: seq<Piece>, sel: nat -> bool, rep: nat -> string): (r: seq<Piece>)
    ensures |r| == |ps| && forall i :: 0 <= i < |ps| ==> r[i] == RewritePiece(ps[i], sel, rep)
  {
    seq(|ps|, i requires 0 <= i < |ps| => RewritePiece(ps[i], sel, rep))
  }

  lemma FlattenCons(p: Piece, b: seq<Piece>)
    ensures Flatten([p] + b) == PieceText(p) + Flatten(b)
  {
    assert ([p] + b)[1..] == b;
  }

  lemma {:induction false} FlattenAppend(a: seq<Piece>, b: seq<Piece>)
    ensures Flatten(a + b) == Flatten(a) + Flatten(b)
  {
    if a == [] {
      assert a + b == b;
    } else {
      assert (a + b)[0] == a[0];
      assert (a + b)[1..] == a[1..] + b;
      FlattenAppend(a[1..], b);
    }
  }

  lemma {:induction false} OrdsAppend(a: seq<Piece>, b: seq<Piece>)
    ensures Ords(a + b) == Ords(a) + Ords(b)
  {
    if a == [] {
      assert a + b == b;
    } else {
      assert (a + b)[0] == a[0];
      assert (a + b)[1..] == a[1..] + b;
      OrdsAppend(a[1..], b);
    }
  }

  lemma WellFormedTail(ps: seq<Piece>)
    requires WellFormed(ps) && ps != []
    ensures WellFormed(ps[1..])
  {
    forall i | 0 <= i < |ps[1..]| && ps[1..][i].Plain? ensures StarFree(ps[1..][i].text) {
      assert ps[1..][i] == ps[i + 1];
    }
  }

  /** A flattened answer followed by text that does not start with `*`
      does not start with `*` either. */
  lemma {:induction false} FlattenHead(ps: seq<Piece>, x: string)
    requires WellFormed(ps)
    requires x == [] || x[0] != '*'
    ensures Flatten(ps) + x == [] || (Flatten(ps) + x)[0] != '*'
  {
    if ps != [] {
      WellFormedTail(ps);
      FlattenHead(ps[1..], x);
      assert ps[0].Plain? ==> StarFree(ps[0].text);
      PieceHead(ps[0]);
      NoStarHeadConcat(PieceText(ps[0]), Flatten(ps[1..]) + x);
      assert Flatten(ps) + x == PieceText(ps[0]) + (Flatten(ps[1..]) + x);
    }
  }

  /** Two strings that do not start with `*` concatenate to one that does
      not either. */
  lemma NoStarHeadConcat(t: string, rest: string)
    requires t == [] || t[0] != '*'
    requires rest == [] || rest[0] != '*'
    ensures t + rest == [] || (t + rest)[0] != '*'
  {
    if t == [] {
      assert t + rest == rest;
    }
  }

  /** A piece of a well-formed answer does not start with `*`. */
  lemma PieceHead(p: Piece)
    requires p.Plain? ==> StarFree(p.text)
    ensures PieceText(p) == [] || PieceText(p)[0] != '*'
  {
    if p.Cite? {
      assert PieceText(p)[0] == ' ';
    }
  }

  /** One differing character rules out an occurrence. */
  lemma Mismatch(s: string, i: nat, pat: string, k: nat)
    requires k < |pat|
    requires i + k >= |s| || s[i + k] != pat[k]
    ensures !OccursAt(s, i, pat)
  {
    if i + |pat| <= |s| {
      assert s[i..i + |pat|][k] == s[i + k];
    }
  }

  /** An occurrence past a prefix is an occurrence in the rest. */
  lemma OccursShift(a: string, b: string, i: nat, pat: string)
    ensures OccursAt(a + b, |a| + i, pat) == OccursAt(b, i, pat)
  {
    if i + |pat| <= |b| {
      assert (a + b)[|a| + i..|a| + i + |pat|] == b[i..i + |pat|];
    }
  }

  /** Inside a marker, only its first character is a space. */
  lemma MarkerChars(d: string, q: int)
    requires AllDigits(d) && 1 <= q < |MarkerText(d)|
    ensures MarkerText(d)[q] != ' '
  {
    var m := MarkerText(d);
    if 4 <= q < 4 + |d| {
      assert m[q] == d[q - 4];
    }
  }

  /** A marker for one ordinal is never read as the marker of another. */
  lemma MarkerMismatch(dn: string, dm: string, rest: string)
    requires AllDigits(dn) && AllDigits(dm) && dn != dm
    ensures !OccursAt(MarkerText(dm) + rest, 0, MarkerText(dn))
  {
    var s := MarkerText(dm) + rest;
    var p := MarkerText(dn);
    if |dn| == |dm| {
      var k :| 0 <= k < |dn| && dn[k] != dm[k];
      assert p[4 + k] == dn[k];
      assert s[4 + k] == dm[k];
      Mismatch(s, 0, p, 4 + k);
    } else if |dn| < |dm| {
      assert p[4 + |dn|] == ')';
      assert s[4 + |dn|] == dm[|dn|];
      Mismatch(s, 0, p, 4 + |dn|);
    } else {
      assert p[4 + |dm|] == dn[|dm|];
      assert s[4 + |dm|] == ')';
      Mismatch(s, 0, p, 4 + |dm|);
    }
  }

  /** No marker for n starts inside a plain piece or a marker for another
      ordinal. */
  lemma LocalNoOccurrence(p: Piece, rest: string, n: nat, q: nat)
    requires p.Plain? ==> StarFree(p.text)
    requires p != Cite(n)
    requires rest == [] || rest[0] != '*'
    requires q < |PieceText(p)|
    ensures !OccursAt(PieceText(p) + rest, q, MarkerText(NatToString(n)))
  {
    var s := PieceText(p) + rest;
    var pat := MarkerText(NatToString(n));
    assert pat[0] == ' ' && pat[1] == '*';
    match p
    case Plain(t) =>
      if q + 1 < |t| {
        assert s[q + 1] == t[q + 1];
        Mismatch(s, q, pat, 1);
      } else if rest == [] {
        Mismatch(s, q, pat, 1);
      } else {
        assert s[q + 1] == rest[0];
        Mismatch(s, q, pat, 1);
      }
    case Cite(m) =>
      var dm := NatToString(m);
      if q == 0 {
        NatToStringInjective(n, m);
        MarkerMismatch(NatToString(n), dm, rest);
      } else {
        MarkerChars(dm, q);
        assert s[q] == MarkerText(dm)[q];
        Mismatch(s, q, pat, 0);
      }
  }

  /** Before the first marker for n, the marker text of n occurs nowhere. */
  lemma {:induction false} NoEarlyOccurrence(a: seq<Piece>, x: string, n: nat, q: nat)
    requires WellFormed(a)
    requires forall i :: 0 <= i < |a| ==> a[i] != Cite(n)
    requires x == [] || x[0] != '*'
    requires q < |Flatten(a)|
    ensures !OccursAt(Flatten(a) + x, q, MarkerText(NatToString(n)))
  {
    var pat := MarkerText(NatToString(n));
    var head := PieceText(a[0]);
    var rest := Flatten(a[1..]) + x;
    assert Flatten(a) + x == head + rest;
    WellFormedTail(a);
    if q < |head| {
      FlattenHead(a[1..], x);
      LocalNoOccurrence(a[0], rest, n, q);
    } else {
      assert forall i :: 0 <= i < |a[1..]| ==> a[1..][i] == a[i + 1];
      NoEarlyOccurrence(a[1..], x, n, q - |head|);
      OccursShift(head, rest, q - |head|, pat);
    }
  }

  /** The first occurrence of the marker text of n is the first marker for n. */
  lemma FirstMarkerOccurrence(a: seq<Piece>, n: nat, y: string)
    requires WellFormed(a)
    requires forall i :: 0 <= i < |a| ==> a[i] != Cite(n)
    ensures FindFrom(Flatten(a) + (MarkerText(NatToString(n)) + y), MarkerText(NatToString(n)), 0)
            == Some(|Flatten(a)|)
  {
    var pat := MarkerText(NatToString(n));
    var x := pat + y;
    var s := Flatten(a) + x;
    assert s[|Flatten(a)|..|Flatten(a)| + |pat|] == pat;
    forall j: nat | j < |Flatten(a)| ensures !OccursAt(s, j, pat) {
      NoEarlyOccurrence(a, x, n, j);
    }
    FindFirst(s, pat, |Flatten(a)|);
  }

  lemma ReplaceFirstAt(x: string, pat: string, y: string, r: string)
    requires FindFrom(x + (pat + y), pat, 0) == Some(|x|)
    ensures ReplaceFirst(x + (pat + y), pat, r) == x + (r + y)
  {
    var s := x + (pat + y);
    ReplaceFirstFound(s, pat, r, |x|);
    assert s[..|x|] == x;
    assert s[|x| + |pat|..] == y;
    assert x + r + y == x + (r + y);
  }

  /** Where `str.find` lands, `replace(…, 1)` rewrites. */
  lemma ReplaceFirstFound(s: string, pat: string, r: string, i: nat)
    requires FindFrom(s, pat, 0) == Some(i)
    ensures ReplaceFirst(s, pat, r) == s[..i] + r + s[i + |pat|..]
  {
  }

  /** The replacement loop on a well-formed answer: every marker picked by
      `sel` is replaced by its text, in place, and nothing else changes. */
  lemma ReplaceEachPieces(ps: seq<Piece>, sel: nat -> bool, rep: nat -> string)
    requires WellFormed(ps)
    requires forall n :: sel(n) ==> StarFree(rep(n))
    ensures ReplaceEach(Flatten(ps), OrdSubs(Ords(ps), sel, rep)) == Flatten(Rewrite(ps, sel, rep))
  {
    ReplaceEachPiecesTail(ps, sel, rep, "");
    assert Flatten(ps) + "" == Flatten(ps);
    assert Flatten(Rewrite(ps, sel, rep)) + "" == Flatten(Rewrite(ps, sel, rep));
  }

  lemma {:induction false} ReplaceEachPiecesTail(ps: seq<Piece>, sel: nat -> bool, rep: nat -> string, tail: string)
    requires WellFormed(ps)
    requires forall n :: sel(n) ==> StarFree(rep(n))
    requires tail == [] || tail[0] != '*'
    ensures ReplaceEach(Flatten(ps) + tail, OrdSubs(Ords(ps), sel, rep)) == Flatten(Rewrite(ps, sel, rep)) + tail
    decreases |ps|
  {
    if ps == [] {
      assert Rewrite(ps, sel, rep) == [];
    } else {
      var init := ps[..|ps| - 1];
      var p := ps[|ps| - 1];
      var t2 := PieceText(p) + tail;
      var subs := OrdSubs(Ords(init), sel, rep);
      var ri := Flatten(Rewrite(init, sel, rep));
      assert ps == init + [p];
      PieceSplit(init, p, tail);
      assert Flatten(ps) + tail == Flatten(init) + t2;
      WellFormedInit(ps);
      NoStarStart(p, tail);
      ReplaceEachPiecesTail(init, sel, rep, t2);
      assert ReplaceEach(Flatten(init) + t2, subs) == ri + t2;
      RewriteSplit(ps, sel, rep, tail);
      assert Flatten(Rewrite(ps, sel, rep)) + tail == ri + (PieceText(RewritePiece(p, sel, rep)) + tail);
      OrdSubsLast(init, p, sel, rep);
      if p.Cite? && sel(p.n) {
        var x := (NatToString(p.n), rep(p.n));
        assert OrdSubs(Ords(ps), sel, rep) == subs + [x];
        ReplaceEachSnoc(Flatten(init) + t2, subs, x);
        ReplaceSelected(init, p.n, sel, rep, tail);
      } else {
        assert OrdSubs(Ords(ps), sel, rep) == subs;
        assert RewritePiece(p, sel, rep) == p;
      }
    }
  }

  lemma WellFormedInit(ps: seq<Piece>)
    requires WellFormed(ps) && ps != []
    ensures WellFormed(ps[..|ps| - 1])
  {
    var init := ps[..|ps| - 1];
    forall i | 0 <= i < |init| && init[i].Plain? ensures StarFree(init[i].text) {
      assert init[i] == ps[i];
    }
  }

  /** The text of a plain piece or a marker followed by a tail that does not
      start with a star does not start with a star either. */
  lemma NoStarStart(p: Piece, tail: string)
    requires p.Plain? ==> StarFree(p.text)
    requires tail == [] || tail[0] != '*'
    ensures PieceText(p) + tail == [] || (PieceText(p) + tail)[0] != '*'
  {
    if PieceText(p) != [] && p.Cite? {
      assert PieceText(p)[0] == ' ';
    }
  }

  lemma OrdSubsLast(init: seq<Piece>, p: Piece, sel: nat -> bool, rep: nat -> string)
    ensures OrdSubs(Ords(init + [p]), sel, rep)
            == OrdSubs(Ords(init), sel, rep) + (if p.Cite? then OrdSub(p.n, sel, rep) else [])
  {
    OrdsLast(init, p);
    var ns := Ords(init + [p]);
    if p.Cite? {
      assert ns == Ords(init) + [p.n];
      assert ns[..|ns| - 1] == Ords(init);
      assert ns[|ns| - 1] == p.n;
    } else {
      assert ns == Ords(init);
    }
  }

  /** Replacing the first marker for a picked ordinal behind a rewritten
      prefix replaces exactly that marker. */
  lemma ReplaceSelected(init: seq<Piece>, n: nat, sel: nat -> bool, rep: nat -> string, tail: string)
    requires WellFormed(init)
    requires forall m :: sel(m) ==> StarFree(rep(m))
    requires sel(n)
    ensures ReplaceFirst(Flatten(Rewrite(init, sel, rep)) + (MarkerText(NatToString(n)) + tail), MarkerText(NatToString(n)), rep(n))
            == Flatten(Rewrite(init, sel, rep)) + (rep(n) + tail)
  {
    var ri := Rewrite(init, sel, rep);
    forall i | 0 <= i < |ri| && ri[i].Plain? ensures StarFree(ri[i].text) {
      assert ri[i] == RewritePiece(init[i], sel, rep);
    }
    forall i | 0 <= i < |ri| ensures ri[i] != Cite(n) {
      assert ri[i] == RewritePiece(init[i], sel, rep);
    }
    FirstMarkerOccurrence(ri, n, tail);
    ReplaceFirstAt(Flatten(ri), MarkerText(NatToString(n)), tail, rep(n));
  }

  /** The text and ordinals of an answer, split at its last piece. */
  lemma PieceSplit(init: seq<Piece>, p: Piece, tail: string)
    ensures Flatten(init + [p]) + tail == Flatten(init) + (PieceText(p) + tail)
    ensures Ords(init + [p]) == Ords(init) + (if p.Cite? then [p.n] else [])
  {
    FlattenLast(init, p);
    OrdsLast(init, p);
  }

  lemma OrdsLast(init: seq<Piece>, p: Piece)
    ensures Ords(init + [p]) == Ords(init) + (if p.Cite? then [p.n] else [])
  {
    OrdsAppend(init, [p]);
    assert Ords([p]) == (if p.Cite? then [p.n] else []) + Ords([]);
  }

  lemma FlattenLast(init: seq<Piece>, p: Piece)
    ensures Flatten(init + [p]) == Flatten(init) + PieceText(p)
  {
    FlattenAppend(init, [p]);
    FlattenCons(p, []);
    assert [p] + [] == [p];
  }

  lemma RewriteSplit(ps: seq<Piece>, sel: nat -> bool, rep: nat -> string, tail: string)
    requires ps != []
    ensures Flatten(Rewrite(ps, sel, rep)) + tail
            == Flatten(Rewrite(ps[..|ps| - 1], sel, rep)) + (PieceText(RewritePiece(ps[|ps| - 1], sel, rep)) + tail)
  {
    var rw := Rewrite(ps, sel, rep);
    assert rw == Rewrite(ps[..|ps| - 1], sel, rep) + [RewritePiece(ps[|ps| - 1], sel, rep)];
    PieceSplit(Rewrite(ps[..|ps| - 1], sel, rep), RewritePiece(ps[|ps| - 1], sel, rep), tail);
  }

  /** The scan over one spaced marker. */
  lemma ScanMarker(d: string, rest: string)
    requires |d| >= 1 && AllDigits(d)
    ensures Scan(MarkerText(d) + rest, 0) == [d] + Scan(rest, 0)
  {
    var s := MarkerText(d) + rest;
    assert s[0] == ' ';
    assert MatchAt(s, 0).None?;
    assert OpenAt(s, 1);
    assert DigitRunEnd(s, 4) == 4 + |d| by {
      forall k | 4 <= k < 4 + |d| ensures IsDigit(s[k]) {
        assert s[k] == d[k - 4];
      }
      assert s[4 + |d|] == ')';
    }
    assert CloseAt(s, 4 + |d|);
    assert MatchAt(s, 1) == Some(4 + |d|);
    assert s[4..4 + |d|] == d;
    ScanShift(MarkerText(d), rest, 0);
  }

  /** The scan over a plain piece without `*`. */
  lemma ScanPlain(t: string, rest: string)
    requires StarFree(t)
    ensures Scan(t + rest, 0) == Scan(rest, 0)
  {
    ScanSkip(t + rest, 0, |t|);
    ScanShift(t, rest, 0);
  }

  /** On a well-formed answer the scan finds exactly the cited ordinals, in
      text order, as their canonical digit strings. */
  lemma {:induction false} ScanPieces(ps: seq<Piece>)
    requires WellFormed(ps)
    ensures Scan(Flatten(ps), 0) == DigitStrings(Ords(ps))
  {
    if ps != [] {
      var rest := Flatten(ps[1..]);
      WellFormedTail(ps);
      ScanPieces(ps[1..]);
      match ps[0]
      case Plain(t) =>
        ScanPlain(t, rest);
      case Cite(m) =>
        ScanMarker(NatToString(m), rest);
        assert DigitStrings(Ords(ps)) == [NatToString(m)] + DigitStrings(Ords(ps[1..]));
    }
  }

  lemma {:induction false} DigitRunShift(a: string, b: string, i: nat)
    requires i <= |b|
    ensures DigitRunEnd(a + b, |a| + i) == |a| + DigitRunEnd(b, i)
    decreases |b| - i
  {
    if i < |b| {
      assert (a + b)[|a| + i] == b[i];
      if IsDigit(b[i]) {
        DigitRunShift(a, b, i + 1);
      }
    }
  }

  lemma MatchShift(a: string, b: string, i: nat)
    requires i <= |b|
    ensures MatchAt(a + b, |a| + i) == (if MatchAt(b, i).Some? then Some(|a| + MatchAt(b, i).value) else None)
  {
    var s := a + b;
    if i + 3 <= |b| {
      assert OpenAt(s, |a| + i) == OpenAt(b, i);
      DigitRunShift(a, b, i + 3);
      var j := DigitRunEnd(b, i + 3);
      assert CloseAt(s, |a| + j) == CloseAt(b, j);
    }
  }

  /** The scan past a prefix does not depend on the prefix. */
  lemma {:induction false} ScanShift(a: string, b: string, i: nat)
    ensures Scan(a + b, |a| + i) == Scan(b, i)
    decreases |b| - i
  {
    var s := a + b;
    if i < |b| {
      MatchShift(a, b, i);
      match MatchAt(b, i)
      case Some(j) =>
        assert s[|a| + i + 3..|a| + j] == b[i + 3..j];
        ScanShift(a, b, j + 3);
      case None =>
        ScanShift(a, b, i + 1);
    }
  }

  /** The scan skips text without `*`. */
  lemma {:induction false} ScanSkip(s: string, i: nat, k: nat)
    requires i <= k <= |s|
    requires forall m :: i <= m < k ==> s[m] != '*'
    ensures Scan(s, i) == Scan(s, k)
    decreases k - i
  {
    if i < k {
      assert MatchAt(s, i).None?;
      ScanSkip(s, i + 1, k);
    }
  }
}
