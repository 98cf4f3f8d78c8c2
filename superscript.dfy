/** The superscript digits citation rendering writes in place of a
    `**(n)**` marker, and their reading back (`int_to_superscript`,
    `superscript_to_int`; the same pair is defined in all three citation
    files). */
module Superscript {
  import opened Common

  const Superscripts: string := "⁰¹²³⁴⁵⁶⁷⁸⁹"

  predicate IsSuperscript(c: char) {
    exists d :: 0 <= d < 10 && Superscripts[d] == c
  }

  /** The superscript glyph of each decimal digit. */
  function DigitsToSuperscript(ds: string): (r: string)
    requires AllDigits(ds)
    ensures |r| == |ds|
    ensures forall i :: 0 <= i < |ds| ==> r[i] == Superscripts[DigitValue(ds[i])]
  {
    if ds == [] then [] else [Superscripts[DigitValue(ds[0])]] + DigitsToSuperscript(ds[1..])
  }

  /** `int_to_superscript(n)`: one superscript glyph per decimal digit of n. */
  function IntToSuperscript(n: nat): string {
    DigitsToSuperscript(NatToString(n))
  }

  /** The position of a glyph in the superscript alphabet (`list.index`). */
  function SuperscriptIndex(c: char): (r: Option<nat>)
    ensures r.Some? ==> r.value < 10 && Superscripts[r.value] == c
    ensures r.None? ==> !IsSuperscript(c)
  {
    if c == Superscripts[0] then Some(0)
    else if c == Superscripts[1] then Some(1)
    else if c == Superscripts[2] then Some(2)
    else if c == Superscripts[3] then Some(3)
    else if c == Superscripts[4] then Some(4)
    else if c == Superscripts[5] then Some(5)
    else if c == Superscripts[6] then Some(6)
    else if c == Superscripts[7] then Some(7)
    else if c == Superscripts[8] then Some(8)
    else if c == Superscripts[9] then Some(9)
    else None
  }

  /** `superscript_to_int(s)`: the decimal digit STRING the glyphs stand
      for (not an integer); None where Python's `list.index` raises
      ValueError on a character that is not a superscript digit. */
  function SuperscriptToInt(s: string): (r: Option<string>)
    ensures r.Some? <==> forall i :: 0 <= i < |s| ==> IsSuperscript(s[i])
    ensures r.Some? ==> |r.value| == |s| && AllDigits(r.value)
  {
    if s == [] then Some("")
    else match (SuperscriptIndex(s[0]), SuperscriptToInt(s[1..]))
      case (Some(d), Some(rest)) => Some([DigitChar(d)] + rest)
      case (_, _) => None
  }

  /** Reading the glyphs back gives the decimal digits of n. */
  lemma {:induction false} DigitsRoundTrip(ds: string)
    requires AllDigits(ds)
    ensures SuperscriptToInt(DigitsToSuperscript(ds)) == Some(ds)
  {
    if ds != [] {
      var sup := DigitsToSuperscript(ds);
      assert sup[1..] == DigitsToSuperscript(ds[1..]);
      DigitsRoundTrip(ds[1..]);
      assert SuperscriptIndex(sup[0]) == Some(DigitValue(ds[0]));
      assert SuperscriptToInt(sup) == Some([DigitChar(DigitValue(ds[0]))] + ds[1..]);
      assert [ds[0]] + ds[1..] == ds;
    }
  }

  /** `superscript_to_int(int_to_superscript(n)) == str(n)`. */
  lemma SuperscriptRoundTrip(n: nat)
    ensures SuperscriptToInt(IntToSuperscript(n)) == Some(NatToString(n))
  {
    DigitsRoundTrip(NatToString(n));
  }

  /** Different ordinals get different superscripts, so a map keyed by
      superscript never merges two ordinals. */
  lemma IntToSuperscriptInjective(a: nat, b: nat)
    ensures IntToSuperscript(a) == IntToSuperscript(b) ==> a == b
  {
    SuperscriptRoundTrip(a);
    SuperscriptRoundTrip(b);
    NatToStringInjective(a, b);
  }

  /** Superscripts never contain the characters a citation marker is made
      of, so a rendered reference cannot be mistaken for a marker. */
  lemma SuperscriptHasNoMarkerChars(n: nat)
    ensures |IntToSuperscript(n)| >= 1
    ensures forall i :: 0 <= i < |IntToSuperscript(n)| ==>
              IsSuperscript(IntToSuperscript(n)[i]) && IntToSuperscript(n)[i] != '*' && IntToSuperscript(n)[i] != ' '
  {
  }
}
