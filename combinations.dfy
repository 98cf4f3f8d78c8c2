/** `sample_combinations`: every non-empty combination of the keywords, in
    the order `itertools.combinations` produces them size by size, joined
    with spaces; then a random sample of them. The sample is the sequence
    of distinct positions `random.Random(seed).sample` picks, taken as a
    parameter. */
module Combinations {
  import opened Common

  // ---------------------------------------------------------------------
  // Index combinations
  // ---------------------------------------------------------------------

  /** Puts x in front of every tuple. */
  function Prepend(x: nat, s: seq<seq<nat>>): (r: seq<seq<nat>>)
    ensures |r| == |s| && forall i :: 0 <= i < |s| ==> r[i] == [x] + s[i]
  {
    seq(|s|, i requires 0 <= i < |s| => [x] + s[i])
  }

  /** `itertools.combinations(range(lo, n), r)`: the increasing r-tuples
      drawn from lo..n-1, in lexicographic order. */
  function Comb(lo: nat, n: nat, r: nat): seq<seq<nat>>
    decreases n - lo, r
  {
    if r == 0 then [[]]
    else if lo >= n then []
    else Prepend(lo, Comb(lo + 1, n, r - 1)) + Comb(lo + 1, n, r)
  }

  /** A tuple of r increasing positions from lo..n-1. */
  predicate IsComb(t: seq<nat>, lo: nat, n: nat, r: nat) {
    && |t| == r
    && (forall i :: 0 <= i < |t| ==> lo <= t[i] < n)
    && (forall i, j :: 0 <= i < j < |t| ==> t[i] < t[j])
  }

  /** Every tuple produced is an increasing r-tuple from lo..n-1. */
  lemma {:induction false} CombSound(lo: nat, n: nat, r: nat)
    ensures forall t :: t in Comb(lo, n, r) ==> IsComb(t, lo, n, r)
    decreases n - lo, r
  {
    if r > 0 && lo < n {
      CombSound(lo + 1, n, r - 1);
      CombSound(lo + 1, n, r);
      var p := Prepend(lo, Comb(lo + 1, n, r - 1));
      forall t | t in p
        ensures IsComb(t, lo, n, r)
      {
        var i :| 0 <= i < |p| && p[i] == t;
        assert Comb(lo + 1, n, r - 1)[i] in Comb(lo + 1, n, r - 1);
      }
    }
  }

  /** Every increasing r-tuple from lo..n-1 is produced. */
  lemma {:induction false} CombComplete(lo: nat, n: nat, r: nat, t: seq<nat>)
    requires IsComb(t, lo, n, r)
    ensures t in Comb(lo, n, r)
    decreases n - lo, r
  {
    if r > 0 {
      assert lo < n by { assert lo <= t[0] < n; }
      var q := Comb(lo + 1, n, r - 1);
      assert Comb(lo, n, r) == Prepend(lo, q) + Comb(lo + 1, n, r);
      if t[0] == lo {
        var rest := t[1..];
        CombTail(t, lo, n, r);
        CombComplete(lo + 1, n, r - 1, rest);
        var i :| 0 <= i < |q| && q[i] == rest;
        assert Prepend(lo, q)[i] == t;
      } else {
        CombRaise(t, lo, n, r);
        CombComplete(lo + 1, n, r, t);
      }
    }
  }

  /** A tuple starting at lo continues with a tuple from lo+1 on. */
  lemma CombTail(t: seq<nat>, lo: nat, n: nat, r: nat)
    requires IsComb(t, lo, n, r) && r > 0 && t[0] == lo
    ensures IsComb(t[1..], lo + 1, n, r - 1)
  {
    var rest := t[1..];
    forall i | 0 <= i < |rest|
      ensures lo + 1 <= rest[i] < n
    {
      assert rest[i] == t[i + 1] && t[0] < t[i + 1];
    }
    forall i, j | 0 <= i < j < |rest|
      ensures rest[i] < rest[j]
    {
      assert rest[i] == t[i + 1] && rest[j] == t[j + 1];
    }
  }

  /** A tuple not starting at lo draws from lo+1 on. */
  lemma CombRaise(t: seq<nat>, lo: nat, n: nat, r: nat)
    requires IsComb(t, lo, n, r) && r > 0 && t[0] != lo
    ensures IsComb(t, lo + 1, n, r)
  {
    forall i | 0 <= i < |t|
      ensures lo + 1 <= t[i]
    {
      if i > 0 {
        assert t[0] < t[i];
      }
    }
  }

  /** No tuple is produced twice. */
  lemma {:induction false} CombDistinct(lo: nat, n: nat, r: nat)
    ensures Distinct(Comb(lo, n, r))
    decreases n - lo, r
  {
    if r > 0 && lo < n {
      CombDistinct(lo + 1, n, r - 1);
      CombDistinct(lo + 1, n, r);
      CombSound(lo + 1, n, r);
      var q := Comb(lo + 1, n, r - 1);
      var p := Prepend(lo, q);
      var s := Comb(lo + 1, n, r);
      forall i, j | 0 <= i < |p| && 0 <= j < |s|
        ensures p[i] != s[j]
      {
        assert s[j] in s;
        assert p[i][0] == lo;
      }
      forall i, j | 0 <= i < j < |p|
        ensures p[i] != p[j]
      {
        assert p[i][1..] == q[i] && p[j][1..] == q[j];
      }
      var c := p + s;
      forall i, j | 0 <= i < j < |c|
        ensures c[i] != c[j]
      {
        if j < |p| {
          assert c[i] == p[i] && c[j] == p[j];
        } else if i < |p| {
          assert c[i] == p[i] && c[j] == s[j - |p|];
        } else {
          assert c[i] == s[i - |p|] && c[j] == s[j - |p|];
        }
      }
    }
  }

  // ---------------------------------------------------------------------
  // Counting
  // ---------------------------------------------------------------------

  /** The binomial coefficient, by Pascal's rule. */
  function Binom(m: nat, r: nat): nat {
    if r == 0 then 1
    else if m == 0 then 0
    else Binom(m - 1, r - 1) + Binom(m - 1, r)
  }

  function Pow2(m: nat): (p: nat)
    ensures p >= 1
  {
    if m == 0 then 1 else 2 * Pow2(m - 1)
  }

  /** There are C(n - lo, r) tuples. */
  lemma {:induction false} CombCount(lo: nat, n: nat, r: nat)
    requires lo <= n
    ensures |Comb(lo, n, r)| == Binom(n - lo, r)
    decreases n - lo, r
  {
    if r > 0 && lo < n {
      CombCount(lo + 1, n, r - 1);
      CombCount(lo + 1, n, r);
    }
  }

  /** C(m, r) + … + C(m, 0). */
  function BinomSum(m: nat, r: nat): nat {
    if r == 0 then 1 else BinomSum(m, r - 1) + Binom(m, r)
  }

  lemma {:induction false} BinomAbove(m: nat, r: nat)
    requires r > m
    ensures Binom(m, r) == 0
  {
    if m > 0 {
      BinomAbove(m - 1, r - 1);
      BinomAbove(m - 1, r);
    }
  }

  /** Pascal's rule summed: the row sums double. */
  lemma {:induction false} BinomSumStep(m: nat, r: nat)
    requires m > 0
    ensures BinomSum(m, r) == BinomSum(m - 1, r) + (if r == 0 then 0 else BinomSum(m - 1, r - 1))
  {
    if r > 0 {
      BinomSumStep(m, r - 1);
    }
  }

  lemma {:induction false} BinomRow(m: nat)
    ensures BinomSum(m, m) == Pow2(m)
  {
    if m > 0 {
      BinomRow(m - 1);
      BinomSumStep(m, m);
      BinomAbove(m - 1, m);
    }
  }

  // ---------------------------------------------------------------------
  // Keyword combinations
  // ---------------------------------------------------------------------

  /** The index combinations of sizes 1..r over n positions, size by size:
      what `all_combos` holds after r rounds of the outer loop. */
  function IndexCombos(n: nat, r: nat): seq<seq<nat>> {
    if r == 0 then [] else IndexCombos(n, r - 1) + Comb(0, n, r)
  }

  /** There are C(n,1) + … + C(n,r) of them. */
  lemma {:induction false} IndexCombosCount(n: nat, r: nat)
    ensures |IndexCombos(n, r)| == BinomSum(n, r) - 1
  {
    if r > 0 {
      IndexCombosCount(n, r - 1);
      CombCount(0, n, r);
    }
  }

  /** `" ".join(keywords[i] for i in t)`; the positions of every tuple
      produced are in range (`CombSound`), so the fallback "" is never
      used. */
  function ComboString(keywords: seq<string>, t: seq<nat>): string {
    Join(" ", seq(|t|, i requires 0 <= i < |t| => if t[i] < |keywords| then keywords[t[i]] else ""))
  }

  function ComboStrings(keywords: seq<string>, ts: seq<seq<nat>>): (r: seq<string>)
    ensures |r| == |ts| && forall k :: 0 <= k < |ts| ==> r[k] == ComboString(keywords, ts[k])
  {
    seq(|ts|, k requires 0 <= k < |ts| => ComboString(keywords, ts[k]))
  }

  lemma ComboStringsAppend(keywords: seq<string>, a: seq<seq<nat>>, b: seq<seq<nat>>)
    ensures ComboStrings(keywords, a + b) == ComboStrings(keywords, a) + ComboStrings(keywords, b)
  {
    var l := ComboStrings(keywords, a + b);
    var r := ComboStrings(keywords, a) + ComboStrings(keywords, b);
    forall k | 0 <= k < |l|
      ensures l[k] == r[k]
    {
      if k < |a| {
        assert (a + b)[k] == a[k];
      } else {
        assert (a + b)[k] == b[k - |a|];
      }
    }
  }

  /** `all_combos` for the whole keyword list: 2^n - 1 combinations, the
      k-th being the space-joined keywords at the k-th index tuple. */
  function AllCombos(keywords: seq<string>): (r: seq<string>)
    ensures |r| == Pow2(|keywords|) - 1
  {
    var n := |keywords|;
    IndexCombosCount(n, n);
    BinomRow(n);
    ComboStrings(keywords, IndexCombos(n, n))
  }

  /** The outer loop of `sample_combinations`, extending `all_combos` one
      size at a time. */
  method BuildCombos(keywords: seq<string>) returns (allCombos: seq<string>)
    ensures allCombos == AllCombos(keywords)
  {
    var n := |keywords|;
    allCombos := [];
    var size := 1;
    while size <= n
      invariant 1 <= size <= n + 1
      invariant allCombos == ComboStrings(keywords, IndexCombos(n, size - 1))
    {
      ComboStringsAppend(keywords, IndexCombos(n, size - 1), Comb(0, n, size));
      assert IndexCombos(n, size) == IndexCombos(n, size - 1) + Comb(0, n, size);
      allCombos := allCombos + ComboStrings(keywords, Comb(0, n, size));
      size := size + 1;
    }
  }

  /** The tuples behind the combinations are exactly the non-empty
      increasing tuples of positions, each once, smaller sizes first. */
  lemma {:induction false} IndexCombosSpec(n: nat, r: nat)
    ensures forall t :: t in IndexCombos(n, r) <==> 1 <= |t| <= r && IsComb(t, 0, n, |t|)
    ensures Distinct(IndexCombos(n, r))
    ensures forall i, j :: 0 <= i < j < |IndexCombos(n, r)| ==> |IndexCombos(n, r)[i]| <= |IndexCombos(n, r)[j]|
  {
    if r > 0 {
      IndexCombosSpec(n, r - 1);
      CombSound(0, n, r);
      CombDistinct(0, n, r);
      forall t | 1 <= |t| <= r && IsComb(t, 0, n, |t|)
        ensures t in IndexCombos(n, r)
      {
        if |t| == r {
          CombComplete(0, n, r, t);
        }
      }
      var a := IndexCombos(n, r - 1);
      var b := Comb(0, n, r);
      var c := a + b;
      forall i, j | 0 <= i < j < |c|
        ensures c[i] != c[j] && |c[i]| <= |c[j]|
      {
        if j < |a| {
          assert c[i] == a[i] && c[j] == a[j];
        } else if i < |a| {
          assert c[i] == a[i] && a[i] in a;
          assert c[j] == b[j - |a|] && b[j - |a|] in b;
        } else {
          assert c[i] == b[i - |a|] && c[j] == b[j - |a|];
          assert b[i - |a|] in b && b[j - |a|] in b;
        }
      }
    }
  }

  // ---------------------------------------------------------------------
  // Sampling
  // ---------------------------------------------------------------------

  function Min(a: int, b: int): int {
    if a < b then a else b
  }

  /** What `random.sample(population, k)` may pick: k distinct positions. */
  predicate ValidSample(chosen: seq<nat>, population: nat, k: int) {
    && |chosen| == k
    && (forall i :: 0 <= i < |chosen| ==> chosen[i] < population)
    && Distinct(chosen)
  }

  /** `list(sample_combinations(keywords, max_samples, seed))`, where
      `chosen` are the positions the seeded sample draws. A negative
      `max_samples` makes `random.sample` raise ValueError. */
  method SampleCombinations(keywords: seq<string>, maxSamples: int, chosen: seq<nat>)
    returns (r: Result<seq<string>>)
    requires keywords != [] && maxSamples >= 0 ==>
               ValidSample(chosen, Pow2(|keywords|) - 1, Min(Pow2(|keywords|) - 1, maxSamples))
    ensures keywords == [] ==> r == Ok([])
    ensures keywords != [] && maxSamples < 0 ==> r == Err("ValueError")
    ensures keywords != [] && maxSamples >= 0 ==>
              && r.Ok?
              && |r.value| == Min(Pow2(|keywords|) - 1, maxSamples)
              && forall k :: 0 <= k < |r.value| ==> r.value[k] == AllCombos(keywords)[chosen[k]]
  {
    if keywords == [] {
      return Ok([]);
    }
    var allCombos := BuildCombos(keywords);
    var total := |allCombos|;
    if total == 0 {
      assert false;
    }
    var nToYield := Min(total, maxSamples);
    if nToYield < 0 {
      return Err("ValueError");
    }
    var sample: seq<string> := [];
    var k := 0;
    while k < |chosen|
      invariant 0 <= k <= |chosen|
      invariant |sample| == k && forall j :: 0 <= j < k ==> sample[j] == allCombos[chosen[j]]
    {
      sample := sample + [allCombos[chosen[k]]];
      k := k + 1;
    }
    r := Ok(sample);
  }
}
