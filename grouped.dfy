/** The renumbering citation policy (`prettify_sources` of the current
    workflow node and of the agent graph): the cited snippets are grouped by
    the source document they come from, documents are numbered 1, 2, ... in
    the order of their first citation, and every marker becomes the
    superscript of its document's number. */
module GroupedCitations {
  import opened Common
  import opened Superscript
  import opened Markers
  import opened Citations

  // ---------------------------------------------------------------------
  // Source names and first-seen order
  // ---------------------------------------------------------------------

  /** `sourcing[idx]["source"]` does not raise KeyError. */
  predicate Named(sourcing: Sourcing, n: nat) {
    n in sourcing && "source" in sourcing[n]
  }

  predicate AllNamed(ns: seq<nat>, sourcing: Sourcing) {
    forall n :: n in ns ==> Named(sourcing, n)
  }

  /** The source document of snippet n. */
  function Name(sourcing: Sourcing, n: nat): Value
    requires Named(sourcing, n)
  {
    sourcing[n]["source"]
  }

  /** The source names of the ordinals, in order. */
  function Names(ns: seq<nat>, sourcing: Sourcing): (r: seq<Value>)
    requires AllNamed(ns, sourcing)
    ensures |r| == |ns| && forall k :: 0 <= k < |ns| ==> r[k] == Name(sourcing, ns[k])
  {
    seq(|ns|, k requires 0 <= k < |ns| => Name(sourcing, ns[k]))
  }

  /** The distinct values of vs in order of first appearance. */
  function FirstSeen(vs: seq<Value>): (r: seq<Value>)
    ensures Distinct(r)
    ensures forall v :: v in r <==> v in vs
    ensures |r| <= |vs|
  {
    if vs == [] then []
    else
      assert vs == vs[..|vs| - 1] + [vs[|vs| - 1]];
      AddNew(FirstSeen(vs[..|vs| - 1]), vs[|vs| - 1])
  }

  /** f with v appended unless it is already there. */
  function AddNew(f: seq<Value>, v: Value): (r: seq<Value>)
    requires Distinct(f)
    ensures Distinct(r)
    ensures forall u :: u in r <==> u in f || u == v
  {
    if v in f then f else f + [v]
  }

  /** The first position of v in s. */
  function IndexOf(s: seq<Value>, v: Value): (r: nat)
    requires v in s
    ensures r < |s| && s[r] == v
    ensures forall j :: 0 <= j < r ==> s[j] != v
  {
    if s[0] == v then 0 else 1 + IndexOf(s[1..], v)
  }

  /** The ordinals of ns whose snippet comes from source v, in order. */
  function WithName(ns: seq<nat>, sourcing: Sourcing, v: Value): (r: seq<nat>)
    requires AllNamed(ns, sourcing)
    ensures forall m :: m in r <==> m in ns && Name(sourcing, m) == v
  {
    if ns == [] then []
    else
      assert ns == ns[..|ns| - 1] + [ns[|ns| - 1]];
      WithName(ns[..|ns| - 1], sourcing, v) + (if Name(sourcing, ns[|ns| - 1]) == v then [ns[|ns| - 1]] else [])
  }

  // ---------------------------------------------------------------------
  // The grouping loop: `filename_to_indices`
  // ---------------------------------------------------------------------

  /** `filename_to_indices` after the grouping loop over ns. */
  function GroupsOf(ns: seq<nat>, sourcing: Sourcing): Dict<Value, seq<nat>>
    requires AllNamed(ns, sourcing)
  {
    if ns == [] then []
    else
      assert ns == ns[..|ns| - 1] + [ns[|ns| - 1]];
      AddTo(GroupsOf(ns[..|ns| - 1], sourcing), Name(sourcing, ns[|ns| - 1]), ns[|ns| - 1])
  }

  /** `filename_to_indices.setdefault(v, []).append(x)`. */
  function AddTo(g: Dict<Value, seq<nat>>, v: Value, x: nat): Dict<Value, seq<nat>> {
    Put(g, v, Current(g, v) + [x])
  }

  /** The group of v so far, or a new empty one. */
  function Current(g: Dict<Value, seq<nat>>, v: Value): seq<nat> {
    match Lookup(g, v) case Some(ix) => ix case None => []
  }

  lemma GroupsOfSnoc(init: seq<nat>, x: nat, sourcing: Sourcing)
    requires AllNamed(init + [x], sourcing)
    ensures AllNamed(init, sourcing)
    ensures GroupsOf(init + [x], sourcing) == AddTo(GroupsOf(init, sourcing), Name(sourcing, x), x)
  {
    assert (init + [x])[..|init|] == init;
  }

  /** The groups are the cited sources in first-citation order, each with
      the ordinals citing it, in order. */
  lemma {:induction false} GroupsOfShape(ns: seq<nat>, sourcing: Sourcing)
    requires AllNamed(ns, sourcing)
    ensures Keys(GroupsOf(ns, sourcing)) == FirstSeen(Names(ns, sourcing))
    ensures Distinct(Keys(GroupsOf(ns, sourcing)))
    ensures forall i :: 0 <= i < |GroupsOf(ns, sourcing)| ==>
              GroupsOf(ns, sourcing)[i].1 == WithName(ns, sourcing, GroupsOf(ns, sourcing)[i].0)
  {
    if ns != [] {
      var init := ns[..|ns| - 1];
      var x := ns[|ns| - 1];
      assert ns == init + [x];
      GroupsOfSnoc(init, x, sourcing);
      GroupsOfShape(init, sourcing);
      if Name(sourcing, x) in Keys(GroupsOf(init, sourcing)) {
        GroupsStepOld(init, x, GroupsOf(init, sourcing), sourcing);
      } else {
        GroupsStepNew(init, x, GroupsOf(init, sourcing), sourcing);
      }
    }
  }

  /** The shape of groups g built from the ordinals ns. */
  predicate Shaped(ns: seq<nat>, sourcing: Sourcing, g: Dict<Value, seq<nat>>)
    requires AllNamed(ns, sourcing)
  {
    && Keys(g) == FirstSeen(Names(ns, sourcing))
    && Distinct(Keys(g))
    && forall i :: 0 <= i < |g| ==> g[i].1 == WithName(ns, sourcing, g[i].0)
  }

  lemma NamesSnoc(init: seq<nat>, x: nat, sourcing: Sourcing)
    requires AllNamed(init + [x], sourcing)
    ensures AllNamed(init, sourcing)
    ensures Names(init + [x], sourcing) == Names(init, sourcing) + [Name(sourcing, x)]
    ensures FirstSeen(Names(init + [x], sourcing))
            == AddNew(FirstSeen(Names(init, sourcing)), Name(sourcing, x))
  {
    var vs := Names(init + [x], sourcing);
    assert vs[..|vs| - 1] == Names(init, sourcing);
  }

  lemma WithNameSnoc(init: seq<nat>, x: nat, sourcing: Sourcing, v: Value)
    requires AllNamed(init + [x], sourcing)
    ensures AllNamed(init, sourcing)
    ensures WithName(init + [x], sourcing, v)
            == WithName(init, sourcing, v) + (if Name(sourcing, x) == v then [x] else [])
  {
    assert (init + [x])[..|init|] == init;
  }

  /** No ordinal cites a source that is not among the names. */
  lemma {:induction false} WithNameNone(ns: seq<nat>, sourcing: Sourcing, v: Value)
    requires AllNamed(ns, sourcing)
    requires v !in FirstSeen(Names(ns, sourcing))
    ensures WithName(ns, sourcing, v) == []
  {
    if ns != [] {
      var init := ns[..|ns| - 1];
      var x := ns[|ns| - 1];
      assert ns == init + [x];
      NamesSnoc(init, x, sourcing);
      WithNameNone(init, sourcing, v);
      WithNameSnoc(init, x, sourcing, v);
    }
  }

  /** Citing an already grouped source appends to its group. */
  lemma GroupsStepOld(init: seq<nat>, x: nat, g0: Dict<Value, seq<nat>>, sourcing: Sourcing)
    requires AllNamed(init + [x], sourcing) && AllNamed(init, sourcing)
    requires Shaped(init, sourcing, g0)
    requires Name(sourcing, x) in Keys(g0)
    ensures Shaped(init + [x], sourcing, AddTo(g0, Name(sourcing, x), x))
  {
    var v := Name(sourcing, x);
    var g := AddTo(g0, v, x);
    NamesSnoc(init, x, sourcing);
    var j :| 0 <= j < |g0| && Keys(g0)[j] == v;
    LookupAt(g0, j);
    PutExisting(g0, v, g0[j].1 + [x], j);
    assert g == g0[j := (v, g0[j].1 + [x])];
    KeysUpdate(g0, j, g0[j].1 + [x]);
    forall i | 0 <= i < |g| ensures g[i].1 == WithName(init + [x], sourcing, g[i].0) {
      WithNameSnoc(init, x, sourcing, g[i].0);
      if i != j {
        assert Keys(g0)[i] != Keys(g0)[j];
      }
    }
  }

  /** Citing a new source opens a group for it at the end. */
  lemma GroupsStepNew(init: seq<nat>, x: nat, g0: Dict<Value, seq<nat>>, sourcing: Sourcing)
    requires AllNamed(init + [x], sourcing) && AllNamed(init, sourcing)
    requires Shaped(init, sourcing, g0)
    requires Name(sourcing, x) !in Keys(g0)
    ensures Shaped(init + [x], sourcing, AddTo(g0, Name(sourcing, x), x))
  {
    var v := Name(sourcing, x);
    GroupsNewKeys(init, x, g0, sourcing);
    WithNameNone(init, sourcing, v);
    GroupsNewEntries(init, x, g0, sourcing);
  }

  lemma GroupsNewKeys(init: seq<nat>, x: nat, g0: Dict<Value, seq<nat>>, sourcing: Sourcing)
    requires AllNamed(init + [x], sourcing) && AllNamed(init, sourcing)
    requires Keys(g0) == FirstSeen(Names(init, sourcing)) && Distinct(Keys(g0))
    requires Name(sourcing, x) !in Keys(g0)
    ensures AddTo(g0, Name(sourcing, x), x) == g0 + [(Name(sourcing, x), [x])]
    ensures Keys(AddTo(g0, Name(sourcing, x), x)) == FirstSeen(Names(init + [x], sourcing))
    ensures Distinct(Keys(AddTo(g0, Name(sourcing, x), x)))
  {
    var v := Name(sourcing, x);
    assert Current(g0, v) == [];
    assert Current(g0, v) + [x] == [x];
    PutNew(g0, v, [x]);
    KeysSnoc(g0, v, [x]);
    NamesSnoc(init, x, sourcing);
    assert AddNew(FirstSeen(Names(init, sourcing)), v) == Keys(g0) + [v];
  }

  lemma GroupsNewEntries(init: seq<nat>, x: nat, g0: Dict<Value, seq<nat>>, sourcing: Sourcing)
    requires AllNamed(init + [x], sourcing) && AllNamed(init, sourcing)
    requires forall i :: 0 <= i < |g0| ==> g0[i].1 == WithName(init, sourcing, g0[i].0)
    requires Name(sourcing, x) !in Keys(g0)
    requires WithName(init, sourcing, Name(sourcing, x)) == []
    requires AddTo(g0, Name(sourcing, x), x) == g0 + [(Name(sourcing, x), [x])]
    ensures forall i :: 0 <= i < |g0| + 1 ==>
              (g0 + [(Name(sourcing, x), [x])])[i].1 == WithName(init + [x], sourcing, (g0 + [(Name(sourcing, x), [x])])[i].0)
  {
    var v := Name(sourcing, x);
    var g := g0 + [(v, [x])];
    forall i | 0 <= i < |g| ensures g[i].1 == WithName(init + [x], sourcing, g[i].0) {
      WithNameSnoc(init, x, sourcing, g[i].0);
      if i < |g0| {
        assert Keys(g0)[i] == g0[i].0;
        assert g[i] == g0[i];
      } else {
        assert g[i] == (v, [x]);
        assert WithName(init + [x], sourcing, v) == [] + [x];
      }
    }
  }

  lemma KeysUpdate<K, V>(d: Dict<K, V>, j: nat, v: V)
    requires j < |d|
    ensures Keys(d[j := (d[j].0, v)]) == Keys(d)
  {
  }

  lemma KeysSnoc<K, V>(d: Dict<K, V>, k: K, v: V)
    requires Distinct(Keys(d)) && k !in Keys(d)
    ensures Keys(d + [(k, v)]) == Keys(d) + [k]
    ensures Distinct(Keys(d + [(k, v)]))
  {
    assert Keys(d + [(k, v)]) == Keys(d) + [k];
  }

  lemma GroupsStep(ns: seq<nat>, i: nat, sourcing: Sourcing)
    requires i < |ns| && AllNamed(ns[..i], sourcing) && Named(sourcing, ns[i])
    ensures AllNamed(ns[..i + 1], sourcing)
    ensures GroupsOf(ns[..i + 1], sourcing)
            == Put(GroupsOf(ns[..i], sourcing), Name(sourcing, ns[i]),
                   Current(GroupsOf(ns[..i], sourcing), Name(sourcing, ns[i])) + [ns[i]])
  {
    assert ns[..i + 1] == ns[..i] + [ns[i]];
    GroupsOfSnoc(ns[..i], ns[i], sourcing);
  }

  /** The grouping loop; KeyError when an ordinal has no snippet or its
      snippet no "source". */
  method BuildGroups(ns: seq<nat>, sourcing: Sourcing) returns (r: Result<Dict<Value, seq<nat>>>)
    ensures r.Ok? <==> AllNamed(ns, sourcing)
    ensures r.Ok? ==> r.value == GroupsOf(ns, sourcing)
    ensures r.Err? ==> r.error == "KeyError"
  {
    var groups: Dict<Value, seq<nat>> := [];
    var i := 0;
    while i < |ns|
      invariant 0 <= i <= |ns|
      invariant AllNamed(ns[..i], sourcing)
      invariant groups == GroupsOf(ns[..i], sourcing)
    {
      var idx := ns[i];
      if !Named(sourcing, idx) {
        return Err("KeyError");
      }
      var name := sourcing[idx]["source"];
      var cur := Current(groups, name);
      GroupsStep(ns, i, sourcing);
      groups := Put(groups, name, cur + [idx]);
      i := i + 1;
    }
    assert ns[..i] == ns;
    return Ok(groups);
  }

  // ---------------------------------------------------------------------
  // The numbering loop: `superscript_map`
  // ---------------------------------------------------------------------

  /** `superscript_map` after the numbering loop over the groups: every
      ordinal of the i-th group (counting from 1) maps to the superscript of
      i; an ordinal in two groups would keep the later number. */
  function SupMapOf(g: Dict<Value, seq<nat>>): (sm: map<nat, string>)
    ensures forall n :: n in sm ==> StarFree(sm[n])
  {
    if g == [] then map[]
    else
      SuperscriptHasNoMarkerChars(|g|);
      SupMapOf(g[..|g| - 1]) + Spread(g[|g| - 1].1, IntToSuperscript(|g|))
  }

  /** Every ordinal of xs mapped to s. */
  function Spread(xs: seq<nat>, s: string): (m: map<nat, string>)
    ensures forall n :: n in m <==> n in xs
    ensures forall n :: n in m ==> m[n] == s
  {
    if xs == [] then map[]
    else Spread(xs[..|xs| - 1], s)[xs[|xs| - 1] := s]
  }

  method BuildSupMap(g: Dict<Value, seq<nat>>) returns (sm: map<nat, string>)
    ensures sm == SupMapOf(g)
  {
    sm := map[];
    var i := 0;
    while i < |g|
      invariant 0 <= i <= |g|
      invariant sm == SupMapOf(g[..i])
    {
      var superscript := IntToSuperscript(i + 1);
      var indices := g[i].1;
      var j := 0;
      while j < |indices|
        invariant 0 <= j <= |indices|
        invariant sm == SupMapOf(g[..i]) + Spread(indices[..j], superscript)
      {
        MapSnoc(SupMapOf(g[..i]), indices, j, superscript);
        sm := sm[indices[j] := superscript];
        j := j + 1;
      }
      assert indices[..j] == indices;
      SupMapOfStep(g, i);
      i := i + 1;
    }
    assert g[..i] == g;
  }

  lemma SupMapOfStep(g: Dict<Value, seq<nat>>, i: nat)
    requires i < |g|
    ensures SupMapOf(g[..i + 1]) == SupMapOf(g[..i]) + Spread(g[i].1, IntToSuperscript(i + 1))
  {
    assert g[..i + 1][..i] == g[..i];
  }

  lemma MapSnoc(base: map<nat, string>, xs: seq<nat>, j: nat, s: string)
    requires j < |xs|
    ensures (base + Spread(xs[..j], s))[xs[j] := s] == base + Spread(xs[..j + 1], s)
  {
    assert xs[..j + 1][..j] == xs[..j];
  }

  /** An ordinal of group i and of no later group is numbered i + 1. */
  lemma {:induction false} SupMapOfAt(g: Dict<Value, seq<nat>>, i: nat, n: nat)
    requires i < |g| && n in g[i].1
    requires forall j :: i < j < |g| ==> n !in g[j].1
    ensures n in SupMapOf(g) && SupMapOf(g)[n] == IntToSuperscript(i + 1)
  {
    if i < |g| - 1 {
      var init := g[..|g| - 1];
      assert init[i] == g[i];
      forall j | i < j < |init| ensures n !in init[j].1 {
        assert init[j] == g[j];
      }
      SupMapOfAt(init, i, n);
    }
  }

  /** Each ordinal of the i-th group is numbered i + 1. */
  lemma GroupNumber(ns: seq<nat>, sourcing: Sourcing, i: nat, n: nat)
    requires AllNamed(ns, sourcing)
    requires i < |GroupsOf(ns, sourcing)| && n in GroupsOf(ns, sourcing)[i].1
    ensures n in SupMapOf(GroupsOf(ns, sourcing))
    ensures SupMapOf(GroupsOf(ns, sourcing))[n] == IntToSuperscript(i + 1)
  {
    var g := GroupsOf(ns, sourcing);
    GroupsOfShape(ns, sourcing);
    forall j | i < j < |g| ensures n !in g[j].1 {
      assert Keys(g)[i] != Keys(g)[j];
    }
    SupMapOfAt(g, i, n);
  }

  /** The superscript a cited ordinal gets: the number of its source in
      order of first citation. */
  function LabelOf(ns: seq<nat>, sourcing: Sourcing, n: nat): string
    requires AllNamed(ns, sourcing)
  {
    if n in ns then
      NameInNames(ns, sourcing, n);
      IntToSuperscript(1 + IndexOf(FirstSeen(Names(ns, sourcing)), Name(sourcing, n)))
    else ""
  }

  lemma NameInNames(ns: seq<nat>, sourcing: Sourcing, n: nat)
    requires AllNamed(ns, sourcing) && n in ns
    ensures Name(sourcing, n) in Names(ns, sourcing)
    ensures Name(sourcing, n) in FirstSeen(Names(ns, sourcing))
  {
    var k :| 0 <= k < |ns| && ns[k] == n;
    assert Names(ns, sourcing)[k] == Name(sourcing, n);
  }

  /** The numbering loop gives every cited ordinal its source's number. */
  lemma SupMapLabel(ns: seq<nat>, sourcing: Sourcing, n: nat)
    requires AllNamed(ns, sourcing) && n in ns
    ensures n in SupMapOf(GroupsOf(ns, sourcing))
    ensures SupMapOf(GroupsOf(ns, sourcing))[n] == LabelOf(ns, sourcing, n)
  {
    var g := GroupsOf(ns, sourcing);
    var fs := FirstSeen(Names(ns, sourcing));
    NameInNames(ns, sourcing, n);
    var i := IndexOf(fs, Name(sourcing, n));
    assert LabelOf(ns, sourcing, n) == IntToSuperscript(1 + i);
    GroupAt(ns, sourcing, i, n);
    GroupNumber(ns, sourcing, i, n);
  }

  lemma GroupAt(ns: seq<nat>, sourcing: Sourcing, i: nat, n: nat)
    requires AllNamed(ns, sourcing) && n in ns
    requires i < |FirstSeen(Names(ns, sourcing))| && FirstSeen(Names(ns, sourcing))[i] == Name(sourcing, n)
    ensures i < |GroupsOf(ns, sourcing)| && n in GroupsOf(ns, sourcing)[i].1
  {
    var g := GroupsOf(ns, sourcing);
    GroupsOfShape(ns, sourcing);
    assert Keys(g)[i] == g[i].0;
    assert g[i].1 == WithName(ns, sourcing, Name(sourcing, n));
  }

  /** Two cited ordinals share a superscript exactly when their snippets
      come from the same source. */
  lemma LabelSameSource(ns: seq<nat>, sourcing: Sourcing, a: nat, b: nat)
    requires AllNamed(ns, sourcing) && a in ns && b in ns
    ensures LabelOf(ns, sourcing, a) == LabelOf(ns, sourcing, b) <==> Name(sourcing, a) == Name(sourcing, b)
  {
    var fs := FirstSeen(Names(ns, sourcing));
    NameInNames(ns, sourcing, a);
    NameInNames(ns, sourcing, b);
    IntToSuperscriptInjective(1 + IndexOf(fs, Name(sourcing, a)), 1 + IndexOf(fs, Name(sourcing, b)));
  }

  /** The first citation of the answer is always numbered 1. */
  lemma LabelFirst(ns: seq<nat>, sourcing: Sourcing)
    requires AllNamed(ns, sourcing) && ns != []
    ensures LabelOf(ns, sourcing, ns[0]) == IntToSuperscript(1)
  {
    FirstSeenHead(Names(ns, sourcing));
  }

  lemma {:induction false} FirstSeenHead(vs: seq<Value>)
    requires vs != []
    ensures FirstSeen(vs)[0] == vs[0]
  {
    if |vs| > 1 {
      var init := vs[..|vs| - 1];
      FirstSeenHead(init);
      assert init[0] == vs[0];
    }
  }

  // ---------------------------------------------------------------------
  // The legend: `superscript_to_old`
  // ---------------------------------------------------------------------

  /** Every group is non-empty and its first ordinal is numbered. */
  predicate Covered(g: Dict<Value, seq<nat>>, sm: map<nat, string>) {
    forall i :: 0 <= i < |g| ==> g[i].1 != [] && g[i].1[0] in sm
  }

  /** `superscript_to_old` after the legend loop: each group's superscript
      mapped to its first ordinal. */
  function SupToOldOf(g: Dict<Value, seq<nat>>, sm: map<nat, string>): Dict<string, nat>
    requires Covered(g, sm)
  {
    if g == [] then []
    else Put(SupToOldOf(g[..|g| - 1], sm), sm[g[|g| - 1].1[0]], g[|g| - 1].1[0])
  }

  method BuildSupToOld(g: Dict<Value, seq<nat>>, sm: map<nat, string>) returns (supToOld: Dict<string, nat>)
    requires Covered(g, sm)
    ensures supToOld == SupToOldOf(g, sm)
  {
    supToOld := [];
    var i := 0;
    while i < |g|
      invariant 0 <= i <= |g|
      invariant supToOld == SupToOldOf(g[..i], sm)
    {
      var firstIdx := g[i].1[0];
      var superscript := sm[firstIdx];
      assert g[..i + 1][..i] == g[..i];
      supToOld := Put(supToOld, superscript, firstIdx);
      i := i + 1;
    }
    assert g[..i] == g;
  }

  /** The first ordinal of ns citing source v. */
  function FirstCiting(ns: seq<nat>, sourcing: Sourcing, v: Value): Option<nat>
    requires AllNamed(ns, sourcing)
  {
    if ns == [] then None
    else if Name(sourcing, ns[0]) == v then Some(ns[0])
    else FirstCiting(ns[1..], sourcing, v)
  }

  /** The legend of the cited ordinals ns. */
  function Legend(ns: seq<nat>, sourcing: Sourcing): Dict<string, nat>
    requires AllNamed(ns, sourcing)
  {
    LegendCovered(ns, sourcing);
    SupToOldOf(GroupsOf(ns, sourcing), SupMapOf(GroupsOf(ns, sourcing)))
  }

  lemma LegendCovered(ns: seq<nat>, sourcing: Sourcing)
    requires AllNamed(ns, sourcing)
    ensures Covered(GroupsOf(ns, sourcing), SupMapOf(GroupsOf(ns, sourcing)))
    ensures forall i :: 0 <= i < |GroupsOf(ns, sourcing)| ==>
              SupMapOf(GroupsOf(ns, sourcing))[GroupsOf(ns, sourcing)[i].1[0]] == IntToSuperscript(i + 1)
  {
    var g := GroupsOf(ns, sourcing);
    forall i | 0 <= i < |g|
      ensures g[i].1 != [] && g[i].1[0] in SupMapOf(g) && SupMapOf(g)[g[i].1[0]] == IntToSuperscript(i + 1)
    {
      GroupCovered(ns, sourcing, i);
    }
  }

  lemma GroupCovered(ns: seq<nat>, sourcing: Sourcing, i: nat)
    requires AllNamed(ns, sourcing) && i < |GroupsOf(ns, sourcing)|
    ensures GroupsOf(ns, sourcing)[i].1 != []
    ensures GroupsOf(ns, sourcing)[i].1[0] in SupMapOf(GroupsOf(ns, sourcing))
    ensures SupMapOf(GroupsOf(ns, sourcing))[GroupsOf(ns, sourcing)[i].1[0]] == IntToSuperscript(i + 1)
  {
    var g := GroupsOf(ns, sourcing);
    GroupsOfShape(ns, sourcing);
    assert Keys(g)[i] == g[i].0;
    GroupNonEmpty(ns, sourcing, g[i].0);
    GroupNumber(ns, sourcing, i, g[i].1[0]);
  }

  lemma GroupNonEmpty(ns: seq<nat>, sourcing: Sourcing, v: Value)
    requires AllNamed(ns, sourcing) && v in FirstSeen(Names(ns, sourcing))
    ensures WithName(ns, sourcing, v) != []
    ensures FirstCiting(ns, sourcing, v) == Some(WithName(ns, sourcing, v)[0])
  {
    var k :| 0 <= k < |ns| && Names(ns, sourcing)[k] == v;
    assert ns[k] in WithName(ns, sourcing, v);
    FirstCitingWithName(ns, sourcing, v);
  }

  lemma {:induction false} FirstCitingWithName(ns: seq<nat>, sourcing: Sourcing, v: Value)
    requires AllNamed(ns, sourcing)
    ensures FirstCiting(ns, sourcing, v) == if WithName(ns, sourcing, v) == [] then None else Some(WithName(ns, sourcing, v)[0])
  {
    if ns != [] {
      var init := ns[..|ns| - 1];
      var x := ns[|ns| - 1];
      assert ns == init + [x];
      WithNameSnoc(init, x, sourcing, v);
      FirstCitingWithName(init, sourcing, v);
      FirstCitingSnoc(init, x, sourcing, v);
    }
  }

  lemma {:induction false} FirstCitingSnoc(init: seq<nat>, x: nat, sourcing: Sourcing, v: Value)
    requires AllNamed(init + [x], sourcing)
    ensures AllNamed(init, sourcing)
    ensures FirstCiting(init + [x], sourcing, v)
            == if FirstCiting(init, sourcing, v).Some? then FirstCiting(init, sourcing, v)
               else if Name(sourcing, x) == v then Some(x) else None
  {
    if init != [] {
      assert (init + [x])[1..] == init[1..] + [x];
      FirstCitingSnoc(init[1..], x, sourcing, v);
    } else {
      assert (init + [x])[1..] == [];
    }
  }

  /** The legend has one entry per cited source, in order of first
      citation: the superscript of its number and its first cited ordinal. */
  lemma LegendShape(ns: seq<nat>, sourcing: Sourcing)
    requires AllNamed(ns, sourcing)
    ensures |Legend(ns, sourcing)| == |FirstSeen(Names(ns, sourcing))|
    ensures forall i :: 0 <= i < |Legend(ns, sourcing)| ==>
              Legend(ns, sourcing)[i].0 == IntToSuperscript(i + 1)
              && FirstCiting(ns, sourcing, FirstSeen(Names(ns, sourcing))[i]) == Some(Legend(ns, sourcing)[i].1)
    ensures Legend(ns, sourcing) == [] <==> ns == []
  {
    var g := GroupsOf(ns, sourcing);
    var legend := Legend(ns, sourcing);
    LegendNumbered(ns, sourcing);
    GroupsOfShape(ns, sourcing);
    assert |legend| == |g| == |Keys(g)|;
    forall i | 0 <= i < |legend|
      ensures legend[i].0 == IntToSuperscript(i + 1)
      ensures FirstCiting(ns, sourcing, FirstSeen(Names(ns, sourcing))[i]) == Some(legend[i].1)
    {
      LegendEntry(ns, sourcing, i);
    }
    if ns != [] {
      assert Names(ns, sourcing)[0] in FirstSeen(Names(ns, sourcing));
    }
  }

  lemma LegendEntry(ns: seq<nat>, sourcing: Sourcing, i: nat)
    requires AllNamed(ns, sourcing) && i < |GroupsOf(ns, sourcing)|
    ensures i < |Legend(ns, sourcing)| && i < |FirstSeen(Names(ns, sourcing))|
    ensures Legend(ns, sourcing)[i].0 == IntToSuperscript(i + 1)
    ensures FirstCiting(ns, sourcing, FirstSeen(Names(ns, sourcing))[i]) == Some(Legend(ns, sourcing)[i].1)
  {
    var g := GroupsOf(ns, sourcing);
    LegendNumbered(ns, sourcing);
    GroupsOfShape(ns, sourcing);
    assert Keys(g)[i] == g[i].0;
    assert Legend(ns, sourcing)[i] == (IntToSuperscript(i + 1), g[i].1[0]);
    GroupNonEmpty(ns, sourcing, g[i].0);
  }

  lemma LegendNumbered(ns: seq<nat>, sourcing: Sourcing)
    requires AllNamed(ns, sourcing)
    ensures forall i :: 0 <= i < |GroupsOf(ns, sourcing)| ==> GroupsOf(ns, sourcing)[i].1 != []
    ensures Legend(ns, sourcing) == Numbered(GroupsOf(ns, sourcing), |GroupsOf(ns, sourcing)|)
  {
    var g := GroupsOf(ns, sourcing);
    LegendCovered(ns, sourcing);
    SupToOldPrefix(g, SupMapOf(g), |g|);
    assert g[..|g|] == g;
  }

  lemma {:induction false} SupToOldPrefix(g: Dict<Value, seq<nat>>, sm: map<nat, string>, k: nat)
    requires Covered(g, sm) && k <= |g|
    requires forall i :: 0 <= i < |g| ==> sm[g[i].1[0]] == IntToSuperscript(i + 1)
    ensures SupToOldOf(g[..k], sm) == Numbered(g, k)
  {
    if k > 0 {
      SupToOldPrefix(g, sm, k - 1);
      var first := g[k - 1].1[0];
      SupToOldSnoc(g, sm, k);
      NumberedSnoc(g, k);
      PutNew(Numbered(g, k - 1), IntToSuperscript(k), first);
    } else {
      assert g[..k] == [];
    }
  }

  /** The first k groups' superscripts and first ordinals. */
  function Numbered(g: Dict<Value, seq<nat>>, k: nat): (r: Dict<string, nat>)
    requires k <= |g| && forall i :: 0 <= i < |g| ==> g[i].1 != []
    ensures |r| == k && forall i :: 0 <= i < k ==> r[i] == (IntToSuperscript(i + 1), g[i].1[0])
  {
    seq(k, i requires 0 <= i < k => (IntToSuperscript(i + 1), g[i].1[0]))
  }

  lemma NumberedSnoc(g: Dict<Value, seq<nat>>, k: nat)
    requires 0 < k <= |g| && forall i :: 0 <= i < |g| ==> g[i].1 != []
    ensures Numbered(g, k) == Numbered(g, k - 1) + [(IntToSuperscript(k), g[k - 1].1[0])]
    ensures IntToSuperscript(k) !in Keys(Numbered(g, k - 1))
  {
    var d := Numbered(g, k - 1);
    forall i | 0 <= i < |d| ensures Keys(d)[i] != IntToSuperscript(k) {
      IntToSuperscriptInjective(i + 1, k);
    }
  }

  lemma SupToOldSnoc(g: Dict<Value, seq<nat>>, sm: map<nat, string>, k: nat)
    requires Covered(g, sm) && 0 < k <= |g|
    ensures Covered(g[..k - 1], sm) && Covered(g[..k], sm)
    ensures SupToOldOf(g[..k], sm) == Put(SupToOldOf(g[..k - 1], sm), sm[g[k - 1].1[0]], g[k - 1].1[0])
  {
    assert g[..k][..k - 1] == g[..k - 1];
  }

  // ---------------------------------------------------------------------
  // The relabelling loops and the two renderers
  // ---------------------------------------------------------------------

  /** Every ordinal of ns is numbered by the numbering loop, with the
      number of its source. */
  lemma NumberingCovers(ns: seq<nat>, sourcing: Sourcing)
    requires AllNamed(ns, sourcing)
    ensures forall n :: n in ns ==> n in SupMapOf(GroupsOf(ns, sourcing))
    ensures forall n :: n in ns ==> SupMapOf(GroupsOf(ns, sourcing))[n] == LabelOf(ns, sourcing, n)
  {
    forall n | n in ns
      ensures n in SupMapOf(GroupsOf(ns, sourcing)) && SupMapOf(GroupsOf(ns, sourcing))[n] == LabelOf(ns, sourcing, n)
    {
      SupMapLabel(ns, sourcing, n);
    }
  }

  /** The pairs of the relabelling loop over the valid ordinals: the marker
      of n becomes `superscript_map[n]`. */
  function GroupSubs(valid: seq<nat>, sm: map<nat, string>): seq<(string, string)>
    requires forall n :: n in valid ==> n in sm
  {
    if valid == [] then []
    else GroupSubs(valid[..|valid| - 1], sm) + [(NatToString(valid[|valid| - 1]), sm[valid[|valid| - 1]])]
  }

  lemma GroupSubsStep(valid: seq<nat>, i: nat, sm: map<nat, string>)
    requires i < |valid| && forall n :: n in valid ==> n in sm
    ensures forall n :: n in valid[..i] ==> n in sm
    ensures GroupSubs(valid[..i + 1], sm) == GroupSubs(valid[..i], sm) + [(NatToString(valid[i]), sm[valid[i]])]
  {
    assert valid[..i + 1][..i] == valid[..i];
  }

  /** The pairs of the agent graph's relabelling loop, over the matched
      digit strings as written. */
  function MatchSubs(matches: seq<string>, sm: map<nat, string>): seq<(string, string)>
    requires DigitStringsOnly(matches)
    requires forall k :: 0 <= k < |matches| ==> DecimalValue(matches[k]) in sm
  {
    if matches == [] then []
    else MatchSubs(matches[..|matches| - 1], sm) + [(matches[|matches| - 1], sm[DecimalValue(matches[|matches| - 1])])]
  }

  method Relabel(text: string, valid: seq<nat>, sm: map<nat, string>) returns (replaced: string)
    requires forall n :: n in valid ==> n in sm
    ensures replaced == ReplaceEach(text, GroupSubs(valid, sm))
  {
    replaced := text;
    var i := 0;
    while i < |valid|
      invariant 0 <= i <= |valid|
      invariant replaced == ReplaceEach(text, GroupSubs(valid[..i], sm))
    {
      var oldValue := valid[i];
      var newValue := sm[oldValue];
      GroupSubsStep(valid, i, sm);
      ReplaceEachSnoc(text, GroupSubs(valid[..i], sm), (NatToString(oldValue), newValue));
      replaced := ReplaceFirst(replaced, MarkerText(NatToString(oldValue)), newValue);
      i := i + 1;
    }
    assert valid[..i] == valid;
  }

  method RelabelMatches(text: string, matches: seq<string>, sm: map<nat, string>) returns (replaced: string)
    requires DigitStringsOnly(matches)
    requires forall k :: 0 <= k < |matches| ==> DecimalValue(matches[k]) in sm
    ensures replaced == ReplaceEach(text, MatchSubs(matches, sm))
  {
    replaced := text;
    var i := 0;
    while i < |matches|
      invariant 0 <= i <= |matches|
      invariant replaced == ReplaceEach(text, MatchSubs(matches[..i], sm))
    {
      var oldValue := matches[i];
      var newValue := sm[DecimalValue(oldValue)];
      assert matches[..i + 1][..i] == matches[..i];
      assert matches[..i + 1][i] == oldValue;
      ReplaceEachSnoc(text, MatchSubs(matches[..i], sm), (oldValue, newValue));
      replaced := ReplaceFirst(replaced, MarkerText(oldValue), newValue);
      i := i + 1;
    }
    assert matches[..i] == matches;
  }

  /** The workflow renderer's text: unknown markers deleted, then every
      valid marker relabelled with its source's number. */
  function GroupedText(text: string, sourcing: Sourcing): string
    requires AllNamed(ValidOrdinals(Ordinals(Scan(text, 0)), sourcing), sourcing)
  {
    var matches := Scan(text, 0);
    var valid := ValidOrdinals(Ordinals(matches), sourcing);
    NumberingCovers(valid, sourcing);
    ReplaceEach(ReplaceEach(text, RemovalSubs(matches, sourcing)), GroupSubs(valid, SupMapOf(GroupsOf(valid, sourcing))))
  }

  /** `prettify_sources(text, sourcing)` of the workflow node: the
      relabelled text and the legend; KeyError when a valid ordinal's
      snippet has no "source". */
  method PrettifyGrouped(text: string, sourcing: Sourcing) returns (r: Result<(string, Dict<string, nat>)>)
    ensures r.Ok? <==> AllNamed(ValidOrdinals(Ordinals(Scan(text, 0)), sourcing), sourcing)
    ensures r.Ok? ==> r.value == (GroupedText(text, sourcing), Legend(ValidOrdinals(Ordinals(Scan(text, 0)), sourcing), sourcing))
    ensures r.Err? ==> r.error == "KeyError"
  {
    var matches := FindMarkers(text);
    var valid := ValidOrdinals(Ordinals(matches), sourcing);
    var removed := RemoveInvalid(text, matches, sourcing);
    var groups := BuildGroups(valid, sourcing);
    if groups.Err? {
      return Err(groups.error);
    }
    var sm := BuildSupMap(groups.value);
    NumberingCovers(valid, sourcing);
    var replaced := Relabel(removed, valid, sm);
    LegendCovered(valid, sourcing);
    var supToOld := BuildSupToOld(groups.value, sm);
    return Ok((replaced, supToOld));
  }

  lemma MatchesNumbered(matches: seq<string>, sourcing: Sourcing)
    requires DigitStringsOnly(matches) && AllNamed(Ordinals(matches), sourcing)
    ensures forall k :: 0 <= k < |matches| ==> DecimalValue(matches[k]) in SupMapOf(GroupsOf(Ordinals(matches), sourcing))
  {
    var ns := Ordinals(matches);
    NumberingCovers(ns, sourcing);
    forall k | 0 <= k < |matches| ensures DecimalValue(matches[k]) in SupMapOf(GroupsOf(ns, sourcing)) {
      assert ns[k] == DecimalValue(matches[k]);
    }
  }

  /** The agent renderer's text: every marker relabelled with its source's
      number. */
  function AgentText(text: string, sourcing: Sourcing): string
    requires AllNamed(Ordinals(Scan(text, 0)), sourcing)
  {
    var matches := Scan(text, 0);
    MatchesNumbered(matches, sourcing);
    ReplaceEach(text, MatchSubs(matches, SupMapOf(GroupsOf(Ordinals(matches), sourcing))))
  }

  /** `prettify_sources(text, sourcing)` of the agent graph: every cited
      ordinal must be known, otherwise KeyError. */
  method PrettifyAgents(text: string, sourcing: Sourcing) returns (r: Result<(string, Dict<string, nat>)>)
    ensures r.Ok? <==> AllNamed(Ordinals(Scan(text, 0)), sourcing)
    ensures r.Ok? ==> r.value == (AgentText(text, sourcing), Legend(Ordinals(Scan(text, 0)), sourcing))
    ensures r.Err? ==> r.error == "KeyError"
  {
    var matches := FindMarkers(text);
    var integers := Ordinals(matches);
    var groups := BuildGroups(integers, sourcing);
    if groups.Err? {
      return Err(groups.error);
    }
    var sm := BuildSupMap(groups.value);
    MatchesNumbered(matches, sourcing);
    var replaced := RelabelMatches(text, matches, sm);
    LegendCovered(integers, sourcing);
    var supToOld := BuildSupToOld(groups.value, sm);
    return Ok((replaced, supToOld));
  }

  // ---------------------------------------------------------------------
  // On answers made of pieces
  // ---------------------------------------------------------------------

  /** The workflow's intended rendering: a marker of an unknown ordinal
      disappears, any other becomes its source's number. */
  function GroupRender(ps: seq<Piece>, sourcing: Sourcing): (r: seq<Piece>)
    requires AllNamed(ValidOrdinals(Ords(ps), sourcing), sourcing)
    ensures |r| == |ps|
    ensures forall i :: 0 <= i < |ps| ==>
              r[i] == if ps[i].Cite?
                      then Plain(if ps[i].n in sourcing then LabelOf(ValidOrdinals(Ords(ps), sourcing), sourcing, ps[i].n) else "")
                      else ps[i]
  {
    var valid := ValidOrdinals(Ords(ps), sourcing);
    seq(|ps|, i requires 0 <= i < |ps| =>
      if ps[i].Cite? then Plain(if ps[i].n in sourcing then LabelOf(valid, sourcing, ps[i].n) else "") else ps[i])
  }

  /** The agent graph's intended rendering: every marker becomes its
      source's number. */
  function AgentRender(ps: seq<Piece>, sourcing: Sourcing): (r: seq<Piece>)
    requires AllNamed(Ords(ps), sourcing)
    ensures |r| == |ps|
    ensures forall i :: 0 <= i < |ps| ==>
              r[i] == if ps[i].Cite? then Plain(LabelOf(Ords(ps), sourcing, ps[i].n)) else ps[i]
  {
    seq(|ps|, i requires 0 <= i < |ps| =>
      if ps[i].Cite? then Plain(LabelOf(Ords(ps), sourcing, ps[i].n)) else ps[i])
  }

  /** A label is a superscript or nothing, never a marker character. */
  lemma LabelStarFree(ns: seq<nat>, sourcing: Sourcing, n: nat)
    requires AllNamed(ns, sourcing)
    ensures StarFree(LabelOf(ns, sourcing, n))
  {
    if n in ns {
      NameInNames(ns, sourcing, n);
      SuperscriptHasNoMarkerChars(1 + IndexOf(FirstSeen(Names(ns, sourcing)), Name(sourcing, n)));
    }
  }

  lemma {:induction false} GroupSubsOrdSubs(ns: seq<nat>, sm: map<nat, string>, sel: nat -> bool, rep: nat -> string)
    requires forall n :: n in ns ==> n in sm && sel(n) && rep(n) == sm[n]
    ensures GroupSubs(ns, sm) == OrdSubs(ns, sel, rep)
  {
    if ns != [] {
      GroupSubsOrdSubs(ns[..|ns| - 1], sm, sel, rep);
    }
  }

  lemma {:induction false} MatchSubsOrdSubs(ns: seq<nat>, sm: map<nat, string>, sel: nat -> bool, rep: nat -> string)
    requires forall n :: n in ns ==> n in sm && sel(n) && rep(n) == sm[n]
    requires DigitStringsOnly(DigitStrings(ns))
    requires forall k :: 0 <= k < |ns| ==> DecimalValue(DigitStrings(ns)[k]) in sm
    ensures MatchSubs(DigitStrings(ns), sm) == OrdSubs(ns, sel, rep)
  {
    if ns != [] {
      var ms := DigitStrings(ns);
      var n := ns[|ns| - 1];
      assert ms[..|ms| - 1] == DigitStrings(ns[..|ns| - 1]);
      MatchSubsOrdSubs(ns[..|ns| - 1], sm, sel, rep);
      DecimalRoundTrip(n);
    }
  }

  /** On a well-formed answer the workflow renderer produces the intended
      rendering and leaves no marker behind. */
  lemma GroupedPieces(ps: seq<Piece>, sourcing: Sourcing)
    requires WellFormed(ps)
    requires AllNamed(ValidOrdinals(Ords(ps), sourcing), sourcing)
    ensures Ordinals(Scan(Flatten(ps), 0)) == Ords(ps)
    ensures GroupedText(Flatten(ps), sourcing) == Flatten(GroupRender(ps, sourcing))
    ensures Scan(GroupedText(Flatten(ps), sourcing), 0) == []
  {
    var valid := ValidOrdinals(Ords(ps), sourcing);
    var ps1 := Removed(ps, sourcing);
    RemoveInvalidPieces(ps, sourcing);
    RemovedWellFormed(ps, sourcing);
    RelabelPieces(ps, ps1, valid, sourcing);
    GroupRenderClean(ps, sourcing);
  }

  lemma RelabelPieces(ps: seq<Piece>, ps1: seq<Piece>, valid: seq<nat>, sourcing: Sourcing)
    requires WellFormed(ps1) && ps1 == Removed(ps, sourcing)
    requires valid == ValidOrdinals(Ords(ps), sourcing) && Ords(ps1) == valid
    requires AllNamed(valid, sourcing)
    ensures forall n :: n in valid ==> n in SupMapOf(GroupsOf(valid, sourcing))
    ensures ReplaceEach(Flatten(ps1), GroupSubs(valid, SupMapOf(GroupsOf(valid, sourcing))))
            == Flatten(GroupRender(ps, sourcing))
  {
    var sm := SupMapOf(GroupsOf(valid, sourcing));
    var sel := (n: nat) => n in sourcing;
    var rep := (n: nat) => if n in sm then sm[n] else "";
    NumberingCovers(valid, sourcing);
    GroupSubsOrdSubs(valid, sm, sel, rep);
    ReplaceEachPieces(ps1, sel, rep);
    RelabelRewrite(ps, valid, sourcing, sm, sel, rep);
  }

  lemma RelabelRewrite(ps: seq<Piece>, valid: seq<nat>, sourcing: Sourcing, sm: map<nat, string>,
                       sel: nat -> bool, rep: nat -> string)
    requires valid == ValidOrdinals(Ords(ps), sourcing) && AllNamed(valid, sourcing)
    requires forall n :: n in valid ==> n in sm && sm[n] == LabelOf(valid, sourcing, n)
    requires forall n :: sel(n) == (n in sourcing)
    requires forall n :: rep(n) == if n in sm then sm[n] else ""
    ensures Rewrite(Removed(ps, sourcing), sel, rep) == GroupRender(ps, sourcing)
  {
    var a := Rewrite(Removed(ps, sourcing), sel, rep);
    var b := GroupRender(ps, sourcing);
    forall i | 0 <= i < |ps| ensures a[i] == b[i] {
      if ps[i].Cite? && ps[i].n in sourcing {
        CitedInOrds(ps, i);
        assert ps[i].n in valid;
      }
    }
  }

  lemma GroupRenderClean(ps: seq<Piece>, sourcing: Sourcing)
    requires WellFormed(ps)
    requires AllNamed(ValidOrdinals(Ords(ps), sourcing), sourcing)
    ensures Scan(Flatten(GroupRender(ps, sourcing)), 0) == []
  {
    var valid := ValidOrdinals(Ords(ps), sourcing);
    var r := GroupRender(ps, sourcing);
    forall i | 0 <= i < |r| ensures r[i].Plain? && StarFree(r[i].text) {
      if ps[i].Cite? {
        LabelStarFree(valid, sourcing, ps[i].n);
      }
    }
    NoMarkerLeft(r);
  }

  /** On a well-formed answer whose every cited ordinal is known, the agent
      renderer produces the intended rendering and leaves no marker. */
  lemma AgentPieces(ps: seq<Piece>, sourcing: Sourcing)
    requires WellFormed(ps)
    requires AllNamed(Ords(ps), sourcing)
    ensures Ordinals(Scan(Flatten(ps), 0)) == Ords(ps)
    ensures AgentText(Flatten(ps), sourcing) == Flatten(AgentRender(ps, sourcing))
    ensures Scan(AgentText(Flatten(ps), sourcing), 0) == []
  {
    var ns := Ords(ps);
    ScanPieces(ps);
    OrdinalsOfDigits(ns);
    AgentRelabel(ps, ns, sourcing);
    AgentRenderClean(ps, sourcing);
  }

  lemma AgentRelabel(ps: seq<Piece>, ns: seq<nat>, sourcing: Sourcing)
    requires WellFormed(ps) && ns == Ords(ps) && AllNamed(ns, sourcing)
    requires Scan(Flatten(ps), 0) == DigitStrings(ns)
    ensures forall k :: 0 <= k < |ns| ==> DecimalValue(DigitStrings(ns)[k]) in SupMapOf(GroupsOf(ns, sourcing))
    ensures ReplaceEach(Flatten(ps), MatchSubs(DigitStrings(ns), SupMapOf(GroupsOf(ns, sourcing))))
            == Flatten(AgentRender(ps, sourcing))
  {
    var sm := SupMapOf(GroupsOf(ns, sourcing));
    var sel := (n: nat) => true;
    var rep := (n: nat) => if n in sm then sm[n] else "";
    NumberingCovers(ns, sourcing);
    forall k | 0 <= k < |ns| ensures DecimalValue(DigitStrings(ns)[k]) == ns[k] {
      DecimalRoundTrip(ns[k]);
    }
    MatchSubsOrdSubs(ns, sm, sel, rep);
    ReplaceEachPieces(ps, sel, rep);
    AgentRewrite(ps, ns, sourcing, sm, sel, rep);
  }

  lemma AgentRewrite(ps: seq<Piece>, ns: seq<nat>, sourcing: Sourcing, sm: map<nat, string>,
                     sel: nat -> bool, rep: nat -> string)
    requires ns == Ords(ps) && AllNamed(ns, sourcing)
    requires forall n :: n in ns ==> n in sm && sm[n] == LabelOf(ns, sourcing, n)
    requires forall n :: sel(n)
    requires forall n :: rep(n) == if n in sm then sm[n] else ""
    ensures Rewrite(ps, sel, rep) == AgentRender(ps, sourcing)
  {
    var a := Rewrite(ps, sel, rep);
    var b := AgentRender(ps, sourcing);
    forall i | 0 <= i < |ps| ensures a[i] == b[i] {
      if ps[i].Cite? {
        CitedInOrds(ps, i);
      }
    }
  }

  lemma AgentRenderClean(ps: seq<Piece>, sourcing: Sourcing)
    requires WellFormed(ps)
    requires AllNamed(Ords(ps), sourcing)
    ensures Scan(Flatten(AgentRender(ps, sourcing)), 0) == []
  {
    var r := AgentRender(ps, sourcing);
    forall i | 0 <= i < |r| ensures r[i].Plain? && StarFree(r[i].text) {
      if ps[i].Cite? {
        LabelStarFree(Ords(ps), sourcing, ps[i].n);
      }
    }
    NoMarkerLeft(r);
  }
}
