/** Python's `sorted(xs, key=...)` and `list.sort(key=..., reverse=...)`: a
    stable sort. The order is given as a relation `le(a, b)`, "a may be
    placed before b", which must be a total preorder: equal keys are
    equivalent elements, and equivalent elements keep their input order. */
module Sorting {

  ghost predicate TotalPreorder<T(!new)>(le: (T, T) -> bool) {
    && (forall a, b :: le(a, b) || le(b, a))
    && (forall a, b, c :: le(a, b) && le(b, c) ==> le(a, c))
  }

  predicate Sorted<T>(s: seq<T>, le: (T, T) -> bool) {
    forall i, j :: 0 <= i < j < |s| ==> le(s[i], s[j])
  }

  /** Places x before the first element it may precede, so that x, which
      came first in the input, stays ahead of every element equivalent to it. */
  function Insert<T>(x: T, s: seq<T>, le: (T, T) -> bool): (r: seq<T>)
    ensures multiset(r) == multiset(s) + multiset{x}
    ensures |r| == |s| + 1
  {
    if s == [] then [x]
    else if le(x, s[0]) then [x] + s
    else
      assert s == [s[0]] + s[1..];
      [s[0]] + Insert(x, s[1..], le)
  }

  /** The stable sort. */
  function Sort<T>(s: seq<T>, le: (T, T) -> bool): (r: seq<T>)
    ensures multiset(r) == multiset(s)
    ensures |r| == |s|
  {
    if s == [] then []
    else
      assert s == [s[0]] + s[1..];
      Insert(s[0], Sort(s[1..], le), le)
  }

  /** The elements of s equivalent to e, in order. */
  function Equivalents<T>(s: seq<T>, e: T, le: (T, T) -> bool): seq<T> {
    if s == [] then []
    else (if le(s[0], e) && le(e, s[0]) then [s[0]] else []) + Equivalents(s[1..], e, le)
  }

  lemma {:induction false} InsertSorted<T(!new)>(x: T, s: seq<T>, le: (T, T) -> bool)
    requires TotalPreorder(le)
    requires Sorted(s, le)
    ensures Sorted(Insert(x, s, le), le)
  {
    if s != [] && !le(x, s[0]) {
      InsertSorted(x, s[1..], le);
      var r := Insert(x, s, le);
      var t := Insert(x, s[1..], le);
      assert r == [s[0]] + t;
      assert le(s[0], x);
      forall k | 0 <= k < |t| ensures le(s[0], t[k]) {
        assert t[k] in multiset(t);
        assert t[k] == x || t[k] in multiset(s[1..]);
        if t[k] != x {
          var m :| 0 <= m < |s[1..]| && s[1..][m] == t[k];
          assert s[1..][m] == s[m + 1];
        }
      }
    }
  }

  /** The result is in order. */
  lemma {:induction false} SortSorted<T(!new)>(s: seq<T>, le: (T, T) -> bool)
    requires TotalPreorder(le)
    ensures Sorted(Sort(s, le), le)
  {
    if s != [] {
      SortSorted(s[1..], le);
      InsertSorted(s[0], Sort(s[1..], le), le);
    }
  }

  lemma {:induction false} InsertStable<T(!new)>(x: T, s: seq<T>, e: T, le: (T, T) -> bool)
    requires TotalPreorder(le)
    ensures Equivalents(Insert(x, s, le), e, le)
            == (if le(x, e) && le(e, x) then [x] else []) + Equivalents(s, e, le)
  {
    if s == [] {
      assert Insert(x, s, le) == [x];
      assert Equivalents([x], e, le) == (if le(x, e) && le(e, x) then [x] else []) + Equivalents([x][1..], e, le);
    } else if le(x, s[0]) {
      assert ([x] + s)[1..] == s;
    } else {
      var t := Insert(x, s[1..], le);
      InsertStable(x, s[1..], e, le);
      assert !(le(x, e) && le(e, x) && le(s[0], e) && le(e, s[0]));
      EquivalentsSkip(x, s, t, e, le);
    }
  }

  lemma EquivalentsSkip<T>(x: T, s: seq<T>, t: seq<T>, e: T, le: (T, T) -> bool)
    requires s != []
    requires Equivalents(t, e, le) == (if le(x, e) && le(e, x) then [x] else []) + Equivalents(s[1..], e, le)
    requires !(le(x, e) && le(e, x) && le(s[0], e) && le(e, s[0]))
    ensures Equivalents([s[0]] + t, e, le)
            == (if le(x, e) && le(e, x) then [x] else []) + Equivalents(s, e, le)
  {
    var ex := le(x, e) && le(e, x);
    var e0 := le(s[0], e) && le(e, s[0]);
    var q := Equivalents(s[1..], e, le);
    assert ([s[0]] + t)[1..] == t;
    assert ([s[0]] + t)[0] == s[0];
    assert Equivalents([s[0]] + t, e, le) == (if e0 then [s[0]] else []) + Equivalents(t, e, le);
    assert Equivalents(s, e, le) == (if e0 then [s[0]] else []) + q;
    if e0 {
      assert !ex;
    }
  }

  /** Stability: the elements equivalent to any e come out in their input
      order. */
  lemma {:induction false} SortStable<T(!new)>(s: seq<T>, e: T, le: (T, T) -> bool)
    requires TotalPreorder(le)
    ensures Equivalents(Sort(s, le), e, le) == Equivalents(s, e, le)
  {
    if s != [] {
      SortStable(s[1..], e, le);
      InsertStable(s[0], Sort(s[1..], le), e, le);
    }
  }
}
