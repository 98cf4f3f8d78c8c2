/** Python-level building blocks shared by every component of the model:
    optional values, the values held in metadata dictionaries, and the string
    operations the pipeline applies to model replies and documents (decimal
    rendering, split, join, strip, lower, find, replace-first). */
module Common {

  datatype Option<T> = None | Some(value: T)

  /** The outcome of an operation that may raise: `Err` carries the name of
      the Python exception. */
  datatype Result<T> = Ok(value: T) | Err(error: string)

  /** A value stored in a metadata dictionary. Scores and distances are
      floats in the system; the model keeps them as integers because only
      their order is ever used. */
  datatype Value = VStr(s: string) | VNum(n: int) | VBool(b: bool) | VNone

  /** Document metadata: a dictionary from keys to values. */
  type Meta = map<string, Value>

  /** A chat message as the graphs pass it around: its role, its text and
      the `path` tag some nodes put in its extra arguments. */
  datatype Message = Message(role: string, content: string, path: Option<string>)

  /** Python truthiness of a value. */
  predicate Truthy(v: Value) {
    match v
    case VStr(s) => s != ""
    case VNum(n) => n != 0
    case VBool(b) => b
    case VNone => false
  }

  /** `m.get(k)`: a missing key reads as None. */
  function Get(m: Meta, k: string): Value {
    if k in m then m[k] else VNone
  }

  /** `m.get(k, d)`. */
  function GetOr(m: Meta, k: string, d: Value): Value {
    if k in m then m[k] else d
  }

  // ---------------------------------------------------------------------
  // Decimal digits
  // ---------------------------------------------------------------------

  predicate IsDigit(c: char) { '0' <= c <= '9' }

  predicate AllDigits(s: string) {
    forall i :: 0 <= i < |s| ==> IsDigit(s[i])
  }

  function DigitChar(d: nat): (c: char)
    requires d < 10
    ensures IsDigit(c)
  {
    (48 + d) as char
  }

  function DigitValue(c: char): (d: nat)
    requires IsDigit(c)
    ensures d < 10 && DigitChar(d) == c
  {
    (c as int - 48) as nat
  }

  /** `str(n)` for a non-negative integer: its decimal digits, most
      significant first, without leading zeros. */
  function NatToString(n: nat): (r: string)
    ensures |r| >= 1 && AllDigits(r)
    ensures r[0] == '0' ==> n == 0
    decreases n
  {
    if n < 10 then [DigitChar(n)] else NatToString(n / 10) + [DigitChar(n % 10)]
  }

  /** `int(s)` for a string of ASCII digits. */
  function DecimalValue(s: string): nat
    requires AllDigits(s)
  {
    if s == [] then 0 else 10 * DecimalValue(s[..|s| - 1]) + DigitValue(s[|s| - 1])
  }

  /** Reading back a rendered number gives the number: `int(str(n)) == n`. */
  lemma {:induction false} DecimalRoundTrip(n: nat)
    ensures DecimalValue(NatToString(n)) == n
    decreases n
  {
    if n >= 10 {
      var s := NatToString(n);
      assert s[..|s| - 1] == NatToString(n / 10);
      DecimalRoundTrip(n / 10);
    }
  }

  /** Different numbers render differently. */
  lemma NatToStringInjective(a: nat, b: nat)
    ensures NatToString(a) == NatToString(b) ==> a == b
  {
    DecimalRoundTrip(a);
    DecimalRoundTrip(b);
  }

  /** `str(i)` for any integer. */
  function IntToString(i: int): (r: string)
    ensures |r| >= 1
    ensures i >= 0 <==> r[0] != '-'
  {
    if i < 0 then "-" + NatToString(-i) else NatToString(i)
  }

  /** Python `str()` of a metadata value, as an f-string renders it. */
  function Str(v: Value): string {
    match v
    case VStr(s) => s
    case VNum(n) => IntToString(n)
    case VBool(b) => if b then "True" else "False"
    case VNone => "None"
  }

  // ---------------------------------------------------------------------
  // Whitespace, case
  // ---------------------------------------------------------------------

  /** Python's `str.isspace` for one character. */
  predicate IsSpace(c: char) {
    || c == ' '
    || ('\t' <= c <= '\r')
    || ('\U{1C}' <= c <= '\U{1F}')
    || c == '\U{85}' || c == '\U{A0}' || c == '\U{1680}'
    || ('\U{2000}' <= c <= '\U{200A}')
    || c == '\U{2028}' || c == '\U{2029}' || c == '\U{202F}' || c == '\U{205F}' || c == '\U{3000}'
  }

  function LStrip(s: string): (r: string)
    ensures |r| <= |s| && r == s[|s| - |r|..]
    ensures r == [] || !IsSpace(r[0])
  {
    if s != [] && IsSpace(s[0]) then LStrip(s[1..]) else s
  }

  function RStrip(s: string): (r: string)
    ensures |r| <= |s| && r == s[..|r|]
    ensures r == [] || !IsSpace(r[|r| - 1])
  {
    if s != [] && IsSpace(s[|s| - 1]) then RStrip(s[..|s| - 1]) else s
  }

  /** What `lstrip()` cuts off is whitespace. */
  lemma {:induction false} LStripCuts(s: string)
    ensures forall k :: 0 <= k < |s| - |LStrip(s)| ==> IsSpace(s[k])
    decreases |s|
  {
    if s != [] && IsSpace(s[0]) {
      LStripCuts(s[1..]);
      assert forall k :: 1 <= k < |s| ==> s[k] == s[1..][k - 1];
    }
  }

  /** What `rstrip()` cuts off is whitespace. */
  lemma {:induction false} RStripCuts(s: string)
    ensures forall k :: |RStrip(s)| <= k < |s| ==> IsSpace(s[k])
    decreases |s|
  {
    if s != [] && IsSpace(s[|s| - 1]) {
      RStripCuts(s[..|s| - 1]);
      assert forall k :: 0 <= k < |s| - 1 ==> s[k] == s[..|s| - 1][k];
    }
  }

  /** `s.strip()`: the longest middle part of `s` that neither starts nor
      ends with whitespace; everything cut off is whitespace. */
  function Strip(s: string): (r: string)
    ensures |r| <= |s|
    ensures r == [] || (!IsSpace(r[0]) && !IsSpace(r[|r| - 1]))
  {
    RStrip(LStrip(s))
  }

  /** What `strip()` cuts off on either side is whitespace: the result is
      the middle part `s[i..j]`. */
  lemma StripSpec(s: string) returns (i: nat, j: nat)
    ensures i <= j <= |s| && Strip(s) == s[i..j]
    ensures forall k :: 0 <= k < i ==> IsSpace(s[k])
    ensures forall k :: j <= k < |s| ==> IsSpace(s[k])
  {
    LStripCuts(s);
    i := |s| - |LStrip(s)|;
    j := i + |RStrip(LStrip(s))|;
    StripRight(s, i, LStrip(s));
  }

  /** Right-stripping the suffix `s[i..]` leaves a middle part of `s` and
      cuts off only whitespace. */
  lemma StripRight(s: string, i: nat, l: string)
    requires i <= |s| && l == s[i..]
    ensures RStrip(l) == s[i..i + |RStrip(l)|]
    ensures forall k :: i + |RStrip(l)| <= k < |s| ==> IsSpace(s[k])
  {
    var r := RStrip(l);
    RStripCuts(l);
    assert r == l[..|r|];
    forall k | i + |r| <= k < |s|
      ensures IsSpace(s[k])
    {
      assert s[k] == l[k - i];
    }
  }

  /** Stripping a string whose ends are not whitespace changes nothing. */
  lemma StripNoSpace(s: string)
    requires s == [] || (!IsSpace(s[0]) && !IsSpace(s[|s| - 1]))
    ensures Strip(s) == s
  {
  }

  /** A middle part that neither starts nor ends with whitespace survives
      `strip()`. */
  lemma StripKeeps(a: string, m: string, b: string)
    requires m != [] && !IsSpace(m[0]) && !IsSpace(m[|m| - 1])
    ensures Contains(Strip(a + m + b), m)
  {
    var s := a + m + b;
    assert s[|a|..|a| + |m|] == m;
    var l := LStrip(s);
    var q := LStripKeeps(s, |a|, m);
    var p := RStripKeeps(l, q, m);
    OccursContains(Strip(s), p, m);
  }

  lemma LStripKeeps(s: string, q: nat, m: string) returns (p: nat)
    requires m != [] && !IsSpace(m[0])
    requires q + |m| <= |s| && s[q..q + |m|] == m
    ensures p + |m| <= |LStrip(s)| && LStrip(s)[p..p + |m|] == m
  {
    var l := LStrip(s);
    var d := |s| - |l|;
    assert l == s[d..];
    assert s[q] == m[0] by {
      assert s[q..q + |m|][0] == s[q];
    }
    LStripBound(s, q);
    p := q - d;
    SuffixSlice(s, d, p, |m|);
  }

  lemma LStripBound(s: string, q: nat)
    requires q < |s| && !IsSpace(s[q])
    ensures |s| - |LStrip(s)| <= q
  {
    LStripCuts(s);
  }

  lemma SuffixSlice(s: string, d: nat, p: nat, n: nat)
    requires d + p + n <= |s|
    ensures s[d..][p..p + n] == s[d + p..d + p + n]
  {
  }

  lemma RStripKeeps(s: string, q: nat, m: string) returns (p: nat)
    requires m != [] && !IsSpace(m[|m| - 1])
    requires q + |m| <= |s| && s[q..q + |m|] == m
    ensures p + |m| <= |RStrip(s)| && RStrip(s)[p..p + |m|] == m
  {
    var r := RStrip(s);
    assert s[q + |m| - 1] == m[|m| - 1];
    RStripBound(s, q + |m| - 1);
    p := q;
    assert r[p..p + |m|] == s[..|r|][p..p + |m|];
  }

  lemma RStripBound(s: string, q: nat)
    requires q < |s| && !IsSpace(s[q])
    ensures q < |RStrip(s)|
  {
    RStripCuts(s);
  }

  predicate IsUpperAscii(c: char) { 'A' <= c <= 'Z' }

  function LowerChar(c: char): char {
    if IsUpperAscii(c) then (c as int + 32) as char else c
  }

  /** `s.lower()` on ASCII letters; every other character is kept. */
  function Lower(s: string): (r: string)
    ensures |r| == |s|
  {
    if s == [] then [] else [LowerChar(s[0])] + Lower(s[1..])
  }

  /** `lower()` works character by character. */
  lemma {:induction false} LowerChars(s: string)
    ensures forall i :: 0 <= i < |s| ==> Lower(s)[i] == LowerChar(s[i])
  {
    if s != [] {
      LowerChars(s[1..]);
      assert forall i :: 1 <= i < |s| ==> Lower(s)[i] == Lower(s[1..])[i - 1];
    }
  }

  // ---------------------------------------------------------------------
  // Searching and replacing
  // ---------------------------------------------------------------------

  predicate OccursAt(s: string, i: int, pat: string) {
    0 <= i && i + |pat| <= |s| && s[i..i + |pat|] == pat
  }

  /** The first position at or after `from` where `pat` occurs. */
  function FindFrom(s: string, pat: string, from: nat): (r: Option<nat>)
    ensures r.Some? ==> from <= r.value && OccursAt(s, r.value, pat)
                        && forall j :: from <= j < r.value ==> !OccursAt(s, j, pat)
    ensures r.None? ==> forall j :: from <= j ==> !OccursAt(s, j, pat)
    decreases |s| - from
  {
    if from + |pat| > |s| then None
    else if s[from..from + |pat|] == pat then Some(from)
    else FindFrom(s, pat, from + 1)
  }

  /** The first occurrence is the one every other occurrence follows. */
  lemma FindFirst(s: string, pat: string, p: nat)
    requires OccursAt(s, p, pat)
    requires forall j :: 0 <= j < p ==> !OccursAt(s, j, pat)
    ensures FindFrom(s, pat, 0) == Some(p)
  {
  }

  /** `sub in s`. */
  predicate Contains(s: string, sub: string) {
    FindFrom(s, sub, 0).Some?
  }

  lemma OccursContains(s: string, p: nat, pat: string)
    requires OccursAt(s, p, pat)
    ensures Contains(s, pat)
  {
  }

  predicate StartsWith(s: string, p: string) { |p| <= |s| && s[..|p|] == p }

  predicate EndsWith(s: string, p: string) { |p| <= |s| && s[|s| - |p|..] == p }

  /** `s.replace(pat, rep, 1)`: the first occurrence of `pat` is replaced by
      `rep`; a string without `pat` is returned as it is. */
  function ReplaceFirst(s: string, pat: string, rep: string): string
  {
    match FindFrom(s, pat, 0)
    case None => s
    case Some(i) => s[..i] + rep + s[i + |pat|..]
  }

  // ---------------------------------------------------------------------
  // Split and join
  // ---------------------------------------------------------------------

  /** `s.split(sep)` with an explicit one-character separator: empty pieces
      are kept, so there is always at least one piece. */
  function Split(s: string, sep: char): (r: seq<string>)
    ensures |r| >= 1
    ensures forall k, i :: 0 <= k < |r| && 0 <= i < |r[k]| ==> r[k][i] != sep
  {
    if s == [] then [""]
    else
      var rest := Split(s[1..], sep);
      if s[0] == sep then [""] + rest
      else [[s[0]] + rest[0]] + rest[1..]
  }

  /** `sep.join(parts)`. */
  function Join(sep: string, parts: seq<string>): string {
    if parts == [] then ""
    else if |parts| == 1 then parts[0]
    else parts[0] + sep + Join(sep, parts[1..])
  }

  /** Splitting and joining again with the same separator gives back the
      original string. */
  lemma {:induction false} JoinSplit(s: string, sep: char)
    ensures Join([sep], Split(s, sep)) == s
  {
    if s != [] {
      var rest := Split(s[1..], sep);
      JoinSplit(s[1..], sep);
      if s[0] == sep {
        assert Split(s, sep) == [""] + rest;
        assert Join([sep], [""] + rest) == "" + [sep] + Join([sep], rest);
      } else {
        var r := Split(s, sep);
        assert r == [[s[0]] + rest[0]] + rest[1..];
        if |rest| == 1 {
          assert Join([sep], r) == [s[0]] + rest[0];
        } else {
          assert Join([sep], rest) == rest[0] + [sep] + Join([sep], rest[1..]);
          assert r[1..] == rest[1..];
        }
      }
    }
  }

  lemma AppendAssoc<T>(a: seq<T>, b: seq<T>, c: seq<T>)
    ensures (a + b) + c == a + (b + c)
  {
  }

  /** Concatenation of a sequence of strings. */
  function Concat(parts: seq<string>): string {
    if parts == [] then "" else Concat(parts[..|parts| - 1]) + parts[|parts| - 1]
  }

  /** The contributions of the items, in item order. */
  function FlatMap<T, U>(xs: seq<T>, f: T -> seq<U>): seq<U> {
    if xs == [] then [] else FlatMap(xs[..|xs| - 1], f) + f(xs[|xs| - 1])
  }

  /** Contributions are made item by item, so the order of the items is
      kept. */
  lemma {:induction false} FlatMapAppend<T, U>(a: seq<T>, b: seq<T>, f: T -> seq<U>)
    ensures FlatMap(a + b, f) == FlatMap(a, f) + FlatMap(b, f)
    decreases |b|
  {
    if b == [] {
      assert a + b == a;
    } else {
      var init := b[..|b| - 1];
      var ab := a + b;
      FlatMapAppend(a, init, f);
      assert ab[..|ab| - 1] == a + init;
    }
  }

  /** An element of the result comes from some item, and everything an
      item contributes is in the result. */
  lemma {:induction false} FlatMapMember<T, U>(xs: seq<T>, f: T -> seq<U>, u: U)
    ensures u in FlatMap(xs, f) <==> exists k :: 0 <= k < |xs| && u in f(xs[k])
  {
    if xs != [] {
      var init := xs[..|xs| - 1];
      FlatMapMember(init, f, u);
      if u in FlatMap(init, f) {
        var k :| 0 <= k < |init| && u in f(init[k]);
        assert init[k] == xs[k];
      }
      if exists k :: 0 <= k < |xs| && u in f(xs[k]) {
        var k :| 0 <= k < |xs| && u in f(xs[k]);
        if k < |init| {
          assert init[k] == xs[k];
        }
      }
    }
  }

  // ---------------------------------------------------------------------
  // Insertion-ordered dictionaries
  // ---------------------------------------------------------------------

  predicate Distinct<T(==)>(s: seq<T>) {
    forall i, j :: 0 <= i < j < |s| ==> s[i] != s[j]
  }

  /** A Python dict whose iteration order matters: its entries in insertion
      order. */
  type Dict<K, V> = seq<(K, V)>

  function Keys<K, V>(d: Dict<K, V>): (r: seq<K>)
    ensures |r| == |d| && forall i :: 0 <= i < |d| ==> r[i] == d[i].0
  {
    if d == [] then [] else [d[0].0] + Keys(d[1..])
  }

  /** `d.get(k)`. */
  function Lookup<K(==), V>(d: Dict<K, V>, k: K): (r: Option<V>)
    ensures r.None? <==> k !in Keys(d)
  {
    if d == [] then None
    else if d[0].0 == k then Some(d[0].1)
    else Lookup(d[1..], k)
  }

  /** `d[k] = v`: a key already present keeps its place, a new key goes last. */
  function Put<K(==), V>(d: Dict<K, V>, k: K, v: V): (r: Dict<K, V>)
    ensures Keys(r) == if k in Keys(d) then Keys(d) else Keys(d) + [k]
  {
    if d == [] then [(k, v)]
    else if d[0].0 == k then
      assert ([(k, v)] + d[1..])[1..] == d[1..];
      [(k, v)] + d[1..]
    else
      assert ([d[0]] + Put(d[1..], k, v))[1..] == Put(d[1..], k, v);
      [d[0]] + Put(d[1..], k, v)
  }

  /** After `d[k] = v`, k reads v and every other key reads as before. */
  lemma {:induction false} PutLookup<K, V>(d: Dict<K, V>, k: K, v: V, k': K)
    ensures Lookup(Put(d, k, v), k') == if k' == k then Some(v) else Lookup(d, k')
  {
    if d != [] && d[0].0 != k {
      PutLookup(d[1..], k, v, k');
      assert ([d[0]] + Put(d[1..], k, v))[1..] == Put(d[1..], k, v);
    }
  }

  /** Putting keeps the keys distinct. */
  lemma PutDistinct<K, V>(d: Dict<K, V>, k: K, v: V)
    requires Distinct(Keys(d))
    ensures Distinct(Keys(Put(d, k, v)))
  {
    var ks := Keys(d);
    if k !in ks {
      var r := ks + [k];
      forall i, j | 0 <= i < j < |r|
        ensures r[i] != r[j]
      {
        if j == |ks| {
          assert r[i] == ks[i];
        } else {
          assert r[i] == ks[i] && r[j] == ks[j];
        }
      }
    }
  }

  /** Every entry after `d[k] = v` is the new one or an entry of d. */
  lemma {:induction false} PutEntries<K, V>(d: Dict<K, V>, k: K, v: V)
    ensures forall e :: e in Put(d, k, v) ==> e == (k, v) || e in d
  {
    if d != [] && d[0].0 != k {
      PutEntries(d[1..], k, v);
    }
  }

  /** With distinct keys, the entry at position j is what its key reads. */
  lemma {:induction false} LookupAt<K, V>(d: Dict<K, V>, j: nat)
    requires Distinct(Keys(d))
    requires j < |d|
    ensures Lookup(d, d[j].0) == Some(d[j].1)
  {
    if j > 0 {
      assert Keys(d)[0] != Keys(d)[j];
      assert d[1..][j - 1] == d[j];
      assert Keys(d[1..]) == Keys(d)[1..];
      LookupAt(d[1..], j - 1);
    }
  }

  /** Assigning an existing key replaces its entry in place. */
  lemma {:induction false} PutExisting<K, V>(d: Dict<K, V>, k: K, v: V, j: nat)
    requires Distinct(Keys(d))
    requires j < |d| && d[j].0 == k
    ensures Put(d, k, v) == d[j := (k, v)]
  {
    if j > 0 {
      var t := d[1..];
      DistinctTail(d);
      DistinctHead(d, j);
      PutExisting(t, k, v, j - 1);
      PutCons(d, k, v);
      ConsUpdate(d[0], t, j - 1, (k, v));
    } else {
      assert d[j := (k, v)] == [(k, v)] + d[1..];
    }
  }

  lemma DistinctTail<K, V>(d: Dict<K, V>)
    requires Distinct(Keys(d))
    requires d != []
    ensures Distinct(Keys(d[1..]))
  {
    var ks := Keys(d);
    var ts := Keys(d[1..]);
    assert ts == ks[1..];
  }

  lemma DistinctHead<K, V>(d: Dict<K, V>, j: nat)
    requires Distinct(Keys(d))
    requires 0 < j < |d|
    ensures d[0].0 != d[j].0 && d[1..][j - 1] == d[j]
  {
    assert Keys(d)[0] != Keys(d)[j];
  }

  lemma PutCons<K, V>(d: Dict<K, V>, k: K, v: V)
    requires d != [] && d[0].0 != k
    ensures Put(d, k, v) == [d[0]] + Put(d[1..], k, v)
    ensures d == [d[0]] + d[1..]
  {
  }

  lemma ConsUpdate<T>(x: T, t: seq<T>, j: nat, e: T)
    requires j < |t|
    ensures ([x] + t)[j + 1 := e] == [x] + t[j := e]
  {
  }

  /** Assigning a new key appends an entry. */
  lemma {:induction false} PutNew<K, V>(d: Dict<K, V>, k: K, v: V)
    requires k !in Keys(d)
    ensures Put(d, k, v) == d + [(k, v)]
  {
    if d != [] {
      assert Keys(d)[0] == d[0].0;
      assert Keys(d[1..]) == Keys(d)[1..];
      PutNew(d[1..], k, v);
      assert Put(d, k, v) == [d[0]] + Put(d[1..], k, v);
      AppendAssoc([d[0]], d[1..], [(k, v)]);
      assert [d[0]] + d[1..] == d;
    }
  }
}
