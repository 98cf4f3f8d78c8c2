/** `Environment_Config.initialize`: the typed settings read once from the
    process environment. The text settings are copied as they are; the
    conversions that can fail or that shape a value are modelled: the three
    integer ports, the hybrid-search weight, the required-table list and the
    SQL endpoint flag. */
module EnvConfig {
  import opened Common

  /** The process environment. */
  type Environ = map<string, string>

  /** `os.environ.get(name)`. */
  function EnvGet(env: Environ, name: string): Option<string> {
    if name in env then Some(env[name]) else None
  }

  // ---------------------------------------------------------------------
  // int()
  // ---------------------------------------------------------------------

  predicate IsSign(c: char) { c == '-' || c == '+' }

  /** Python `int(s)` on a string: optional surrounding whitespace, an
      optional sign, then one or more digits; anything else raises
      ValueError. */
  function ParseInt(s: string): (r: Result<int>)
    ensures r.Err? ==> r.error == "ValueError"
  {
    ParseStripped(Strip(s))
  }

  /** `int()` on the stripped text. */
  function ParseStripped(t: string): (r: Result<int>)
    ensures r.Err? ==> r.error == "ValueError"
  {
    if |t| >= 2 && IsSign(t[0]) && AllDigits(t[1..]) then
      Ok(if t[0] == '-' then -(DecimalValue(t[1..]) as int) else DecimalValue(t[1..]))
    else if t != [] && AllDigits(t) then Ok(DecimalValue(t))
    else Err("ValueError")
  }

  /** Reading back a rendered non-negative integer. */
  lemma ParseNatRoundTrip(n: nat)
    ensures ParseInt(NatToString(n)) == Ok(n)
  {
    var s := NatToString(n);
    StripNoSpace(s);
    DecimalRoundTrip(n);
  }

  /** Reading back a rendered negative integer. */
  lemma ParseNegRoundTrip(i: int)
    requires i < 0
    ensures ParseInt(IntToString(i)) == Ok(i)
  {
    var n: nat := -i;
    var d := NatToString(n);
    var s := IntToString(i);
    assert s == "-" + d;
    assert s[0] == '-' && s[|s| - 1] == d[|d| - 1];
    assert !IsSpace(s[0]) && !IsSpace(s[|s| - 1]);
    StripNoSpace(s);
    assert s[1..] == d;
    DecimalRoundTrip(n);
    assert |s| >= 2 && IsSign(s[0]) && AllDigits(s[1..]);
    assert DecimalValue(s[1..]) == n;
  }

  /** `int(str(i)) == i` for every integer. */
  lemma ParseIntRoundTrip(i: int)
    ensures ParseInt(IntToString(i)) == Ok(i)
  {
    if i < 0 {
      ParseNegRoundTrip(i);
    } else {
      ParseNatRoundTrip(i);
    }
  }

  /** A value without a single digit is rejected: a non-numeric port makes
      initialisation raise. */
  lemma NonNumericRaises(s: string)
    requires forall k :: 0 <= k < |s| ==> !IsDigit(s[k])
    ensures ParseInt(s) == Err("ValueError")
  {
    var t := Strip(s);
    var i, j := StripSpec(s);
    if t != [] {
      assert !IsDigit(t[|t| - 1]);
    }
  }

  /** `int(os.environ.get(name))`: a missing variable makes `int(None)`
      raise TypeError. */
  function IntVar(env: Environ, name: string): (r: Result<int>)
    ensures name !in env ==> r == Err("TypeError")
    ensures name in env ==> r == ParseInt(env[name])
  {
    if name in env then ParseInt(env[name]) else Err("TypeError")
  }

  /** `float(os.environ.get(name))`, kept as its text: which strings Python
      reads as a float is the parameter `floatOk`. */
  function FloatVar(env: Environ, name: string, floatOk: string -> bool): (r: Result<string>)
    ensures r.Ok? <==> name in env && floatOk(env[name])
    ensures r.Ok? ==> r.value == env[name]
    ensures name !in env ==> r == Err("TypeError")
  {
    if name !in env then Err("TypeError")
    else if floatOk(env[name]) then Ok(env[name])
    else Err("ValueError")
  }

  // ---------------------------------------------------------------------
  // The required tables and the endpoint flag
  // ---------------------------------------------------------------------

  /** What one piece contributes: its stripped form, unless that is empty. */
  function Keep(piece: string): (r: seq<string>)
    ensures |r| <= 1
  {
    if Strip(piece) != "" then [Strip(piece)] else []
  }

  /** `[t.strip() for t in s.split(",") if t.strip()]`. */
  function RequiredTables(s: string): seq<string> {
    FlatMap(Split(s, ','), Keep)
  }

  /** A table name: non-empty, with no whitespace at either end. */
  predicate Trimmed(t: string) {
    t != "" && !IsSpace(t[0]) && !IsSpace(t[|t| - 1])
  }

  lemma KeepMember(piece: string, t: string)
    ensures t in Keep(piece) <==> t != "" && Strip(piece) == t
  {
  }

  /** The tables are exactly the non-empty stripped pieces. */
  lemma KeptMember(pieces: seq<string>, t: string)
    ensures t in FlatMap(pieces, Keep) <==> t != "" && exists k :: 0 <= k < |pieces| && Strip(pieces[k]) == t
  {
    FlatMapMember(pieces, Keep, t);
    if t in FlatMap(pieces, Keep) {
      var k :| 0 <= k < |pieces| && t in Keep(pieces[k]);
      KeepMember(pieces[k], t);
    }
    if t != "" && exists k :: 0 <= k < |pieces| && Strip(pieces[k]) == t {
      var k :| 0 <= k < |pieces| && Strip(pieces[k]) == t;
      KeepMember(pieces[k], t);
    }
  }

  /** Stripping a piece without commas leaves none. */
  lemma StrippedNoComma(piece: string, k: nat)
    requires forall i :: 0 <= i < |piece| ==> piece[i] != ','
    requires k < |Strip(piece)|
    ensures Strip(piece)[k] != ','
  {
    var a, b := StripSpec(piece);
    assert Strip(piece)[k] == piece[a + k];
  }

  /** Kept names are trimmed and, when no piece has a comma, comma-free. */
  lemma KeptShape(pieces: seq<string>, t: string)
    requires forall k, i :: 0 <= k < |pieces| && 0 <= i < |pieces[k]| ==> pieces[k][i] != ','
    requires t in FlatMap(pieces, Keep)
    ensures Trimmed(t) && forall i :: 0 <= i < |t| ==> t[i] != ','
  {
    KeptMember(pieces, t);
    var m :| 0 <= m < |pieces| && Strip(pieces[m]) == t;
    forall i | 0 <= i < |t|
      ensures t[i] != ','
    {
      StrippedNoComma(pieces[m], i);
    }
  }

  /** `KeptMember` and `KeptShape` for the comma pieces of `s`. */
  lemma PiecesKept(s: string, t: string)
    ensures t in FlatMap(Split(s, ','), Keep) <==>
              t != "" && exists k :: 0 <= k < |Split(s, ',')| && Strip(Split(s, ',')[k]) == t
    ensures t in FlatMap(Split(s, ','), Keep) ==> Trimmed(t) && forall i :: 0 <= i < |t| ==> t[i] != ','
  {
    KeptMember(Split(s, ','), t);
    if t in FlatMap(Split(s, ','), Keep) {
      KeptShape(Split(s, ','), t);
    }
  }

  /** The table list: trimmed names without commas, exactly the stripped
      comma pieces that are not empty. */
  lemma RequiredTablesSpec(s: string, t: string)
    ensures t in RequiredTables(s) <==>
              t != "" && exists k :: 0 <= k < |Split(s, ',')| && Strip(Split(s, ',')[k]) == t
    ensures t in RequiredTables(s) ==> Trimmed(t) && forall i :: 0 <= i < |t| ==> t[i] != ','
  {
    PiecesKept(s, t);
  }

  /** Without the separator there is one piece, the whole string. */
  lemma {:induction false} SplitNoSeparator(s: string, sep: char)
    requires forall i :: 0 <= i < |s| ==> s[i] != sep
    ensures Split(s, sep) == [s]
  {
    if s != [] {
      SplitNoSeparator(s[1..], sep);
      assert [s[0]] + s[1..] == s;
    }
  }

  /** A value with no comma names at most one table, its stripped self. */
  lemma SingleTable(s: string)
    requires forall i :: 0 <= i < |s| ==> s[i] != ','
    ensures RequiredTables(s) == (if Strip(s) != "" then [Strip(s)] else [])
  {
    SplitNoSeparator(s, ',');
    var pieces := Split(s, ',');
    assert pieces == [s];
    assert pieces[..0] == [];
    assert FlatMap(pieces, Keep) == FlatMap(pieces[..0], Keep) + Keep(s);
  }

  /** `value.lower() == "true"`. */
  predicate EndpointEnabled(v: string) {
    Lower(v) == "true"
  }

  /** The flag is set exactly by the four letters of "true" in any mix of
      case, with nothing around them. */
  lemma EndpointEnabledSpec(v: string)
    ensures EndpointEnabled(v) <==> |v| == 4 && forall i :: 0 <= i < 4 ==> LowerChar(v[i]) == "true"[i]
  {
    LowerChars(v);
    if |v| == 4 && forall i :: 0 <= i < 4 ==> LowerChar(v[i]) == "true"[i] {
      assert Lower(v) == "true";
    }
  }

  // ---------------------------------------------------------------------
  // initialize
  // ---------------------------------------------------------------------

  /** The settings copied without conversion. */
  const TextVariables: seq<string> := [
    "API_KEY", "BASE_URL", "GENERATION_MODEL", "SQL_GENERATION_MODEL",
    "EMBEDDING_URL", "EMBEDDING_MODEL", "WEAVIATE_HOST", "WEAVIATE_USER_KEY",
    "MONGODB_URI", "MONGODB_INITDB_DEV_USERNAME", "MONGODB_INITDB_DEV_PASSWORD",
    "SOURCE_DOWNLOAD_API_PATH_BASE", "SQL_HOST", "SQL_USER", "SQL_PASS", "SQL_DB",
    "SQL_METADATA_CACHE_PATH"]

  /** The text settings, read without conversion. */
  function TextSettings(env: Environ): map<string, Option<string>> {
    map n | n in TextVariables :: EnvGet(env, n)
  }

  /** Each text setting is its variable's value, or None. */
  lemma TextSettingsSpec(env: Environ, n: string)
    requires n in TextVariables
    ensures n in TextSettings(env) && TextSettings(env)[n] == EnvGet(env, n)
  {
  }

  datatype Config = Config(
    text: map<string, Option<string>>,
    weaviatePort: int,
    weaviateGrpcPort: int,
    hybridSearchAlpha: string,
    sqlPort: int,
    sqlRequiredTables: seq<string>,
    sqlEndpointEnabled: bool)

  /** Reads every variable in the order the source does; the first
      conversion that raises ends initialisation with its error. */
  function Initialize(env: Environ, floatOk: string -> bool): Result<Config> {
    if IntVar(env, "WEAVIATE_PORT").Err? then Err(IntVar(env, "WEAVIATE_PORT").error)
    else if IntVar(env, "WEAVIATE_GRPC_PORT").Err? then Err(IntVar(env, "WEAVIATE_GRPC_PORT").error)
    else if FloatVar(env, "HYBRID_SEARCH_ALPHA", floatOk).Err? then Err(FloatVar(env, "HYBRID_SEARCH_ALPHA", floatOk).error)
    else if IntVar(env, "SQL_PORT").Err? then Err(IntVar(env, "SQL_PORT").error)
    // None.split(",") and None.lower()
    else if "SQL_REQUIRED_TABLES" !in env || "SQL_ENDPOINT_ENABLED" !in env then Err("AttributeError")
    else
      Ok(Config(
        TextSettings(env),
        IntVar(env, "WEAVIATE_PORT").value, IntVar(env, "WEAVIATE_GRPC_PORT").value,
        FloatVar(env, "HYBRID_SEARCH_ALPHA", floatOk).value, IntVar(env, "SQL_PORT").value,
        RequiredTables(env["SQL_REQUIRED_TABLES"]),
        EndpointEnabled(env["SQL_ENDPOINT_ENABLED"])))
  }

  /** Initialisation succeeds iff every port is an integer, the weight is a
      float and both list/flag variables are present; a missing port raises
      TypeError, a non-numeric one ValueError. */
  lemma InitializeOutcome(env: Environ, floatOk: string -> bool)
    ensures Initialize(env, floatOk).Ok? <==>
      (&& "WEAVIATE_PORT" in env && ParseInt(env["WEAVIATE_PORT"]).Ok?
       && "WEAVIATE_GRPC_PORT" in env && ParseInt(env["WEAVIATE_GRPC_PORT"]).Ok?
       && "HYBRID_SEARCH_ALPHA" in env && floatOk(env["HYBRID_SEARCH_ALPHA"])
       && "SQL_PORT" in env && ParseInt(env["SQL_PORT"]).Ok?
       && "SQL_REQUIRED_TABLES" in env && "SQL_ENDPOINT_ENABLED" in env)
    ensures "WEAVIATE_PORT" !in env ==> Initialize(env, floatOk) == Err("TypeError")
    ensures "WEAVIATE_PORT" in env && ParseInt(env["WEAVIATE_PORT"]).Err? ==>
              Initialize(env, floatOk) == Err("ValueError")
    ensures Initialize(env, floatOk).Err? ==>
              Initialize(env, floatOk).error in {"TypeError", "ValueError", "AttributeError"}
  {
  }

  /** A successful configuration: every text setting is the variable's value
      or None, every port reads back the variable, the tables and the flag
      come from their variables. */
  lemma InitializeFields(env: Environ, floatOk: string -> bool)
    requires Initialize(env, floatOk).Ok?
    ensures forall n :: n in TextVariables ==>
              n in Initialize(env, floatOk).value.text && Initialize(env, floatOk).value.text[n] == EnvGet(env, n)
    ensures ParseInt(env["WEAVIATE_PORT"]) == Ok(Initialize(env, floatOk).value.weaviatePort)
    ensures ParseInt(env["WEAVIATE_GRPC_PORT"]) == Ok(Initialize(env, floatOk).value.weaviateGrpcPort)
    ensures ParseInt(env["SQL_PORT"]) == Ok(Initialize(env, floatOk).value.sqlPort)
    ensures Initialize(env, floatOk).value.sqlRequiredTables == RequiredTables(env["SQL_REQUIRED_TABLES"])
    ensures Initialize(env, floatOk).value.sqlEndpointEnabled <==> Lower(env["SQL_ENDPOINT_ENABLED"]) == "true"
  {
    InitializeText(env, floatOk);
    forall n | n in TextVariables
      ensures n in Initialize(env, floatOk).value.text && Initialize(env, floatOk).value.text[n] == EnvGet(env, n)
    {
      TextSettingsSpec(env, n);
    }
    InitializeConverted(env, floatOk);
  }

  lemma InitializeText(env: Environ, floatOk: string -> bool)
    requires Initialize(env, floatOk).Ok?
    ensures Initialize(env, floatOk).value.text == TextSettings(env)
  {
  }

  lemma InitializeConverted(env: Environ, floatOk: string -> bool)
    requires Initialize(env, floatOk).Ok?
    ensures ParseInt(env["WEAVIATE_PORT"]) == Ok(Initialize(env, floatOk).value.weaviatePort)
    ensures ParseInt(env["WEAVIATE_GRPC_PORT"]) == Ok(Initialize(env, floatOk).value.weaviateGrpcPort)
    ensures ParseInt(env["SQL_PORT"]) == Ok(Initialize(env, floatOk).value.sqlPort)
    ensures Initialize(env, floatOk).value.sqlRequiredTables == RequiredTables(env["SQL_REQUIRED_TABLES"])
    ensures Initialize(env, floatOk).value.sqlEndpointEnabled <==> Lower(env["SQL_ENDPOINT_ENABLED"]) == "true"
  {
    assert IntVar(env, "WEAVIATE_PORT").Ok? && IntVar(env, "WEAVIATE_GRPC_PORT").Ok? && IntVar(env, "SQL_PORT").Ok?;
  }

  /** An environment that holds rendered integers for the ports gives back
      exactly those ports. */
  lemma InitializeRenderedPorts(env: Environ, floatOk: string -> bool, p: int, g: int, q: int)
    requires "WEAVIATE_PORT" in env && env["WEAVIATE_PORT"] == IntToString(p)
    requires "WEAVIATE_GRPC_PORT" in env && env["WEAVIATE_GRPC_PORT"] == IntToString(g)
    requires "SQL_PORT" in env && env["SQL_PORT"] == IntToString(q)
    requires "HYBRID_SEARCH_ALPHA" in env && floatOk(env["HYBRID_SEARCH_ALPHA"])
    requires "SQL_REQUIRED_TABLES" in env && "SQL_ENDPOINT_ENABLED" in env
    ensures Initialize(env, floatOk).Ok?
    ensures Initialize(env, floatOk).value.weaviatePort == p
    ensures Initialize(env, floatOk).value.weaviateGrpcPort == g
    ensures Initialize(env, floatOk).value.sqlPort == q
  {
    ParseIntRoundTrip(p);
    ParseIntRoundTrip(g);
    ParseIntRoundTrip(q);
  }
}
