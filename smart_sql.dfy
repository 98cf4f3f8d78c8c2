/** The smart-SQL node: `clean_sql`, which strips Markdown code fences from
    the generated query, and `execute_sql`, which makes up to two attempts
    at generating and running a query and renders the rows of the first
    attempt that succeeds. Query generation and execution are one outcome
    per attempt, given as a parameter. */
module SmartSql {
  import opened Common
  import opened GraphState

  // ---------------------------------------------------------------------
  // clean_sql
  // ---------------------------------------------------------------------

  /** `^` under MULTILINE: the start of the text or just after a newline. */
  predicate AtLineStart(s: string, i: int) {
    i == 0 || (0 < i <= |s| && s[i - 1] == '\n')
  }

  /** `$` under MULTILINE: the end of the text or just before a newline. */
  predicate AtLineEnd(s: string, i: int) {
    i == |s| || (0 <= i < |s| && s[i] == '\n')
  }

  /** "```" at position i. */
  predicate FenceAt(s: string, i: int) {
    0 <= i && i + 3 <= |s| && s[i] == '`' && s[i + 1] == '`' && s[i + 2] == '`'
  }

  /** "sql" at position i. */
  predicate SqlTagAt(s: string, i: int) {
    0 <= i && i + 3 <= |s| && s[i] == 's' && s[i + 1] == 'q' && s[i + 2] == 'l'
  }

  /** The text from position i on with every match of
      `^```(?:sql)?|```$` removed, matches found left to right without
      overlap: a fence at a line start (taking a following "sql" with it)
      is tried first, then a fence at a line end. */
  function Unfence(s: string, i: nat): string
    requires i <= |s|
    decreases |s| - i
  {
    if i == |s| then ""
    else if AtLineStart(s, i) && FenceAt(s, i) then
      (if SqlTagAt(s, i + 3) then Unfence(s, i + 6) else Unfence(s, i + 3))
    else if FenceAt(s, i) && AtLineEnd(s, i + 3) then Unfence(s, i + 3)
    else [s[i]] + Unfence(s, i + 1)
  }

  /** `clean_sql`. The result never starts or ends with whitespace. */
  function CleanSql(sql: string): (r: string)
    ensures r == [] || (!IsSpace(r[0]) && !IsSpace(r[|r| - 1]))
  {
    Strip(Unfence(Strip(sql), 0))
  }

  /** A character other than a backtick passes through the fence removal. */
  lemma UnfenceStep(s: string, i: nat)
    requires i < |s| && s[i] != '`'
    ensures Unfence(s, i) == [s[i]] + Unfence(s, i + 1)
  {
  }

  /** A stretch without backticks passes through the fence removal as it
      is. */
  lemma {:induction false} UnfenceKeeps(s: string, i: nat, j: nat)
    requires i <= j <= |s|
    requires forall k :: i <= k < j ==> s[k] != '`'
    ensures Unfence(s, i) == s[i..j] + Unfence(s, j)
    decreases j - i
  {
    if i < j {
      UnfenceStep(s, i);
      UnfenceKeeps(s, i + 1, j);
      AppendAssoc([s[i]], s[i + 1..j], Unfence(s, j));
      assert [s[i]] + s[i + 1..j] == s[i..j];
    }
  }

  /** Stripping twice is stripping once. */
  lemma StripTwice(s: string)
    ensures Strip(Strip(s)) == Strip(s)
  {
    StripNoSpace(Strip(s));
  }

  /** Stripping keeps a text free of backticks. */
  lemma StripNoBacktick(s: string)
    requires forall k :: 0 <= k < |s| ==> s[k] != '`'
    ensures forall k :: 0 <= k < |Strip(s)| ==> Strip(s)[k] != '`'
  {
    var l := LStrip(s);
    var r := RStrip(l);
    assert Strip(s) == r;
    forall k | 0 <= k < |r|
      ensures r[k] != '`'
    {
      assert r[k] == l[k] == s[|s| - |l| + k];
    }
  }

  /** Text without a backtick is only trimmed. */
  lemma CleanSqlNoFence(sql: string)
    requires forall k :: 0 <= k < |sql| ==> sql[k] != '`'
    ensures CleanSql(sql) == Strip(sql)
  {
    StripNoBacktick(sql);
    UnfenceNoBacktick(Strip(sql));
    StripTwice(sql);
  }

  /** Fence removal leaves a text without backticks as it is. */
  lemma UnfenceNoBacktick(t: string)
    requires forall k :: 0 <= k < |t| ==> t[k] != '`'
    ensures Unfence(t, 0) == t
  {
    UnfenceKeeps(t, 0, |t|);
    assert t[0..|t|] == t;
  }

  /** A body wrapped in a fence line and closed by a fence line: "```" or
      "```sql", a newline, the body, a newline, "```". */
  function Fenced(tag: string, body: string): string {
    "```" + tag + "\n" + body + "\n```"
  }

  /** The fences around a query are removed: a trimmed body without
      backticks, fenced with "```" or "```sql", comes back as it was. */
  lemma CleanSqlFenced(tag: string, body: string)
    requires tag == "" || tag == "sql"
    requires body != [] && !IsSpace(body[0]) && !IsSpace(body[|body| - 1])
    requires forall k :: 0 <= k < |body| ==> body[k] != '`'
    ensures CleanSql(Fenced(tag, body)) == body
  {
    FencedClean(tag, body);
    FencedUnfence(tag, body);
    StripNewlines(body);
  }

  /** A fenced text starts and ends with a backtick, so the outer trim
      leaves it as it is. */
  lemma FencedClean(tag: string, body: string)
    ensures CleanSql(Fenced(tag, body)) == Strip(Unfence(Fenced(tag, body), 0))
  {
    var s := Fenced(tag, body);
    assert |s| >= 7 && s[0] == '`' && s[|s| - 1] == '`';
    StripNoSpace(s);
  }

  /** The fence removal leaves the body between its two newlines. */
  lemma FencedUnfence(tag: string, body: string)
    requires tag == "" || tag == "sql"
    requires forall k :: 0 <= k < |body| ==> body[k] != '`'
    ensures Unfence(Fenced(tag, body), 0) == "\n" + body + "\n"
  {
    var s := Fenced(tag, body);
    var n := 3 + |tag|;
    var e := n + 1 + |body| + 1;
    assert |s| == e + 3;
    assert FenceAt(s, 0);
    if tag == "sql" {
      assert SqlTagAt(s, 3);
    } else {
      assert s[3] == '\n';
    }
    assert Unfence(s, 0) == Unfence(s, n);
    forall k | n <= k < e
      ensures s[k] != '`'
    {
      if n < k < e - 1 {
        assert s[k] == body[k - n - 1];
      }
    }
    UnfenceKeeps(s, n, e);
    assert s[n..e] == "\n" + body + "\n";
    assert s[e - 1] == '\n' && FenceAt(s, e);
    assert Unfence(s, e) == Unfence(s, e + 3) == "";
  }

  lemma LStripNewline(x: string)
    requires x != [] && !IsSpace(x[0])
    ensures LStrip("\n" + x) == x
  {
    var m := "\n" + x;
    assert IsSpace(m[0]);
    assert m[1..] == x;
  }

  lemma RStripNewline(x: string)
    requires x != [] && !IsSpace(x[|x| - 1])
    ensures RStrip(x + "\n") == x
  {
    var m := x + "\n";
    assert IsSpace(m[|m| - 1]);
    assert m[..|m| - 1] == x;
  }

  /** Trimming drops the newlines around a body that is already trimmed. */
  lemma StripNewlines(body: string)
    requires body != [] && !IsSpace(body[0]) && !IsSpace(body[|body| - 1])
    ensures Strip("\n" + body + "\n") == body
  {
    var x := body + "\n";
    AppendAssoc("\n", body, "\n");
    LStripNewline(x);
    RStripNewline(body);
    StripNoSpace(body);
  }

  // ---------------------------------------------------------------------
  // Row rendering
  // ---------------------------------------------------------------------

  /** A result row: its columns in order, each with its value. */
  type Row = Dict<string, Value>

  /** One column as `key: value`. */
  function Cell(column: (string, Value)): string {
    column.0 + ": " + Str(column.1)
  }

  /** The columns of a row, with no separator. */
  function Cells(row: Row): string {
    FlatMap(row, Cell)
  }

  /** One row as its own line. */
  function Line(row: Row): string {
    Cells(row) + "\n"
  }

  /** All rows, each as its cells followed by a newline. */
  function Rendered(rows: seq<Row>): string {
    FlatMap(rows, Line)
  }

  /** One more element at the end adds its part at the end. */
  lemma FlatMapSnoc<T, U>(xs: seq<T>, i: nat, f: T -> seq<U>)
    requires i < |xs|
    ensures FlatMap(xs[..i + 1], f) == FlatMap(xs[..i], f) + f(xs[i])
  {
    assert xs[..i + 1][..i] == xs[..i];
  }

  /** The same, behind a prefix. */
  lemma FlatMapExtend<T, U>(pre: seq<U>, xs: seq<T>, i: nat, f: T -> seq<U>)
    requires i < |xs|
    ensures pre + FlatMap(xs[..i + 1], f) == (pre + FlatMap(xs[..i], f)) + f(xs[i])
  {
    FlatMapSnoc(xs, i, f);
    AppendAssoc(pre, FlatMap(xs[..i], f), f(xs[i]));
  }


  /** The column loop: appends the cells of one row. */
  method AppendCells(result: string, row: Row) returns (r: string)
    ensures r == result + Cells(row)
  {
    r := result;
    var i := 0;
    while i < |row|
      invariant 0 <= i <= |row|
      invariant r == result + FlatMap(row[..i], Cell)
    {
      FlatMapExtend(result, row, i, Cell);
      r := r + Cell(row[i]);
      i := i + 1;
    }
    assert row[..i] == row;
  }

  /** The row loop's step: the rendering of one more row is its cells and a
      newline. */
  lemma LineAppended(result: string, rows: seq<Row>, i: nat, before: string, after: string)
    requires i < |rows|
    requires before == result + FlatMap(rows[..i], Line)
    requires after == before + Cells(rows[i]) + "\n"
    ensures after == result + FlatMap(rows[..i + 1], Line)
  {
    FlatMapExtend(result, rows, i, Line);
    AppendAssoc(before, Cells(rows[i]), "\n");
  }

  /** The row loop: appends every row and its newline. */
  method AppendRows(result: string, rows: seq<Row>) returns (r: string)
    ensures r == result + Rendered(rows)
  {
    r := result;
    var i := 0;
    while i < |rows|
      invariant 0 <= i <= |rows|
      invariant r == result + FlatMap(rows[..i], Line)
    {
      ghost var before := r;
      r := AppendCells(r, rows[i]);
      r := r + "\n";
      LineAppended(result, rows, i, before, r);
      i := i + 1;
    }
    assert rows[..i] == rows;
  }

  /** Rendering distributes over concatenation: columns follow one another
      with no separator, and rows each end their own line. */
  lemma RenderingAppends(a: Row, b: Row, x: seq<Row>, y: seq<Row>)
    ensures Cells(a + b) == Cells(a) + Cells(b)
    ensures Rendered(x + y) == Rendered(x) + Rendered(y)
  {
    FlatMapAppend(a, b, Cell);
    FlatMapAppend(x, y, Line);
  }

  /** A column "k" holding the string "v" renders as "k: v", right after
      the columns before it. */
  lemma CellRendering(a: Row)
    ensures Cells([]) == "" && Cells(a + [("k", VStr("v"))]) == Cells(a) + "k: v"
  {
    FlatMapAppend(a, [("k", VStr("v"))], Cell);
    assert FlatMap([("k", VStr("v"))], Cell) == Cell(("k", VStr("v")));
  }

  /** The number of times c occurs in s. */
  function CountChar(s: string, c: char): nat {
    if s == [] then 0 else CountChar(s[..|s| - 1], c) + (if s[|s| - 1] == c then 1 else 0)
  }

  lemma {:induction false} CountAppend(a: string, b: string, c: char)
    ensures CountChar(a + b, c) == CountChar(a, c) + CountChar(b, c)
    decreases |b|
  {
    if b == [] {
      assert a + b == a;
    } else {
      assert (a + b)[..|a + b| - 1] == a + b[..|b| - 1];
      CountAppend(a, b[..|b| - 1], c);
    }
  }

  /** When no cell holds a newline, the rendering has exactly one line per
      row. */
  lemma {:induction false} OneLinePerRow(rows: seq<Row>)
    requires forall i :: 0 <= i < |rows| ==> CountChar(Cells(rows[i]), '\n') == 0
    ensures CountChar(Rendered(rows), '\n') == |rows|
  {
    if rows != [] {
      var init := rows[..|rows| - 1];
      var last := rows[|rows| - 1];
      assert forall i :: 0 <= i < |init| ==> init[i] == rows[i];
      OneLinePerRow(init);
      assert Rendered(rows) == Rendered(init) + Line(last);
      CountAppend(Rendered(init), Line(last), '\n');
      CountAppend(Cells(last), "\n", '\n');
      assert CountChar("\n", '\n') == 1 by { assert "\n"[..0] == ""; }
    }
  }

  // ---------------------------------------------------------------------
  // execute_sql
  // ---------------------------------------------------------------------

  /** `SQL_GENERATION_MAX_RETRIES`. */
  const MaxAttempts: nat := 2

  /** The first attempt at or after `from` and before `limit` that
      succeeds; `run(question, k)` is the outcome of generating and running
      the query at attempt k (an exception is an `Err`). */
  function FirstSuccess(question: string, run: (string, nat) -> Result<seq<Row>>, from: nat, limit: nat): (r: Option<nat>)
    decreases limit - from
  {
    if from >= limit then None
    else if run(question, from).Ok? then Some(from)
    else FirstSuccess(question, run, from + 1, limit)
  }

  /** The first success is a success, and everything before it failed;
      without a success every attempt failed. */
  lemma {:induction false} FirstSuccessSpec(question: string, run: (string, nat) -> Result<seq<Row>>, from: nat, limit: nat)
    ensures FirstSuccess(question, run, from, limit).Some? ==>
              var k := FirstSuccess(question, run, from, limit).value;
              from <= k < limit && run(question, k).Ok?
              && forall j :: from <= j < k ==> run(question, j).Err?
    ensures FirstSuccess(question, run, from, limit).None? ==>
              forall j :: from <= j < limit ==> run(question, j).Err?
    decreases limit - from
  {
    if from < limit && run(question, from).Err? {
      FirstSuccessSpec(question, run, from + 1, limit);
    }
  }

  /** The text `execute_sql` ends with: the rows of the first successful
      attempt, or "" when every attempt failed. */
  function SqlResult(question: string, run: (string, nat) -> Result<seq<Row>>): string {
    match FirstSuccess(question, run, 0, MaxAttempts)
    case None => ""
    case Some(k) => Rendered(run(question, k).value)
  }

  /** The attempt loop: each attempt starts from an empty result, a success
      renders its rows and stops, a failure is logged and the next attempt
      made. Returns the result and the number of attempts made. */
  method Attempts(question: string, run: (string, nat) -> Result<seq<Row>>) returns (result: string, attempts: nat)
    ensures result == SqlResult(question, run)
    ensures 1 <= attempts <= MaxAttempts
    ensures forall j :: 0 <= j < attempts - 1 ==> run(question, j).Err?
    ensures attempts < MaxAttempts ==> run(question, attempts - 1).Ok?
    ensures run(question, attempts - 1).Ok? ==> result == Rendered(run(question, attempts - 1).value)
  {
    FirstSuccessSpec(question, run, 0, MaxAttempts);
    result := "";
    attempts := 0;
    var k: nat := 0;
    while k < MaxAttempts
      invariant k <= MaxAttempts && attempts == k && result == ""
      invariant forall j :: 0 <= j < k ==> run(question, j).Err?
      invariant FirstSuccess(question, run, 0, MaxAttempts) == FirstSuccess(question, run, k, MaxAttempts)
    {
      result := "";
      attempts := attempts + 1;
      var outcome := run(question, k);
      if outcome.Ok? {
        result := AppendRows(result, outcome.value);
        return;
      }
      k := k + 1;
    }
  }

  /** `execute_sql` of the workflow pipeline: the question is the last
      message, and the result comes back as one system message. */
  method ExecuteSql(s: State, run: (string, nat) -> Result<seq<Row>>) returns (r: Result<Update>)
    ensures s.messages == [] ==> r == Err("IndexError")
    ensures s.messages != [] ==>
              r == Ok(Update([Message("system", SqlResult(s.messages[|s.messages| - 1].content, run), None)], map[]))
  {
    var last := Nth(s.messages, -1);
    if last.Err? {
      return Err(last.error);
    }
    var result, _ := Attempts(last.value.content, run);
    return Ok(Update([Message("system", result, None)], map[]));
  }

  /** `execute_sql` of the agent graph: the same attempts, the result as a
      user message. */
  method ExecuteSqlAgent(s: State, run: (string, nat) -> Result<seq<Row>>) returns (r: Result<Update>)
    ensures s.messages == [] ==> r == Err("IndexError")
    ensures s.messages != [] ==>
              r == Ok(Update([UserMessage(SqlResult(s.messages[|s.messages| - 1].content, run))], map[]))
  {
    var last := Nth(s.messages, -1);
    if last.Err? {
      return Err(last.error);
    }
    var result, _ := Attempts(last.value.content, run);
    return Ok(Update([UserMessage(result)], map[]));
  }

  /** When both attempts fail the result is empty; when the first succeeds
      the second is never made and its outcome does not matter. */
  lemma SqlResultCases(question: string, run: (string, nat) -> Result<seq<Row>>, run2: (string, nat) -> Result<seq<Row>>)
    ensures run(question, 0).Err? && run(question, 1).Err? ==> SqlResult(question, run) == ""
    ensures run(question, 0).Ok? ==> SqlResult(question, run) == Rendered(run(question, 0).value)
    ensures run(question, 0).Err? && run(question, 1).Ok? ==> SqlResult(question, run) == Rendered(run(question, 1).value)
    ensures run(question, 0).Ok? && run2(question, 0) == run(question, 0) ==> SqlResult(question, run2) == SqlResult(question, run)
  {
  }
}
