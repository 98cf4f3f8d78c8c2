/** The yes/no relevance grades and the routing decisions taken on them:
    `safe_parse_grade`, `grade_query` (is the question in the domain?) and
    `grade_documents` (are the retrieved documents relevant, or should the
    question be rewritten, within a bounded number of rewrites?). */
module Grading {
  import opened Common
  import opened EnvConfig
  import opened GraphState

  // ---------------------------------------------------------------------
  // safe_parse_grade
  // ---------------------------------------------------------------------

  /** The reply read as a `binary_score`: the structured parse when it
      succeeds (`decode`, standing for the JSON model validation), the
      substring test on the lowercased reply otherwise. */
  function SafeParseGrade(text: string, decode: string -> Option<string>): string {
    match decode(text)
    case Some(score) => score
    case None => if Contains(Lower(text), "yes") then "yes" else "no"
  }

  /** "y", "e", "s" in any case, one after the other, at position i. */
  predicate YesAt(text: string, i: int) {
    0 <= i && i + 3 <= |text|
    && LowerChar(text[i]) == 'y' && LowerChar(text[i + 1]) == 'e' && LowerChar(text[i + 2]) == 's'
  }

  /** The fallback finds "yes" exactly when the reply spells it somewhere,
      in any mix of case. */
  lemma LowerContainsYes(text: string)
    ensures Contains(Lower(text), "yes") <==> exists i :: YesAt(text, i)
  {
    LowerChars(text);
    var l := Lower(text);
    if Contains(l, "yes") {
      var p := FindFrom(l, "yes", 0).value;
      var w := l[p..p + 3];
      assert w == "yes";
      assert w[0] == l[p] && w[1] == l[p + 1] && w[2] == l[p + 2];
      assert YesAt(text, p);
    }
    if exists i :: YesAt(text, i) {
      var i :| YesAt(text, i);
      var w := l[i..i + 3];
      assert w[0] == 'y' && w[1] == 'e' && w[2] == 's';
      assert w == "yes";
      OccursContains(l, i, "yes");
    }
  }

  /** A structured reply is taken as given; a reply that does not decode is
      graded "yes" iff it spells "yes" in any case, "no" otherwise, so the
      fallback never yields anything else. */
  lemma SafeParseGradeSpec(text: string, decode: string -> Option<string>)
    ensures decode(text).Some? ==> SafeParseGrade(text, decode) == decode(text).value
    ensures decode(text).None? ==> SafeParseGrade(text, decode) in {"yes", "no"}
    ensures decode(text).None? ==> (SafeParseGrade(text, decode) == "yes" <==> exists i :: YesAt(text, i))
  {
    LowerContainsYes(text);
  }

  // ---------------------------------------------------------------------
  // grade_query
  // ---------------------------------------------------------------------

  /** Routes the question: keyword extraction when it is graded in the
      domain, the general answer otherwise. `reply` is the validation
      model's reply for a question. */
  function GradeQuery(messages: seq<Message>, reply: string -> string, decode: string -> Option<string>): Result<string> {
    match Nth(messages, 0)
    case Err(e) => Err(e)
    case Ok(question) =>
      if SafeParseGrade(reply(question.content), decode) == "yes" then Ok("extract_keywords_initial")
      else Ok("generate_intial_answer")
  }

  /** An empty conversation raises IndexError; otherwise the route is one of
      the two labels, keyword extraction exactly for the score "yes" (a
      structured "Yes" or "YES" does not count) and an undecodable reply
      that spells "yes" anywhere. Only the first message is graded. */
  lemma GradeQuerySpec(messages: seq<Message>, reply: string -> string, decode: string -> Option<string>)
    ensures messages == [] ==> GradeQuery(messages, reply, decode) == Err("IndexError")
    ensures messages != [] ==> GradeQuery(messages, reply, decode).Ok?
    ensures messages != [] ==>
              GradeQuery(messages, reply, decode).value in {"extract_keywords_initial", "generate_intial_answer"}
    ensures messages != [] ==>
              (GradeQuery(messages, reply, decode) == Ok("extract_keywords_initial")
               <==> SafeParseGrade(reply(messages[0].content), decode) == "yes")
    ensures messages != [] && decode(reply(messages[0].content)) == Some("Yes") ==>
              GradeQuery(messages, reply, decode) == Ok("generate_intial_answer")
    ensures messages != [] && decode(reply(messages[0].content)).None? ==>
              (GradeQuery(messages, reply, decode) == Ok("extract_keywords_initial")
               <==> exists i :: YesAt(reply(messages[0].content), i))
  {
    if messages != [] {
      SafeParseGradeSpec(reply(messages[0].content), decode);
    }
  }

  /** Two conversations that start with the same question are routed the
      same way, whatever follows. */
  lemma GradeQueryFirstOnly(m1: seq<Message>, m2: seq<Message>, reply: string -> string, decode: string -> Option<string>)
    requires m1 != [] && m2 != [] && m1[0] == m2[0]
    ensures GradeQuery(m1, reply, decode) == GradeQuery(m2, reply, decode)
  {
  }

  // ---------------------------------------------------------------------
  // grade_documents
  // ---------------------------------------------------------------------

  /** `int(os.environ.get("MAX_RETRY_NUMBER_FOR_AGENTS", 3))`. */
  function RetryLimit(env: Environ): (r: Result<int>)
    ensures "MAX_RETRY_NUMBER_FOR_AGENTS" !in env ==> r == Ok(3)
    ensures "MAX_RETRY_NUMBER_FOR_AGENTS" in env ==> r == ParseInt(env["MAX_RETRY_NUMBER_FOR_AGENTS"])
  {
    if "MAX_RETRY_NUMBER_FOR_AGENTS" in env then ParseInt(env["MAX_RETRY_NUMBER_FOR_AGENTS"]) else Ok(3)
  }

  /** The decision for a rewrite count and, below the limit, the grading model's
      score. */
  function GradeDecision(count: int, limit: int, score: string): string {
    if count < limit then (if score == "yes" then "generate_answer" else "rewrite_question")
    else "generate_answer"
  }

  /** `grade_documents`: below the limit the last message is graded against
      the first by `grader(question, context)`; at or past the limit the
      answer is generated without a grader call. */
  function GradeDocuments(s: State, limit: int, grader: (string, string) -> string): Result<string> {
    match IntField(s, "rewrite_count")
    case Err(e) => Err(e)
    case Ok(count) =>
      if count < limit then
        match Nth(s.messages, 0)
        case Err(e) => Err(e)
        case Ok(question) =>
          match Nth(s.messages, -1)
          case Err(e) => Err(e)
          case Ok(context) => Ok(GradeDecision(count, limit, grader(question.content, context.content)))
      else Ok("generate_answer")
  }

  /** The result is one of two labels; exhaustion answers rather than
      refuses; below the limit "yes" answers and anything else rewrites. */
  lemma GradeDocumentsSpec(s: State, limit: int, grader: (string, string) -> string)
    requires "rewrite_count" in s.fields && s.fields["rewrite_count"].FInt?
    ensures s.fields["rewrite_count"].i >= limit ==> GradeDocuments(s, limit, grader) == Ok("generate_answer")
    ensures s.fields["rewrite_count"].i < limit && s.messages == [] ==> GradeDocuments(s, limit, grader) == Err("IndexError")
    ensures s.fields["rewrite_count"].i < limit && s.messages != [] ==>
              GradeDocuments(s, limit, grader) ==
                Ok(if grader(s.messages[0].content, s.messages[|s.messages| - 1].content) == "yes"
                   then "generate_answer" else "rewrite_question")
    ensures GradeDocuments(s, limit, grader).Ok? ==>
              GradeDocuments(s, limit, grader).value in {"generate_answer", "rewrite_question"}
  {
  }

  /** The rewrite loop the decision drives, with each rewrite adding one to
      the count: the number of rewrites before an answer, for the grading model's
      successive scores (the scores run out when the answer is generated). */
  function Rewrites(count: int, limit: int, scores: seq<string>): nat
    decreases |scores|
  {
    if scores == [] || GradeDecision(count, limit, scores[0]) == "generate_answer" then 0
    else 1 + Rewrites(count + 1, limit, scores[1..])
  }

  /** The retry counter bounds the loop: from count c, at most limit - c
      rewrites happen, whatever the grading model says. */
  lemma {:induction false} RewritesBounded(count: int, limit: int, scores: seq<string>)
    ensures Rewrites(count, limit, scores) <= if limit > count then limit - count else 0
    decreases |scores|
  {
    if scores != [] && GradeDecision(count, limit, scores[0]) != "generate_answer" {
      RewritesBounded(count + 1, limit, scores[1..]);
    }
  }

  /** A grader that never says "yes" uses up the whole budget. */
  lemma {:induction false} RewritesExhaust(count: int, limit: int, scores: seq<string>)
    requires forall i :: 0 <= i < |scores| ==> scores[i] != "yes"
    requires |scores| >= limit - count
    ensures Rewrites(count, limit, scores) == if limit > count then limit - count else 0
    decreases |scores|
  {
    if scores != [] && count < limit {
      RewritesExhaust(count + 1, limit, scores[1..]);
    }
  }
}
