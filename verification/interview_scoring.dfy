/** How an interview analysis returned by the language model becomes stored
  * scores. Real and mock interviews read the reply the same way: five
  * sub-scores, each `Math.max(0, Math.min(2, parseInt(x) || 0))`, whose sum
  * is the relevance score, and three text fields with fixed fallbacks. */
module InterviewScoring {
  import opened Wrappers
  import opened JsStrings
  import opened JsonValues

  const MaxSubScore: int := 2

  /** `String(x)` of a property that may be missing (`undefined`). */
  function ArgumentText(v: Option<Json>): string {
    if v.None? then "undefined" else ToJsString(v.value)
  }

  /** `Math.max(0, Math.min(2, n))`. */
  function Clamp(n: int): (r: int)
    ensures 0 <= r <= MaxSubScore
    ensures 0 <= n <= MaxSubScore ==> r == n
    ensures n < 0 ==> r == 0
    ensures n > MaxSubScore ==> r == MaxSubScore
  {
    if n > MaxSubScore then MaxSubScore else if n < 0 then 0 else n
  }

  /** One sub-score: `parseInt` of the property, `NaN` (and `-0`) read as
    * `0`, then clamped. */
  function SubScore(v: Option<Json>): (s: int)
    ensures 0 <= s <= MaxSubScore
    ensures ParseInt(ArgumentText(v)).None? ==> s == 0
    ensures ParseInt(ArgumentText(v)).Some? ==> s == Clamp(ParseInt(ArgumentText(v)).value)
  {
    var n := ParseInt(ArgumentText(v));
    Clamp(if n.Some? then n.value else 0)
  }

  /** A reply that states an in-range integer score keeps it. */
  lemma SubScoreOfInteger(n: int)
    requires 0 <= n <= MaxSubScore
    ensures SubScore(Some(JNumber(IntToString(n)))) == n
    ensures SubScore(Some(JString(IntToString(n)))) == n
  {
    ParseIntOfIntToString(n);
  }

  /** A missing property scores 0. */
  lemma MissingSubScore()
    ensures SubScore(None) == 0
  {
    var u := "undefined";
    assert !IsSpace(u[0]) && u[0] != '-' && u[0] != '+' && !IsDigit(u[0]);
    TrimStartOfNonSpace(u);
    assert DigitRun(u, 10) == "";
  }

  /** A `null` property scores 0. */
  lemma NullSubScore()
    ensures SubScore(Some(JNull)) == 0
  {
    var u := "null";
    assert !IsSpace(u[0]) && u[0] != '-' && u[0] != '+' && !IsDigit(u[0]);
    TrimStartOfNonSpace(u);
    assert DigitRun(u, 10) == "";
  }

  datatype Scores = Scores(
    technical: int,
    communication: int,
    problemSolving: int,
    jobRelevance: int,
    depthOfKnowledge: int)

  predicate InRange(s: Scores) {
    && 0 <= s.technical <= MaxSubScore
    && 0 <= s.communication <= MaxSubScore
    && 0 <= s.problemSolving <= MaxSubScore
    && 0 <= s.jobRelevance <= MaxSubScore
    && 0 <= s.depthOfKnowledge <= MaxSubScore
  }

  /** The stored `relevanceScore`: the sum of the five sub-scores. */
  function Total(s: Scores): (t: int)
    ensures InRange(s) ==> 0 <= t <= 5 * MaxSubScore
    ensures InRange(s) && t == 5 * MaxSubScore ==> s == Scores(2, 2, 2, 2, 2)
    ensures InRange(s) && t == 0 ==> s == Scores(0, 0, 0, 0, 0)
  {
    s.technical + s.communication + s.problemSolving + s.jobRelevance + s.depthOfKnowledge
  }

  /** The five sub-scores read from a reply. */
  function ScoresOf(reply: Json): (s: Scores)
    ensures InRange(s)
  {
    Scores(
      SubScore(Get(reply, "technicalScore")),
      SubScore(Get(reply, "communicationScore")),
      SubScore(Get(reply, "problemSolvingScore")),
      SubScore(Get(reply, "jobRelevanceScore")),
      SubScore(Get(reply, "depthOfKnowledgeScore")))
  }

  /** What the analysis writes back to the interview row. */
  datatype Analysis = Analysis(
    relevanceScore: int,
    relevanceComment: Json,
    scores: Scores,
    strengths: Json,
    weaknesses: Json)

  /** Reading a reply: `None` when the reply could not be obtained or parsed,
    * or parsed to `null` (property access on it throws); every such failure
    * surfaces as the same "Failed to analyze" error. */
  function ReadAnalysis(reply: Option<Json>): (r: Option<Analysis>)
    ensures r.None? <==> reply.None? || reply.value.JNull?
    ensures r.Some? ==> InRange(r.value.scores)
    ensures r.Some? ==> r.value.relevanceScore == Total(r.value.scores)
    ensures r.Some? ==> 0 <= r.value.relevanceScore <= 5 * MaxSubScore
    ensures r.Some? ==> JsonTruthy(r.value.relevanceComment)
    ensures r.Some? ==> JsonTruthy(r.value.strengths) && JsonTruthy(r.value.weaknesses)
  {
    if reply.None? || reply.value.JNull? then None
    else
      var v := reply.value;
      var scores := ScoresOf(v);
      Some(Analysis(
        Total(scores),
        OrElse(Get(v, "relevancecomment"), JString("No analysis available")),
        scores,
        OrElse(Get(v, "strengths"), JString("No strengths available")),
        OrElse(Get(v, "weaknesses"), JString("No weaknesses available"))))
  }

  /** A reply that states all five scores as in-range integers is stored
    * with exactly those scores and their sum. */
  lemma WellFormedReplyKept(v: Json, t: int, c: int, p: int, j: int, d: int)
    requires 0 <= t <= 2 && 0 <= c <= 2 && 0 <= p <= 2 && 0 <= j <= 2 && 0 <= d <= 2
    requires Get(v, "technicalScore") == Some(JNumber(IntToString(t)))
    requires Get(v, "communicationScore") == Some(JNumber(IntToString(c)))
    requires Get(v, "problemSolvingScore") == Some(JNumber(IntToString(p)))
    requires Get(v, "jobRelevanceScore") == Some(JNumber(IntToString(j)))
    requires Get(v, "depthOfKnowledgeScore") == Some(JNumber(IntToString(d)))
    ensures ReadAnalysis(Some(v)).Some?
    ensures ReadAnalysis(Some(v)).value.scores == Scores(t, c, p, j, d)
    ensures ReadAnalysis(Some(v)).value.relevanceScore == t + c + p + j + d
  {
    SubScoreOfInteger(t);
    SubScoreOfInteger(c);
    SubScoreOfInteger(p);
    SubScoreOfInteger(j);
    SubScoreOfInteger(d);
  }

  /** An object reply without any score scores 0 in every category. */
  lemma ScorelessReplyScoresZero(v: Json)
    requires v.JObject?
    requires Get(v, "technicalScore").None? && Get(v, "communicationScore").None?
    requires Get(v, "problemSolvingScore").None? && Get(v, "jobRelevanceScore").None?
    requires Get(v, "depthOfKnowledgeScore").None?
    ensures ReadAnalysis(Some(v)) == Some(Analysis(
      0,
      OrElse(Get(v, "relevancecomment"), JString("No analysis available")),
      Scores(0, 0, 0, 0, 0),
      OrElse(Get(v, "strengths"), JString("No strengths available")),
      OrElse(Get(v, "weaknesses"), JString("No weaknesses available"))))
  {
    MissingSubScore();
  }
}
