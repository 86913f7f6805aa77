/** Mock interviews on the back end: the premium gate, starting an
  * interview, saving its transcript, and analysing it. The database is a
  * snapshot passed in; a write is returned as the new row. */
module MockInterviews {
  import opened Wrappers
  import opened JsStrings
  import opened Seqs
  import opened JsonValues
  import opened HttpErrors
  import opened InterviewScoring
  import opened ResumeLookup
  import InterviewSession

  // The error messages the service answers with.
  const TooFewAnswersMessage := "Insufficient conversation data for analysis. Please conduct a longer interview."
  const MockPremiumMessage := "Mock interviews are available only to users with mock interviews premium"
  const NoMockHistoryMessage := "No conversation history found for this mock interview"
  const NotAnalystOfMockMessage := "Not authorized to analyze this mock interview"
  const NotOwnerOfMockMessage := "Not authorized to update this mock interview"
  const CandidatesOnlyMessage := "Only candidates can access mock interviews"
  const MockAnalysisFailedMessage := "Failed to analyze mock interview"
  const MockAnalyzedMessage := "Mock interview already analyzed"

  /** The user fields the premium gate selects. */
  datatype UserAccess = UserAccess(isPremium: bool, isMockInterviewsPremium: bool, roleCode: Option<string>)

  /** One `mockInterview` row. */
  datatype MockInterview = MockInterview(
    id: string,
    userId: string,
    jobId: string,
    conversationHistory: Option<string>,
    relevanceScore: Option<int>,
    analysis: Option<Analysis>,
    answerFeedback: Option<Json>)

  datatype Tables = Tables(
    users: map<string, UserAccess>,
    jobs: set<string>,
    interviews: seq<MockInterview>)

  const MinCandidateResponses: nat := 3

  /** `ensureMockInterviewPremium`. */
  function EnsurePremium(users: map<string, UserAccess>, userId: string): (r: Result<(), HttpError>)
    ensures r.Ok? <==> userId in users && users[userId].roleCode == Some("CANDIDATE")
                       && (users[userId].isPremium || users[userId].isMockInterviewsPremium)
    ensures userId !in users ==> r == Err(NotFound("User not found"))
    ensures r.Err? ==> r.error.status == 404 || r.error.status == 403
  {
    if userId !in users then Err(NotFound("User not found"))
    else
      var u := users[userId];
      if u.roleCode != Some("CANDIDATE") then Err(Forbidden(CandidatesOnlyMessage))
      else if !u.isPremium && !u.isMockInterviewsPremium then
        Err(Forbidden(MockPremiumMessage))
      else Ok(())
  }

  /** The role check comes first: a premium recruiter or administrator is
    * refused for the role, not for the plan. */
  lemma PremiumNonCandidateRefused(users: map<string, UserAccess>, userId: string)
    requires userId in users && users[userId].roleCode != Some("CANDIDATE")
    ensures EnsurePremium(users, userId) == Err(Forbidden(CandidatesOnlyMessage))
  {
  }

  /** `startMockInterview`: the user must exist and pass the gate, and the
    * job must exist; the new row has no transcript and no score. */
  method StartMockInterview(t: Tables, jobId: string, userId: string, newId: string)
    returns (r: Result<MockInterview, HttpError>)
    ensures r.Ok? <==> EnsurePremium(t.users, userId).Ok? && jobId in t.jobs
    ensures EnsurePremium(t.users, userId).Err? ==> r == Err(EnsurePremium(t.users, userId).error)
    ensures r.Ok? ==> r.value == MockInterview(newId, userId, jobId, None, None, None, None)
  {
    if userId !in t.users {
      return Err(NotFound("User not found"));
    }
    var gate := EnsurePremium(t.users, userId);
    if gate.Err? {
      return Err(gate.error);
    }
    if jobId !in t.jobs {
      return Err(NotFound("Job not found"));
    }
    r := Ok(MockInterview(newId, userId, jobId, None, None, None, None));
  }

  function FindById(rows: seq<MockInterview>, id: string): (r: Option<nat>)
    ensures r.Some? ==> r.value < |rows| && rows[r.value].id == id
    ensures r.None? <==> forall i :: 0 <= i < |rows| ==> rows[i].id != id
  {
    FindFirst((m: MockInterview) => m.id == id, rows)
  }

  /** `saveConversation`: only the owner may store a transcript, and only
    * the transcript changes. */
  method SaveConversation(rows: seq<MockInterview>, id: string, userId: string, history: string)
    returns (r: Result<MockInterview, HttpError>)
    ensures FindById(rows, id).None? ==> r == Err(NotFound("Mock interview not found"))
    ensures FindById(rows, id).Some? ==>
      var m := rows[FindById(rows, id).value];
      && (m.userId != userId ==> r == Err(Unauthorized(NotOwnerOfMockMessage)))
      && (m.userId == userId ==> r == Ok(m.(conversationHistory := Some(history))))
  {
    var k := FindById(rows, id);
    if k.None? {
      return Err(NotFound("Mock interview not found"));
    }
    var m := rows[k.value];
    if m.userId != userId {
      return Err(Unauthorized(NotOwnerOfMockMessage));
    }
    r := Ok(m.(conversationHistory := Some(history)));
  }

  // ---------------------------------------------------- transcript gate

  predicate MentionsCandidate(line: string) {
    Contains(ToLower(line), "candidate:")
  }

  /** The non-blank lines of the transcript that mention `candidate:` in
    * any case. */
  function CandidateResponses(history: string): (n: nat)
    ensures n <= |Split(history, '\n')|
  {
    Count(MentionsCandidate, Filter(HasText, Split(history, '\n')))
  }

  /** A line followed by a blank line splits into the line, an empty piece
    * and the rest. */
  lemma SplitBlankLine(a: string, rest: string)
    requires '\n' !in a
    ensures Split(a + "\n\n" + rest, '\n') == [a, ""] + Split(rest, '\n')
  {
    assert a + "\n\n" + rest == a + ['\n'] + ("\n" + rest);
    SplitAtFirst(a, '\n', "\n" + rest);
    assert "" + ['\n'] + rest == "\n" + rest;
    SplitAtFirst("", '\n', rest);
  }

  lemma KeepLineDropBlank(a: string, tail: seq<string>)
    requires HasText(a)
    ensures Filter(HasText, [a, ""] + tail) == [a] + Filter(HasText, tail)
  {
    assert ([a, ""] + tail)[1..] == [""] + tail;
    assert ([""] + tail)[1..] == tail;
  }

  /** Splitting a history joined with blank lines on single newlines and
    * dropping blank pieces gives its lines back. */
  lemma {:induction false} SplitHistoryLines(lines: seq<string>)
    requires |lines| >= 1
    requires forall i :: 0 <= i < |lines| ==> HasText(lines[i]) && '\n' !in lines[i]
    ensures Filter(HasText, Split(Join(lines, "\n\n"), '\n')) == lines
    decreases |lines|
  {
    if |lines| == 1 {
      SplitNoSeparator(lines[0], '\n');
    } else {
      var rest := Join(lines[1..], "\n\n");
      assert Join(lines, "\n\n") == lines[0] + "\n\n" + rest;
      SplitBlankLine(lines[0], rest);
      KeepLineDropBlank(lines[0], Split(rest, '\n'));
      SplitHistoryLines(lines[1..]);
      assert [lines[0]] + lines[1..] == lines;
    }
  }

  predicate IsCandidate(m: InterviewSession.Message) { m.role == "user" }

  /** Every candidate line of a formatted conversation mentions
    * `candidate:`. */
  lemma {:induction false} CandidateLinesMention(c: seq<InterviewSession.Message>)
    ensures Count(MentionsCandidate, InterviewSession.Lines(c)) >= Count(IsCandidate, c)
    decreases |c|
  {
    if |c| > 0 {
      CandidateLinesMention(c[1..]);
      if IsCandidate(c[0]) {
        CandidateLineMentions(c[0]);
      }
      assert InterviewSession.Lines(c) == [InterviewSession.Line(c[0])] + InterviewSession.Lines(c[1..]);
    }
  }

  lemma CandidateLineMentions(m: InterviewSession.Message)
    requires IsCandidate(m)
    ensures MentionsCandidate(InterviewSession.Line(m))
  {
    var line := InterviewSession.Line(m);
    assert line == "Candidate: " + m.text;
    assert ToLower(line)[..10] == "candidate:";
    ContainsAt(ToLower(line), "candidate:", 0);
  }

  /** A transcript as the interview page formats it, with at least three
    * candidate turns and no line breaks inside a turn, passes the gate. */
  lemma FormattedTranscriptPasses(c: seq<InterviewSession.Message>)
    requires Count(IsCandidate, c) >= MinCandidateResponses
    requires forall i :: 0 <= i < |c| ==> '\n' !in c[i].text
    ensures CandidateResponses(InterviewSession.FormatConversationHistory(c)) >= MinCandidateResponses
  {
    var lines := InterviewSession.Lines(c);
    forall i | 0 <= i < |lines| ensures HasText(lines[i]) && '\n' !in lines[i] {
      InterviewSession.LinesAt(c, i);
      assert lines[i][0] == 'C' || lines[i][0] == 'I';
      assert !IsSpace(lines[i][0]);
    }
    SplitHistoryLines(lines);
    CandidateLinesMention(c);
  }

  // ------------------------------------------------------------ analysis

  /** The first four guards of `analyzeMockInterview` pass: the caller owns
    * an unscored interview whose transcript has enough candidate lines. */
  predicate HasEnoughAnswers(m: MockInterview, userId: string) {
    && m.userId == userId && m.relevanceScore.None? && Truthy(m.conversationHistory)
    && CandidateResponses(m.conversationHistory.value) >= MinCandidateResponses
  }

  /** `analyzeMockInterview`: six guards in order, then the scores and the
    * per-answer feedback (`[]` when the reply has none) are written.
    * `resume` is the outcome of `getResumeText` for the caller, whose 404
    * errors pass through. */
  method AnalyzeMockInterview(rows: seq<MockInterview>, id: string, userId: string,
                              resume: Result<string, HttpError>, reply: Option<Json>)
    returns (r: Result<MockInterview, HttpError>)
    ensures FindById(rows, id).None? ==> r == Err(NotFound("Mock interview not found"))
    ensures FindById(rows, id).Some? ==>
      var m := rows[FindById(rows, id).value];
      && (m.userId != userId ==> r == Err(Unauthorized(NotAnalystOfMockMessage)))
      && (m.userId == userId && m.relevanceScore.Some? ==> r == Err(BadRequest(MockAnalyzedMessage)))
      && (m.userId == userId && m.relevanceScore.None? && !Truthy(m.conversationHistory) ==>
            r == Err(BadRequest(NoMockHistoryMessage)))
      && (m.userId == userId && m.relevanceScore.None? && Truthy(m.conversationHistory)
          && CandidateResponses(m.conversationHistory.value) < MinCandidateResponses ==>
            r == Err(BadRequest(TooFewAnswersMessage)))
      && (HasEnoughAnswers(m, userId) && resume.Err? ==> r == Err(resume.error))
      && (HasEnoughAnswers(m, userId) && resume == Ok("") ==> r == Err(BadRequest("Resume text not found")))
      && (r.Ok? <==> && m.userId == userId && m.relevanceScore.None? && Truthy(m.conversationHistory)
                     && CandidateResponses(m.conversationHistory.value) >= MinCandidateResponses
                     && ResumeTextFound(resume) && ReadAnalysis(reply).Some?)
      && (r.Ok? ==> r.value == m.(relevanceScore := Some(ReadAnalysis(reply).value.relevanceScore),
                                   analysis := ReadAnalysis(reply),
                                   answerFeedback := Some(OrElse(Get(reply.value, "answerFeedback"), JArray([])))))
    ensures r.Ok? ==> r.value.relevanceScore.Some? && 0 <= r.value.relevanceScore.value <= 10
  {
    var k := FindById(rows, id);
    if k.None? {
      return Err(NotFound("Mock interview not found"));
    }
    var m := rows[k.value];
    if m.userId != userId {
      return Err(Unauthorized(NotAnalystOfMockMessage));
    }
    if m.relevanceScore.Some? {
      return Err(BadRequest(MockAnalyzedMessage));
    }
    if !Truthy(m.conversationHistory) {
      return Err(BadRequest(NoMockHistoryMessage));
    }
    if CandidateResponses(m.conversationHistory.value) < MinCandidateResponses {
      return Err(BadRequest(TooFewAnswersMessage));
    }
    if resume.Err? {
      return Err(resume.error);
    }
    if resume.value == "" {
      return Err(BadRequest("Resume text not found"));
    }
    var analysis := ReadAnalysis(reply);
    if analysis.None? {
      return Err(BadRequest(MockAnalysisFailedMessage));
    }
    var feedback := OrElse(Get(reply.value, "answerFeedback"), JArray([]));
    r := Ok(m.(relevanceScore := Some(analysis.value.relevanceScore), analysis := analysis,
               answerFeedback := Some(feedback)));
  }
}
