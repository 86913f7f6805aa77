/** Job applications on the back end: creating an application, analysing
  * its interview, and the two status queries. The database is a snapshot
  * passed in (`Tables`); a write is returned as the new row. */
module Applications {
  import opened Wrappers
  import opened JsStrings
  import opened Seqs
  import opened JsonValues
  import opened HttpErrors
  import opened InterviewScoring
  import opened ResumeLookup

  // The error messages the service answers with.
  const NotAnalystOfApplicationMessage := "Not authorized to analyze this application"
  const NoHistoryMessage := "No conversation history found"
  const InterviewAnalyzedMessage := "Interview already analyzed"
  const DuplicateApplicationMessage := "Application already exists"

  /** What the client sends to apply for a job. */
  datatype ApplicationDto = ApplicationDto(
    jobId: string,
    coverLetter: Option<string>,
    notes: Option<string>)

  /** One `applications` row. `relevanceScore` is `null` until the
    * interview is analysed. */
  datatype Application = Application(
    id: string,
    jobId: string,
    userId: string,
    coverLetter: Option<string>,
    notes: Option<string>,
    statusId: string,
    relevanceScore: Option<int>,
    conversationHistory: Option<string>,
    analysis: Option<Analysis>)

  /** The tables the service reads: user and job ids, the id of the status
    * whose code is `PENDING` (if seeded), status names by id, and the
    * application rows. */
  datatype Tables = Tables(
    users: set<string>,
    jobs: set<string>,
    pendingStatusId: Option<string>,
    statusNames: map<string, string>,
    applications: seq<Application>)

  // --------------------------------------------------------------- UUIDs

  predicate IsUuidDash(i: int) { i == 8 || i == 13 || i == 18 || i == 23 }

  /** `/^[0-9a-f]{8}-[0-9a-f]{4}-[0-9a-f]{4}-[0-9a-f]{4}-[0-9a-f]{12}$/i`:
    * 36 characters, dashes after the 8-4-4-4 groups, hex digits of either
    * case elsewhere. */
  predicate IsUuid(s: string) {
    |s| == 36 && forall i :: 0 <= i < 36 ==> if IsUuidDash(i) then s[i] == '-' else IsHexDigit(s[i])
  }

  /** The pattern is case-insensitive: an id is accepted exactly when its
    * lower-case form is. */
  lemma UuidIgnoresCase(s: string)
    ensures IsUuid(ToLower(s)) <==> IsUuid(s)
  {
    var t := ToLower(s);
    if IsUuid(s) {
      forall i | 0 <= i < 36 ensures if IsUuidDash(i) then t[i] == '-' else IsHexDigit(t[i]) {
      }
    }
    if IsUuid(t) {
      forall i | 0 <= i < 36 ensures if IsUuidDash(i) then s[i] == '-' else IsHexDigit(s[i]) {
        assert t[i] == LowerChar(s[i]);
      }
    }
  }

  predicate AllHex(s: string) {
    forall i :: 0 <= i < |s| ==> IsHexDigit(s[i])
  }

  /** Five hex groups of lengths 8, 4, 4, 4 and 12 joined by dashes form an
    * accepted id. */
  lemma UuidOfGroups(a: string, b: string, c: string, d: string, e: string)
    requires |a| == 8 && |b| == 4 && |c| == 4 && |d| == 4 && |e| == 12
    requires AllHex(a) && AllHex(b) && AllHex(c) && AllHex(d) && AllHex(e)
    ensures IsUuid(a + "-" + b + "-" + c + "-" + d + "-" + e)
  {
    var s := a + "-" + b + "-" + c + "-" + d + "-" + e;
    forall i | 0 <= i < 36 ensures if IsUuidDash(i) then s[i] == '-' else IsHexDigit(s[i]) {
      if i < 8 { assert s[i] == a[i]; }
      else if 8 < i < 13 { assert s[i] == b[i - 9]; }
      else if 13 < i < 18 { assert s[i] == c[i - 14]; }
      else if 18 < i < 23 { assert s[i] == d[i - 19]; }
      else if 23 < i { assert s[i] == e[i - 24]; }
    }
  }

  // ------------------------------------------------------------- lookups

  /** `findUnique({ where: { id } })`. */
  function FindById(rows: seq<Application>, id: string): (r: Option<nat>)
    ensures r.Some? ==> r.value < |rows| && rows[r.value].id == id
    ensures r.None? <==> forall i :: 0 <= i < |rows| ==> rows[i].id != id
  {
    FindFirst((a: Application) => a.id == id, rows)
  }

  /** `findFirst({ where: { jobId, userId } })`. */
  function FindPair(rows: seq<Application>, jobId: string, userId: string): (r: Option<nat>)
    ensures r.Some? ==> r.value < |rows| && rows[r.value].jobId == jobId && rows[r.value].userId == userId
    ensures r.None? <==> forall i :: 0 <= i < |rows| ==> !(rows[i].jobId == jobId && rows[i].userId == userId)
  {
    FindFirst((a: Application) => a.jobId == jobId && a.userId == userId, rows)
  }

  /** The table after `update({ where: { id: row.id } })`. */
  function Replace(rows: seq<Application>, row: Application): (r: seq<Application>)
    ensures |r| == |rows|
    ensures forall i :: 0 <= i < |rows| ==> r[i] == (if rows[i].id == row.id then row else rows[i])
  {
    Map((a: Application) => if a.id == row.id then row else a, rows)
  }

  /** What the database and this service keep true of the tables: ids are
    * unique, at most one application per job and user, and every row points
    * at an existing user, job and status. */
  predicate Valid(t: Tables) {
    && (forall i, j :: 0 <= i < j < |t.applications| ==> t.applications[i].id != t.applications[j].id)
    && (forall i, j :: 0 <= i < j < |t.applications| ==>
          !(t.applications[i].jobId == t.applications[j].jobId && t.applications[i].userId == t.applications[j].userId))
    && (forall i :: 0 <= i < |t.applications| ==>
          && t.applications[i].userId in t.users
          && t.applications[i].jobId in t.jobs
          && t.applications[i].statusId in t.statusNames)
    && (t.pendingStatusId.Some? ==> t.pendingStatusId.value in t.statusNames)
  }

  // -------------------------------------------------------------- create

  /** `create`: the guard chain, then the new row with status `PENDING`.
    * The user-id checks and both id-format checks come before the job is
    * looked up, so a malformed job id is reported as such even if no job
    * has it. `newId` is the id the database assigns. */
  method Create(t: Tables, userId: Option<string>, dto: ApplicationDto, newId: string)
    returns (r: Result<Application, HttpError>)
    ensures !Truthy(userId) ==> r == Err(Unauthorized("User ID not found in token"))
    ensures Truthy(userId) && userId.value !in t.users ==> r == Err(BadRequest("User not found"))
    ensures Truthy(userId) && userId.value in t.users && !IsUuid(userId.value) ==>
      r == Err(BadRequest("Invalid user ID format"))
    ensures Truthy(userId) && userId.value in t.users && IsUuid(userId.value) && !IsUuid(dto.jobId) ==>
      r == Err(BadRequest("Invalid job ID format"))
    ensures r.Ok? <==>
      && Truthy(userId) && userId.value in t.users && IsUuid(userId.value)
      && IsUuid(dto.jobId) && dto.jobId in t.jobs
      && FindPair(t.applications, dto.jobId, userId.value).None?
      && t.pendingStatusId.Some?
    ensures Truthy(userId) && FindPair(t.applications, dto.jobId, userId.value).Some? ==> r.Err?
    ensures (&& Truthy(userId) && userId.value in t.users && IsUuid(userId.value) && IsUuid(dto.jobId)
             && dto.jobId in t.jobs && FindPair(t.applications, dto.jobId, userId.value).Some?) ==>
      r == Err(BadRequest(DuplicateApplicationMessage))
    ensures r.Ok? ==> r.value == Application(newId, dto.jobId, userId.value, dto.coverLetter, dto.notes,
      t.pendingStatusId.value, None, None, None)
  {
    if !Truthy(userId) {
      return Err(Unauthorized("User ID not found in token"));
    }
    var uid := userId.value;
    if uid !in t.users {
      return Err(BadRequest("User not found"));
    }
    if !IsUuid(uid) {
      return Err(BadRequest("Invalid user ID format"));
    }
    if !IsUuid(dto.jobId) {
      return Err(BadRequest("Invalid job ID format"));
    }
    if dto.jobId !in t.jobs {
      return Err(BadRequest("Job not found"));
    }
    if FindPair(t.applications, dto.jobId, uid).Some? {
      return Err(BadRequest(DuplicateApplicationMessage));
    }
    if t.pendingStatusId.None? {
      return Err(BadRequest("Application status not found"));
    }
    r := Ok(Application(newId, dto.jobId, uid, dto.coverLetter, dto.notes, t.pendingStatusId.value, None, None, None));
  }

  /** Inserting a row that `Create` accepted, under a fresh id, keeps the
    * tables valid: in particular no job and user ever get a second
    * application. */
  lemma CreateKeepsValid(t: Tables, a: Application)
    requires Valid(t)
    requires FindById(t.applications, a.id).None?
    requires FindPair(t.applications, a.jobId, a.userId).None?
    requires a.userId in t.users && a.jobId in t.jobs && t.pendingStatusId == Some(a.statusId)
    ensures Valid(t.(applications := t.applications + [a]))
  {
  }

  // ---------------------------------------------------- analyzeInterview

  /** `relevanceScore` is truthy: a stored 0 counts as not analysed. */
  predicate AlreadyAnalyzed(a: Application) {
    a.relevanceScore.Some? && a.relevanceScore.value != 0
  }

  /** `analyzeInterview`: five guards in order, then the scores read from
    * the model's reply (`reply`; `None` when the call or `JSON.parse`
    * failed) are written to the row. `resume` is the outcome of
    * `getResumeText` for the caller, whose 404 errors pass through. */
  method AnalyzeInterview(t: Tables, applicationId: string, userId: string,
                          resume: Result<string, HttpError>, reply: Option<Json>)
    returns (r: Result<Application, HttpError>)
    ensures FindById(t.applications, applicationId).None? ==> r == Err(BadRequest("Application not found"))
    ensures FindById(t.applications, applicationId).Some? ==>
      var a := t.applications[FindById(t.applications, applicationId).value];
      && (AlreadyAnalyzed(a) ==> r == Err(BadRequest(InterviewAnalyzedMessage)))
      && (!AlreadyAnalyzed(a) && resume.Err? ==> r == Err(resume.error))
      && (!AlreadyAnalyzed(a) && resume == Ok("") ==> r == Err(BadRequest("Resume text not found")))
      && (!AlreadyAnalyzed(a) && ResumeTextFound(resume) && a.userId != userId ==>
            r == Err(Unauthorized(NotAnalystOfApplicationMessage)))
      && (!AlreadyAnalyzed(a) && ResumeTextFound(resume) && a.userId == userId && !Truthy(a.conversationHistory) ==>
            r == Err(BadRequest(NoHistoryMessage)))
      && (r.Ok? <==> !AlreadyAnalyzed(a) && ResumeTextFound(resume) && a.userId == userId
                     && Truthy(a.conversationHistory) && ReadAnalysis(reply).Some?)
      && (r.Ok? ==> r.value == a.(relevanceScore := Some(ReadAnalysis(reply).value.relevanceScore),
                                   analysis := ReadAnalysis(reply)))
    ensures r.Ok? ==> r.value.relevanceScore.Some? && 0 <= r.value.relevanceScore.value <= 10
  {
    var k := FindById(t.applications, applicationId);
    if k.None? {
      return Err(BadRequest("Application not found"));
    }
    var a := t.applications[k.value];
    if AlreadyAnalyzed(a) {
      return Err(BadRequest(InterviewAnalyzedMessage));
    }
    if resume.Err? {
      return Err(resume.error);
    }
    if resume.value == "" {
      return Err(BadRequest("Resume text not found"));
    }
    if a.userId != userId {
      return Err(Unauthorized(NotAnalystOfApplicationMessage));
    }
    if !Truthy(a.conversationHistory) {
      return Err(BadRequest(NoHistoryMessage));
    }
    var analysis := ReadAnalysis(reply);
    if analysis.None? {
      return Err(BadRequest("Failed to analyze interview"));
    }
    r := Ok(a.(relevanceScore := Some(analysis.value.relevanceScore), analysis := analysis));
  }

  /** Writing an analysed row back keeps the tables valid. */
  lemma ReplaceKeepsValid(t: Tables, k: nat, row: Application)
    requires Valid(t) && k < |t.applications|
    requires row.id == t.applications[k].id && row.jobId == t.applications[k].jobId
    requires row.userId == t.applications[k].userId && row.statusId == t.applications[k].statusId
    ensures Valid(t.(applications := Replace(t.applications, row)))
  {
    var rows := Replace(t.applications, row);
    forall i | 0 <= i < |rows|
      ensures rows[i].id == t.applications[i].id && rows[i].jobId == t.applications[i].jobId
      ensures rows[i].userId == t.applications[i].userId && rows[i].statusId == t.applications[i].statusId
    {
      if t.applications[i].id == row.id {
        assert i == k;
      }
    }
  }

  // ------------------------------------------------------ status queries

  /** `interviewExists`: `NotFound` for an unknown id, otherwise whether a
    * relevance score is stored (a stored 0 counts). */
  function InterviewExists(rows: seq<Application>, applicationId: string): (r: Result<bool, HttpError>)
    ensures r.Err? <==> forall i :: 0 <= i < |rows| ==> rows[i].id != applicationId
    ensures r.Err? ==> r.error == NotFound("Application not found")
    ensures r.Ok? ==> exists i :: 0 <= i < |rows| && rows[i].id == applicationId
                                 && (r.value <==> rows[i].relevanceScore.Some?)
  {
    var k := FindById(rows, applicationId);
    if k.None? then Err(NotFound("Application not found"))
    else Ok(rows[k.value].relevanceScore.Some?)
  }

  /** An application whose analysis was written back reports that its
    * interview exists. */
  lemma AnalyzedInterviewExists(t: Tables, row: Application)
    requires Valid(t)
    requires FindById(t.applications, row.id).Some?
    requires row.relevanceScore.Some?
    ensures InterviewExists(Replace(t.applications, row), row.id) == Ok(true)
  {
    var rows := Replace(t.applications, row);
    var k := FindById(rows, row.id);
    assert k.Some?;
    assert rows[k.value] == row;
  }

  /** A stored score of 0 does not block a new analysis, although
    * `InterviewExists` already reports the interview as done. */
  lemma ZeroScoreReanalysable(rows: seq<Application>, k: nat)
    requires k < |rows| && FindById(rows, rows[k].id) == Some(k)
    requires rows[k].relevanceScore == Some(0)
    ensures !AlreadyAnalyzed(rows[k])
    ensures InterviewExists(rows, rows[k].id) == Ok(true)
  {
  }

  /** The answer to "have I applied to this job?". */
  datatype MyStatus = NotApplied | Applied(status: string, applicationId: string)

  /** `getMyApplicationStatus`: `NotFound` for an unknown user; otherwise
    * whether an application for this job exists, with its status name. */
  function GetMyApplicationStatus(t: Tables, jobId: string, userId: string): (r: Result<MyStatus, HttpError>)
    requires Valid(t)
    ensures userId !in t.users <==> r == Err(NotFound("User not found"))
    ensures r.Ok? && r.value.NotApplied? <==>
      userId in t.users && forall i :: 0 <= i < |t.applications| ==>
        !(t.applications[i].jobId == jobId && t.applications[i].userId == userId)
    ensures r.Ok? && r.value.Applied? ==>
      exists i :: (&& 0 <= i < |t.applications|
                   && t.applications[i].jobId == jobId && t.applications[i].userId == userId
                   && r.value == Applied(t.statusNames[t.applications[i].statusId], t.applications[i].id))
  {
    if userId !in t.users then Err(NotFound("User not found"))
    else
      var k := FindPair(t.applications, jobId, userId);
      if k.None? then Ok(NotApplied)
      else
        var a := t.applications[k.value];
        Ok(Applied(t.statusNames[a.statusId], a.id))
  }

  /** After a successful `Create` is stored, the applicant sees the new
    * application with the pending status. */
  lemma CreatedApplicationVisible(t: Tables, a: Application)
    requires Valid(t)
    requires FindById(t.applications, a.id).None?
    requires FindPair(t.applications, a.jobId, a.userId).None?
    requires a.userId in t.users && a.jobId in t.jobs && t.pendingStatusId == Some(a.statusId)
    ensures Valid(t.(applications := t.applications + [a]))
    ensures GetMyApplicationStatus(t.(applications := t.applications + [a]), a.jobId, a.userId)
      == Ok(Applied(t.statusNames[t.pendingStatusId.value], a.id))
  {
    CreateKeepsValid(t, a);
    var rows := t.applications + [a];
    assert rows[|t.applications|] == a;
    assert forall i :: 0 <= i < |t.applications| ==> rows[i] == t.applications[i];
    var k := FindPair(rows, a.jobId, a.userId);
    assert k == Some(|t.applications|);
  }
}
