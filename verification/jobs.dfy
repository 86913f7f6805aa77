/** Job postings on the back end: creating a job (with the company's post
  * limit and the text sent for embedding), semantic search, listing, the
  * "may I apply" check and view counting. The database is a snapshot passed
  * in; writes are returned as the new snapshot. */
module Jobs {
  import opened Wrappers
  import opened JsStrings
  import opened Seqs
  import opened HttpErrors
  import Applications

  // The error messages the service answers with.
  const UnverifiedCompanyMessage := "Company is not verified, please wait for the admin to verify your company"
  const PostLimitMessage := "You have reached the maximum number of jobs you can post"
  const EmbedFailedMessage := "Failed to embed job, please try again later"
  const PastDeadlineMessage := "Deadline must be in the future"

  /** The fields a recruiter submits and the job row copies. Times are
    * milliseconds since the epoch. */
  datatype JobPost = JobPost(
    title: string,
    description: Option<string>,
    location: Option<string>,
    isRemote: Option<bool>,
    salaryMin: Option<int>,
    salaryMax: Option<int>,
    salaryCurrency: Option<string>,
    requirements: Option<string>,
    responsibilities: Option<string>,
    benefits: Option<string>,
    deadline: int)

  /** The request body: the post and the name of its job type. */
  datatype JobDto = JobDto(post: JobPost, jobType: string)

  /** One `jobs` row. `embedding` is `None` when the column is not an
    * array. */
  datatype Job = Job(
    id: string,
    post: JobPost,
    companyId: string,
    jobTypeId: string,
    postedBy: string,
    views: int,
    isActive: bool,
    createdAt: int,
    embedding: Option<seq<real>>)

  /** The column values the database fills in for a new row. */
  datatype RowDefaults = RowDefaults(views: int, isActive: bool, createdAt: int)

  datatype Company = Company(ownerId: string, isVerified: bool, postLimit: int)

  /** Users, companies by id, job-type ids by name, and the job rows. */
  datatype Tables = Tables(
    users: set<string>,
    companies: map<string, Company>,
    jobTypes: map<string, string>,
    jobs: seq<Job>)

  // ---------------------------------------------------------- embed text

  function OrEmpty(s: Option<string>): string {
    if s.Some? then s.value else ""
  }

  lemma BlankJoin(a: string, b: string)
    ensures IsBlank(a + " " + b) <==> IsBlank(a) && IsBlank(b)
  {
    var s := a + " " + b;
    if IsBlank(a) && IsBlank(b) {
      forall i | 0 <= i < |s| ensures IsSpace(s[i]) {
        if i > |a| { assert s[i] == b[i - |a| - 1]; }
      }
    }
    if IsBlank(s) {
      forall i | 0 <= i < |a| ensures IsSpace(a[i]) {
        assert s[i] == a[i];
      }
      forall i | 0 <= i < |b| ensures IsSpace(b[i]) {
        assert s[|a| + 1 + i] == b[i];
      }
    }
  }

  /** The text sent to the embedding service: title, description,
    * requirements and responsibilities joined by single spaces and trimmed,
    * a missing part reading as "". It is empty exactly when all four are
    * blank, and then nothing is embedded. */
  function EmbedText(p: JobPost): (r: string)
    ensures IsTrimmed(r)
    ensures r == "" <==> IsBlank(p.title) && IsBlank(OrEmpty(p.description))
                         && IsBlank(OrEmpty(p.requirements)) && IsBlank(OrEmpty(p.responsibilities))
  {
    var tail := OrEmpty(p.requirements) + " " + OrEmpty(p.responsibilities);
    var body := OrEmpty(p.description) + " " + tail;
    BlankJoin(OrEmpty(p.requirements), OrEmpty(p.responsibilities));
    BlankJoin(OrEmpty(p.description), tail);
    BlankJoin(p.title, body);
    Trim(p.title + " " + body)
  }

  // -------------------------------------------------------------- create

  function CompanyJobs(jobs: seq<Job>, companyId: string): nat {
    Count((j: Job) => j.companyId == companyId, jobs)
  }

  /** Every company's remaining post limit is non-negative. */
  predicate LimitsNonNegative(t: Tables) {
    forall c :: c in t.companies ==> t.companies[c].postLimit >= 0
  }

  /** Every guard of `Create` passes. */
  predicate CreateGuardsPass(t: Tables, now: int, userId: string, dto: JobDto, companyId: string) {
    && userId in t.users
    && dto.post.deadline >= now
    && companyId in t.companies
    && t.companies[companyId].isVerified
    && t.companies[companyId].postLimit != 0
    && dto.jobType in t.jobTypes
  }

  /** The tables after a job is stored for a company: one more row, and the
    * company's post limit one lower. */
  function Posted(t: Tables, companyId: string, row: Job): Tables
    requires companyId in t.companies
  {
    var company := t.companies[companyId];
    t.(jobs := t.jobs + [row], companies := t.companies[companyId := company.(postLimit := company.postLimit - 1)])
  }

  /** Posting keeps, for every company, its number of jobs plus its
    * remaining limit; and a company whose limit was positive is left with a
    * non-negative one. */
  lemma PostedKeepsBalance(t: Tables, companyId: string, row: Job)
    requires companyId in t.companies && row.companyId == companyId
    ensures Posted(t, companyId, row).companies.Keys == t.companies.Keys
    ensures forall c :: c in t.companies ==>
      CompanyJobs(Posted(t, companyId, row).jobs, c) + Posted(t, companyId, row).companies[c].postLimit
        == CompanyJobs(t.jobs, c) + t.companies[c].postLimit
    ensures LimitsNonNegative(t) && t.companies[companyId].postLimit != 0 ==>
      LimitsNonNegative(Posted(t, companyId, row))
  {
    var t' := Posted(t, companyId, row);
    forall c | c in t.companies
      ensures CompanyJobs(t'.jobs, c) + t'.companies[c].postLimit == CompanyJobs(t.jobs, c) + t.companies[c].postLimit
    {
      FilterAppend((j: Job) => j.companyId == c, t.jobs, [row]);
    }
  }

  /** `create`. The guards run in order: user, deadline, company, company
    * verified, post limit exactly 0 (a negative limit passes), job type.
    * Then the row is stored and the post limit decremented; only after both
    * does the embedding run, so an embedding failure (`embedding == None`)
    * reports an error although the job exists. The returned row is the one
    * created, before its embedding is written. */
  method Create(t: Tables, now: int, userId: string, dto: JobDto, companyId: string, newId: string,
                defaults: RowDefaults, embedding: Option<seq<real>>)
    returns (r: Result<Job, HttpError>, t': Tables)
    ensures userId !in t.users ==> r == Err(NotFound("User not found"))
    ensures userId in t.users && dto.post.deadline < now ==> r == Err(BadRequest(PastDeadlineMessage))
    ensures (&& userId in t.users && dto.post.deadline >= now && companyId in t.companies
             && t.companies[companyId].isVerified && t.companies[companyId].postLimit == 0) ==>
              r == Err(BadRequest(PostLimitMessage))
    ensures !CreateGuardsPass(t, now, userId, dto, companyId) ==> r.Err? && t' == t
    ensures CreateGuardsPass(t, now, userId, dto, companyId) ==>
      var row := Job(newId, dto.post, companyId, t.jobTypes[dto.jobType], userId,
                     defaults.views, defaults.isActive, defaults.createdAt, None);
      && (EmbedText(dto.post) == "" ==> r == Ok(row) && t' == Posted(t, companyId, row))
      && (EmbedText(dto.post) != "" && embedding.Some? ==>
            r == Ok(row) && t' == Posted(t, companyId, row.(embedding := embedding)))
      && (EmbedText(dto.post) != "" && embedding.None? ==>
            r == Err(BadRequest(EmbedFailedMessage)) && t' == Posted(t, companyId, row))
  {
    t' := t;
    if userId !in t.users {
      return Err(NotFound("User not found")), t';
    }
    if dto.post.deadline < now {
      return Err(BadRequest(PastDeadlineMessage)), t';
    }
    if companyId !in t.companies {
      return Err(NotFound("Company not found")), t';
    }
    var company := t.companies[companyId];
    if !company.isVerified {
      return Err(BadRequest(UnverifiedCompanyMessage)), t';
    }
    if company.postLimit == 0 {
      return Err(BadRequest(PostLimitMessage)), t';
    }
    if dto.jobType !in t.jobTypes {
      return Err(NotFound("Job type not found")), t';
    }
    var row := Job(newId, dto.post, companyId, t.jobTypes[dto.jobType], userId,
                   defaults.views, defaults.isActive, defaults.createdAt, None);
    r := Ok(row);
    t' := Posted(t, companyId, row);
    if EmbedText(dto.post) != "" {
      if embedding.None? {
        r := Err(BadRequest(EmbedFailedMessage));
      } else {
        t' := Posted(t, companyId, row.(embedding := embedding));
      }
    }
  }

  /** A company with limit `n > 0` can post exactly while its limit has not
    * reached 0: the limit after one post is `n - 1`, and a limit of 0
    * refuses the next post whatever else holds. */
  lemma LastPostExhaustsLimit(t: Tables, now: int, userId: string, dto: JobDto, companyId: string)
    requires CreateGuardsPass(t, now, userId, dto, companyId)
    requires t.companies[companyId].postLimit == 1
    ensures !CreateGuardsPass(t.(companies := t.companies[companyId := t.companies[companyId].(postLimit := 0)]),
                              now, userId, dto, companyId)
  {
  }

  // --------------------------------------------------------------- search

  /** `Math.min(a.length, b.length)`. */
  function MinLength(a: seq<real>, b: seq<real>): nat {
    if |a| < |b| then |a| else |b|
  }

  /** The sum of `a[i] * b[i]` for `i < n`. */
  function Dot(a: seq<real>, b: seq<real>, n: nat): real
    requires n <= |a| && n <= |b|
  {
    if n == 0 then 0.0 else Dot(a, b, n - 1) + a[n - 1] * b[n - 1]
  }

  function Square(x: real): real { x * x }

  lemma SquarePositive(x: real)
    requires x != 0.0
    ensures 0.0 < Square(x)
  {
    if x < 0.0 {
      calc { Square(x); == (-x) * (-x); > 0.0; }
    } else {
      calc { Square(x); == x * x; > 0.0; }
    }
  }

  /** A sum of squares is never negative, and is 0 exactly when every term
    * is 0. */
  lemma {:induction false} SquaresZero(a: seq<real>, n: nat)
    requires n <= |a|
    ensures Dot(a, a, n) >= 0.0
    ensures Dot(a, a, n) == 0.0 <==> forall i :: 0 <= i < n ==> a[i] == 0.0
  {
    if n > 0 {
      SquaresZero(a, n - 1);
      var x := a[n - 1];
      assert Dot(a, a, n) == Dot(a, a, n - 1) + Square(x);
      if x != 0.0 {
        SquarePositive(x);
        assert !(forall i :: 0 <= i < n ==> a[i] == 0.0) by {
          assert a[n - 1] != 0.0;
        }
      } else if forall i :: 0 <= i < n - 1 ==> a[i] == 0.0 {
        assert Dot(a, a, n) == 0.0;
      }
    }
  }

  /** The loop of the `cosine` helper: the dot product and both squared
    * norms over the common length, then 0 if either vector is all zeros.
    * The final `dot / (sqrt(na) * sqrt(nb))` is the parameter `ratio`. */
  method Cosine(a: seq<real>, b: seq<real>, ratio: (real, real, real) -> real) returns (score: real)
    ensures var n := MinLength(a, b);
      score == if Dot(a, a, n) == 0.0 || Dot(b, b, n) == 0.0 then 0.0
               else ratio(Dot(a, b, n), Dot(a, a, n), Dot(b, b, n))
  {
    var dot, na, nb := 0.0, 0.0, 0.0;
    var len := MinLength(a, b);
    var i := 0;
    while i < len
      invariant 0 <= i <= len
      invariant dot == Dot(a, b, i) && na == Dot(a, a, i) && nb == Dot(b, b, i)
    {
      var va := a[i];
      var vb := b[i];
      dot := dot + va * vb;
      na := na + va * va;
      nb := nb + vb * vb;
      i := i + 1;
    }
    if na == 0.0 || nb == 0.0 {
      return 0.0;
    }
    score := ratio(dot, na, nb);
  }

  /** A job whose embedding is zero on the common length scores 0. */
  lemma ZeroEmbeddingScoresZero(query: seq<real>, e: seq<real>)
    requires forall i :: 0 <= i < MinLength(query, e) ==> e[i] == 0.0
    ensures Dot(e, e, MinLength(query, e)) == 0.0
  {
    SquaresZero(e, MinLength(query, e));
  }

  /** The fields a search result keeps: the row without its embedding and
    * without the score. */
  datatype Listing = Listing(
    id: string,
    title: string,
    location: Option<string>,
    isRemote: Option<bool>,
    companyId: string,
    jobTypeId: string,
    createdAt: int,
    deadline: int)

  function ToListing(j: Job): Listing {
    Listing(j.id, j.post.title, j.post.location, j.post.isRemote, j.companyId, j.jobTypeId, j.createdAt, j.post.deadline)
  }

  predicate HasEmbedding(j: Job) { j.embedding.Some? }

  /** The score of a job against the query, `similarity` standing for
    * `cosine(queryEmbedding, ·)`. */
  function ScoreOf(similarity: seq<real> -> real, j: Job): real {
    if j.embedding.Some? then similarity(j.embedding.value) else 0.0
  }

  /** The jobs with an embedding, best score first. */
  function Ranked(jobs: seq<Job>, similarity: seq<real> -> real): (ranked: seq<Job>)
    ensures multiset(ranked) == multiset(Filter(HasEmbedding, jobs))
    ensures forall i :: 0 <= i < |ranked| ==> HasEmbedding(ranked[i])
    ensures forall i, j :: 0 <= i < j < |ranked| ==>
      ScoreOf(similarity, ranked[i]) >= ScoreOf(similarity, ranked[j])
  {
    var withEmbedding := Filter(HasEmbedding, jobs);
    var ranked := SortDesc((j: Job) => ScoreOf(similarity, j), withEmbedding);
    forall i | 0 <= i < |ranked| ensures HasEmbedding(ranked[i]) {
      assert ranked[i] in multiset(withEmbedding);
    }
    ranked
  }

  /** `searchJobs`: an empty query is refused; otherwise every job (active
    * or not) whose embedding is an array, best score first, stripped of
    * embedding and score. */
  function SearchJobs(query: string, jobs: seq<Job>, similarity: seq<real> -> real)
    : (r: Result<seq<Listing>, HttpError>)
    ensures r.Err? <==> query == ""
    ensures r.Err? ==> r.error == BadRequest("Search query is required")
    ensures r.Ok? ==> r.value == Map(ToListing, Ranked(jobs, similarity))
    ensures r.Ok? ==> |r.value| == Count(HasEmbedding, jobs)
  {
    if query == "" then Err(BadRequest("Search query is required"))
    else Ok(Map(ToListing, Ranked(jobs, similarity)))
  }

  /** Jobs already listed best first come back in the same order. */
  lemma RankedKeepsSortedInput(jobs: seq<Job>, similarity: seq<real> -> real)
    requires forall i :: 0 <= i < |jobs| ==> HasEmbedding(jobs[i])
    requires SortedDesc((j: Job) => ScoreOf(similarity, j), jobs)
    ensures Ranked(jobs, similarity) == jobs
  {
    FilterAllPass(HasEmbedding, jobs);
    SortDescOfSorted((j: Job) => ScoreOf(similarity, j), jobs);
  }

  /** Jobs with equal scores keep the order the query listed them in. */
  lemma RankedTiesInListOrder(jobs: seq<Job>, similarity: seq<real> -> real, score: real)
    ensures OfKey((j: Job) => ScoreOf(similarity, j), score, Ranked(jobs, similarity))
         == OfKey((j: Job) => ScoreOf(similarity, j), score, Filter(HasEmbedding, jobs))
  {
    SortDescStable((j: Job) => ScoreOf(similarity, j), Filter(HasEmbedding, jobs), score);
  }

  // -------------------------------------------------------------- findAll

  const DefaultLimit: nat := 50

  /** `take: limit || 50` and `skip: offset || 0`. */
  function Window(limit: Option<nat>, offset: Option<nat>): (w: (nat, nat))
    ensures w.0 == (if limit.Some? && limit.value != 0 then limit.value else DefaultLimit)
    ensures w.0 > 0
    ensures w.1 == (if offset.Some? then offset.value else 0)
  {
    (if limit.Some? && limit.value != 0 then limit.value else DefaultLimit,
     if offset.Some? then offset.value else 0)
  }

  predicate IsActive(j: Job) { j.isActive }

  /** The active jobs, newest first. */
  function Newest(jobs: seq<Job>): (r: seq<Job>)
    ensures multiset(r) == multiset(Filter(IsActive, jobs))
    ensures forall i :: 0 <= i < |r| ==> r[i].isActive
    ensures SortedDesc((j: Job) => j.createdAt as real, r)
  {
    var r := SortDesc((j: Job) => j.createdAt as real, Filter(IsActive, jobs));
    forall i | 0 <= i < |r| ensures r[i].isActive {
      assert r[i] in multiset(r);
      assert r[i] in Filter(IsActive, jobs);
    }
    r
  }

  /** `findAll`: active jobs, newest first, then the window. */
  function FindAll(jobs: seq<Job>, limit: Option<nat>, offset: Option<nat>): (r: seq<Job>)
    ensures |r| <= Window(limit, offset).0
    ensures forall i :: 0 <= i < |r| ==> r[i].isActive
    ensures forall i, j :: 0 <= i < j < |r| ==> r[i].createdAt >= r[j].createdAt
    ensures var w := Window(limit, offset); var n := Newest(jobs);
      r == (if w.1 >= |n| then [] else n[w.1..if w.1 + w.0 <= |n| then w.1 + w.0 else |n|])
  {
    var w := Window(limit, offset);
    var newest := Newest(jobs);
    PageOfNewest(newest, w.1, w.0);
    Page(newest, w.1, w.0)
  }

  /** A window of active jobs sorted newest first is active and sorted. */
  lemma {:induction false} PageOfNewest(newest: seq<Job>, skip: nat, take: nat)
    requires forall i :: 0 <= i < |newest| ==> newest[i].isActive
    requires SortedDesc((j: Job) => j.createdAt as real, newest)
    ensures var r := Page(newest, skip, take);
      && (forall i :: 0 <= i < |r| ==> r[i].isActive)
      && (forall i, j :: 0 <= i < j < |r| ==> r[i].createdAt >= r[j].createdAt)
  {
    var r := Page(newest, skip, take);
    if skip < |newest| {
      var end := if skip + take <= |newest| then skip + take else |newest|;
      assert r == newest[skip..end];
      forall i | 0 <= i < |r| ensures r[i].isActive {
        assert r[i] == newest[skip + i];
      }
      forall i, j | 0 <= i < j < |r| ensures r[i].createdAt >= r[j].createdAt {
        assert r[i] == newest[skip + i] && r[j] == newest[skip + j];
        assert ((j: Job) => j.createdAt as real)(newest[skip + i]) >= ((j: Job) => j.createdAt as real)(newest[skip + j]);
      }
    }
  }

  // ---------------------------------------------------- applicationExists

  /** `applicationExists`: `Unauthorized` for an unknown user; `false`
    * ("Application is pending review") exactly when the user's application
    * for the job has the status named `PENDING`, `true` otherwise,
    * including when there is no application. */
  function ApplicationExists(t: Applications.Tables, jobId: string, userId: string): (r: Result<bool, HttpError>)
    requires Applications.Valid(t)
    ensures userId !in t.users <==> r == Err(Unauthorized("User not found"))
    ensures r == Ok(false) <==>
      (&& userId in t.users
       && exists i :: (&& 0 <= i < |t.applications|
                       && t.applications[i].jobId == jobId && t.applications[i].userId == userId
                       && t.statusNames[t.applications[i].statusId] == "PENDING"))
  {
    if userId !in t.users then Err(Unauthorized("User not found"))
    else
      var k := Applications.FindPair(t.applications, jobId, userId);
      if k.Some? && t.statusNames[t.applications[k.value].statusId] == "PENDING" then Ok(false)
      else Ok(true)
  }

  // ---------------------------------------------------------- updateViews

  function FindJob(jobs: seq<Job>, id: string): (r: Option<nat>)
    ensures r.Some? ==> r.value < |jobs| && jobs[r.value].id == id
    ensures r.None? <==> forall i :: 0 <= i < |jobs| ==> jobs[i].id != id
  {
    FindFirst((j: Job) => j.id == id, jobs)
  }

  /** `updateViews`. The owner test `job?.company?.userId == req.userId`
    * runs before the not-found test, and `undefined == undefined` holds, so
    * a missing job with no requester reports success. Otherwise views go up
    * by exactly one unless the requester owns the company. */
  method UpdateViews(t: Tables, jobId: string, requester: Option<string>)
    returns (r: Result<bool, HttpError>, t': Tables)
    requires forall i :: 0 <= i < |t.jobs| ==> t.jobs[i].companyId in t.companies
    ensures FindJob(t.jobs, jobId).None? ==>
      t' == t && (r == Ok(true) <==> requester.None?) && (r.Err? <==> requester.Some?)
    ensures FindJob(t.jobs, jobId).Some? ==>
      var k := FindJob(t.jobs, jobId).value;
      var owner := t.companies[t.jobs[k].companyId].ownerId;
      && r == Ok(true)
      && (requester == Some(owner) ==> t' == t)
      && (requester != Some(owner) ==>
            t' == t.(jobs := t.jobs[k := t.jobs[k].(views := t.jobs[k].views + 1)]))
    ensures |t'.jobs| == |t.jobs|
    ensures forall i :: 0 <= i < |t.jobs| ==> t'.jobs[i].views - t.jobs[i].views in {0, 1}
  {
    t' := t;
    var k := FindJob(t.jobs, jobId);
    var owner: Option<string> := if k.Some? then Some(t.companies[t.jobs[k.value].companyId].ownerId) else None;
    if owner == requester {
      return Ok(true), t';
    }
    if k.None? {
      return Err(NotFound("Job not found")), t';
    }
    var job := t.jobs[k.value];
    t' := t.(jobs := t.jobs[k.value := job.(views := job.views + 1)]);
    r := Ok(true);
  }
}
