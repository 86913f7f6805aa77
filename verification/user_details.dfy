/** The candidate's profile pages: the resume upload and its step machine,
  * the data extracted from the resume, the stored profile mapped into the
  * review form, and the payload the review form saves. */
module UserDetails {
  import opened Wrappers
  import opened JsStrings
  import opened Seqs
  import opened JsonValues

  datatype Step = Upload | Parsing | Extracting | Review | Saving | Success

  /** `ExtractedData`, the review form: every field may be missing;
    * experience and expected salary may be numbers or text. */
  datatype Details = Details(
    name: Option<string>, experience: Option<Json>, skills: Option<string>,
    location: Option<string>, linkedIn: Option<string>, portfolio: Option<string>,
    github: Option<string>, expectedSalary: Option<Json>, availability: Option<string>)

  /** `{}`. */
  const NoDetails := Details(None, None, None, None, None, None, None, None, None)

  /** Every field present. */
  predicate Complete(d: Details) {
    && d.name.Some? && d.experience.Some? && d.skills.Some? && d.location.Some?
    && d.linkedIn.Some? && d.portfolio.Some? && d.github.Some? && d.expectedSalary.Some?
    && d.availability.Some?
  }

  // ----------------------------------------------------------------- save

  /** The body of `PUT /user-details`. */
  datatype SavePayload = SavePayload(
    experience: Option<Json>, location: Option<string>, linkedin: Option<string>,
    portfolio: Option<string>, github: Option<string>, expectedSalary: Option<Json>,
    availability: Option<string>, skills: Option<seq<string>>)

  /** `v || undefined` on text: a value is kept exactly when it is truthy. */
  predicate DropsFalsy(v: Option<string>, r: Option<string>) {
    (r.Some? <==> Truthy(v)) && (r.Some? ==> r == v)
  }

  predicate JsonDefined(v: Option<Json>) {
    v.Some? && JsonTruthy(v.value)
  }

  /** `v ? Number(v) : undefined`: the value handed to `Number` exactly when
    * it is truthy, so `0` and `""` are both left out. */
  predicate DropsFalsyNumber(v: Option<Json>, r: Option<Json>) {
    (r.Some? <==> JsonDefined(v)) && (r.Some? ==> r == v)
  }

  function TextIfTruthy(v: Option<string>): (r: Option<string>)
    ensures DropsFalsy(v, r)
  {
    if Truthy(v) then v else None
  }

  function NumberIfTruthy(v: Option<Json>): (r: Option<Json>)
    ensures DropsFalsyNumber(v, r)
  {
    if JsonDefined(v) then v else None
  }

  /** `skills ? skills.split(",").map(s => s.trim()).filter(Boolean) : []`:
    * the comma-separated entries, trimmed, empty ones dropped. */
  function SkillsArray(skills: Option<string>): (r: seq<string>)
    ensures !Truthy(skills) ==> r == []
    ensures forall i :: 0 <= i < |r| ==> r[i] != "" && IsTrimmed(r[i]) && ',' !in r[i]
  {
    if !Truthy(skills) then []
    else
      var pieces := Split(skills.value, ',');
      var trimmed := Map(Trim, pieces);
      assert forall i :: 0 <= i < |trimmed| ==> ',' !in trimmed[i] by {
        forall i | 0 <= i < |trimmed| ensures ',' !in trimmed[i] {
          assert trimmed[i] == Trim(pieces[i]);
        }
      }
      var r := Filter(NonEmpty, trimmed);
      assert forall i :: 0 <= i < |r| ==> r[i] in trimmed;
      r
  }

  /** The save `mutationFn`'s payload: falsy texts and numbers left out,
    * and the skill list left out when it has no entry. */
  function SaveRequest(d: Details): (r: SavePayload)
    ensures DropsFalsyNumber(d.experience, r.experience)
    ensures DropsFalsyNumber(d.expectedSalary, r.expectedSalary)
    ensures DropsFalsy(d.location, r.location) && DropsFalsy(d.linkedIn, r.linkedin)
    ensures DropsFalsy(d.portfolio, r.portfolio) && DropsFalsy(d.github, r.github)
    ensures DropsFalsy(d.availability, r.availability)
    ensures r.skills.None? <==> SkillsArray(d.skills) == []
    ensures r.skills.Some? ==> r.skills.value == SkillsArray(d.skills)
  {
    var skills := SkillsArray(d.skills);
    SavePayload(
      NumberIfTruthy(d.experience), TextIfTruthy(d.location), TextIfTruthy(d.linkedIn),
      TextIfTruthy(d.portfolio), TextIfTruthy(d.github), NumberIfTruthy(d.expectedSalary),
      TextIfTruthy(d.availability), if |skills| > 0 then Some(skills) else None)
  }

  // ------------------------------------------------------ stored profile

  /** The profile `GET /user-details` returns; `userName` is `user?.name`. */
  datatype Profile = Profile(
    resumeLink: Option<string>, experience: Option<Json>, location: Option<string>,
    linkedin: Option<string>, portfolio: Option<string>, github: Option<string>,
    expectedSalary: Option<Json>, availability: Option<string>,
    skills: Option<seq<string>>, userName: Option<string>)

  /** `v ?? ""`: a present value is kept as it is, even when empty. */
  predicate KeptOrEmpty(v: Option<string>, r: Option<string>) {
    r.Some? && (v.Some? ==> r == v) && (v.None? ==> r == Some(""))
  }

  predicate KeptOrEmptyJson(v: Option<Json>, r: Option<Json>) {
    r.Some? && (v.Some? ==> r == v) && (v.None? ==> r == Some(JString("")))
  }

  function OrEmpty(v: Option<string>): (r: Option<string>)
    ensures KeptOrEmpty(v, r)
  {
    if v.Some? then v else Some("")
  }

  function OrEmptyJson(v: Option<Json>): (r: Option<Json>)
    ensures KeptOrEmptyJson(v, r)
  {
    if v.Some? then v else Some(JString(""))
  }

  /** `skills && skills.length > 0 ? skills.join(", ") : ""`. */
  function JoinedSkills(skills: Option<seq<string>>): (r: string)
    ensures skills.None? || skills.value == [] ==> r == ""
  {
    if skills.Some? && |skills.value| > 0 then Join(skills.value, ", ") else ""
  }

  /** `useMappedUserDetails` (and the same mapping inside the flow): no
    * profile maps to `null`; otherwise every field is filled, a missing
    * value becoming "" and a present one kept. */
  function Mapped(p: Option<Profile>): (r: Option<Details>)
    ensures r.None? <==> p.None?
    ensures r.Some? ==> Complete(r.value)
    ensures r.Some? ==>
      && KeptOrEmpty(p.value.userName, r.value.name)
      && KeptOrEmptyJson(p.value.experience, r.value.experience)
      && r.value.skills == Some(JoinedSkills(p.value.skills))
      && KeptOrEmpty(p.value.location, r.value.location)
      && KeptOrEmpty(p.value.linkedin, r.value.linkedIn)
      && KeptOrEmpty(p.value.portfolio, r.value.portfolio)
      && KeptOrEmpty(p.value.github, r.value.github)
      && KeptOrEmptyJson(p.value.expectedSalary, r.value.expectedSalary)
      && KeptOrEmpty(p.value.availability, r.value.availability)
  {
    match p
    case None => None
    case Some(data) =>
      Some(Details(
        OrEmpty(data.userName), OrEmptyJson(data.experience), Some(JoinedSkills(data.skills)),
        OrEmpty(data.location), OrEmpty(data.linkedin), OrEmpty(data.portfolio),
        OrEmpty(data.github), OrEmptyJson(data.expectedSalary), OrEmpty(data.availability)))
  }

  /** `" " + x`. */
  function SpacePrefixed(x: string): string { [' '] + x }

  /** Putting a space in front of a join puts it in front of its first
    * piece. */
  lemma {:induction false} SpaceBeforeJoin(parts: seq<string>)
    requires |parts| >= 1
    ensures [' '] + Join(parts, [',']) == Join([SpacePrefixed(parts[0])] + parts[1..], [','])
  {
    var q := [SpacePrefixed(parts[0])] + parts[1..];
    assert q[0] == [' '] + parts[0];
    if |parts| > 1 {
      assert q[1..] == parts[1..];
      var rest := Join(parts[1..], [',']);
      assert Join(parts, [',']) == parts[0] + [','] + rest;
      assert Join(q, [',']) == q[0] + [','] + rest;
      assert [' '] + (parts[0] + [','] + rest) == ([' '] + parts[0]) + [','] + rest;
    } else {
      assert Join(parts, [',']) == parts[0];
      assert Join(q, [',']) == q[0];
    }
  }

  /** Joining with ", " is joining with "," after putting a space in
    * front of every piece but the first. */
  lemma {:induction false} JoinCommaSpace(parts: seq<string>)
    requires |parts| >= 1
    ensures Join(parts, ", ") == Join([parts[0]] + Map(SpacePrefixed, parts[1..]), [','])
    decreases |parts|
  {
    var q := [parts[0]] + Map(SpacePrefixed, parts[1..]);
    if |parts| == 1 {
      assert q == [parts[0]];
    } else {
      var tail := parts[1..];
      JoinCommaSpace(tail);
      var t := [tail[0]] + Map(SpacePrefixed, tail[1..]);
      SpaceBeforeJoin(t);
      assert [SpacePrefixed(t[0])] + t[1..] == Map(SpacePrefixed, tail) by {
        assert t[1..] == Map(SpacePrefixed, tail[1..]);
        assert Map(SpacePrefixed, tail) == [SpacePrefixed(tail[0])] + Map(SpacePrefixed, tail[1..]);
      }
      assert q[1..] == Map(SpacePrefixed, tail);
      assert Join(parts, ", ") == parts[0] + ", " + Join(tail, ", ");
      assert Join(q, [',']) == parts[0] + [','] + Join(q[1..], [',']);
    }
  }

  /** The pieces of a ", "-joined list, trimmed, are the list. */
  lemma {:induction false} TrimmedPieces(skills: seq<string>)
    requires |skills| >= 1
    requires forall i :: 0 <= i < |skills| ==> skills[i] != "" && IsTrimmed(skills[i])
    ensures Map(Trim, [skills[0]] + Map(SpacePrefixed, skills[1..])) == skills
  {
    var pieces := [skills[0]] + Map(SpacePrefixed, skills[1..]);
    forall i | 0 <= i < |pieces| ensures Trim(pieces[i]) == skills[i] {
      if i > 0 {
        assert pieces[i] == [' '] + skills[i];
        TrimSpacePrefix(skills[i]);
      }
    }
  }

  /** The pieces of a ", "-joined comma-free list have no comma. */
  lemma {:induction false} CommaFreePieces(skills: seq<string>)
    requires |skills| >= 1
    requires forall i :: 0 <= i < |skills| ==> ',' !in skills[i]
    ensures var pieces := [skills[0]] + Map(SpacePrefixed, skills[1..]);
            forall i :: 0 <= i < |pieces| ==> ',' !in pieces[i]
  {
    var pieces := [skills[0]] + Map(SpacePrefixed, skills[1..]);
    forall i | 0 <= i < |pieces| ensures ',' !in pieces[i] {
      if i > 0 {
        assert pieces[i] == [' '] + skills[i];
      }
    }
  }

  /** A join whose first piece is non-empty is non-empty. */
  lemma {:induction false} JoinNonEmpty(parts: seq<string>, sep: string)
    requires |parts| >= 1 && parts[0] != ""
    ensures Join(parts, sep) != ""
  {
    if |parts| > 1 {
      assert Join(parts, sep) == parts[0] + sep + Join(parts[1..], sep);
    }
  }

  /** Joining a skill list with ", " and reading it back as the save does
    * gives the list back, when every skill is trimmed, non-empty and free
    * of commas. */
  lemma {:induction false} SkillsRoundTrip(skills: seq<string>)
    requires forall i :: 0 <= i < |skills| ==> skills[i] != "" && IsTrimmed(skills[i]) && ',' !in skills[i]
    ensures SkillsArray(Some(JoinedSkills(Some(skills)))) == skills
  {
    if |skills| > 0 {
      var joined := Join(skills, ", ");
      var pieces := [skills[0]] + Map(SpacePrefixed, skills[1..]);
      JoinNonEmpty(skills, ", ");
      JoinCommaSpace(skills);
      CommaFreePieces(skills);
      SplitJoin(pieces, ',');
      assert Split(joined, ',') == pieces;
      TrimmedPieces(skills);
      FilterAllPass(NonEmpty, skills);
      assert JoinedSkills(Some(skills)) == joined;
    }
  }

  /** Saving the review form straight after mapping a stored profile gives
    * the profile's non-empty texts and truthy numbers back, drops its empty
    * ones, and gives back its skills when it has any. */
  lemma SaveOfMappedProfile(p: Profile)
    requires p.skills.Some? ==>
      forall i :: 0 <= i < |p.skills.value| ==>
        p.skills.value[i] != "" && IsTrimmed(p.skills.value[i]) && ',' !in p.skills.value[i]
    ensures var r := SaveRequest(Mapped(Some(p)).value);
      && DropsFalsy(p.location, r.location) && DropsFalsy(p.linkedin, r.linkedin)
      && DropsFalsy(p.portfolio, r.portfolio) && DropsFalsy(p.github, r.github)
      && DropsFalsy(p.availability, r.availability)
      && DropsFalsyNumber(p.experience, r.experience)
      && DropsFalsyNumber(p.expectedSalary, r.expectedSalary)
      && (r.skills.Some? <==> p.skills.Some? && p.skills.value != [])
      && (r.skills.Some? ==> r.skills == p.skills)
  {
    if p.skills.Some? {
      SkillsRoundTrip(p.skills.value);
    }
  }

  /** Whether the profile query's data can be used: a failed query gives
    * none, except when it failed because the candidate has no profile yet. */
  function ProfileData(isError: bool, errorMessage: Option<string>, data: Option<Profile>): (r: Option<Profile>)
    ensures r.Some? ==> r == data
    ensures !isError ==> r == data
    ensures isError && errorMessage == Some("User details not found") ==> r == data
    ensures isError && errorMessage != Some("User details not found") ==> r.None?
  {
    if !isError || errorMessage == Some("User details not found") then data else None
  }

  /** `!!userDetailsData?.resumeLink`. */
  predicate HasResume(p: Option<Profile>) {
    p.Some? && Truthy(p.value.resumeLink)
  }

  // ------------------------------------------------------------ extraction

  /** The extraction reply once `JSON.parse`d: a parse failure, `null`, or
    * an object with an optional `message` and the fields read from it. */
  datatype ExtractReply = Unparsable | NullReply | Reply(message: Option<Json>, fields: Details)

  predicate IsNotResume(reply: ExtractReply) {
    reply.Reply? && reply.message == Some(JString("not a resume"))
  }

  /** `v || ""`: a truthy value kept, anything else replaced by "". */
  predicate Defaulted(v: Option<string>, r: Option<string>) {
    r.Some? && (Truthy(v) ==> r == v) && (!Truthy(v) ==> r == Some(""))
  }

  predicate DefaultedJson(v: Option<Json>, r: Option<Json>) {
    r.Some? && (JsonDefined(v) ==> r == v) && (!JsonDefined(v) ==> r == Some(JString("")))
  }

  function TextOrEmpty(v: Option<string>): (r: Option<string>)
    ensures Defaulted(v, r)
  {
    if Truthy(v) then v else Some("")
  }

  function JsonOrEmpty(v: Option<Json>): (r: Option<Json>)
    ensures DefaultedJson(v, r)
  {
    if JsonDefined(v) then v else Some(JString(""))
  }

  /** `transformedData`: all nine fields, each falsy one as "". */
  function Transformed(d: Details): (r: Details)
    ensures Complete(r)
    ensures && Defaulted(d.name, r.name) && DefaultedJson(d.experience, r.experience)
            && Defaulted(d.skills, r.skills) && Defaulted(d.location, r.location)
            && Defaulted(d.linkedIn, r.linkedIn) && Defaulted(d.portfolio, r.portfolio)
            && Defaulted(d.github, r.github) && DefaultedJson(d.expectedSalary, r.expectedSalary)
            && Defaulted(d.availability, r.availability)
  {
    Details(
      TextOrEmpty(d.name), JsonOrEmpty(d.experience), TextOrEmpty(d.skills),
      TextOrEmpty(d.location), TextOrEmpty(d.linkedIn), TextOrEmpty(d.portfolio),
      TextOrEmpty(d.github), JsonOrEmpty(d.expectedSalary), TextOrEmpty(d.availability))
  }

  /** The "" defaults the extraction fills in are dropped again by the
    * save: saving what was extracted sends what the reply held. */
  lemma SaveIgnoresDefaults(d: Details)
    ensures SaveRequest(Transformed(d)) == SaveRequest(d)
  {
    var t := Transformed(d);
    assert SkillsArray(t.skills) == SkillsArray(d.skills);
  }

  /** Transforming twice is transforming once. */
  lemma TransformedIdempotent(d: Details)
    ensures Transformed(Transformed(d)) == Transformed(d)
  {
    var t := Transformed(d);
    assert !JsonTruthy(JString(""));
  }

  /** What the upload's `onSuccess` does once the file is stored: the steps
    * it sets, in order, and the data it stores, if any. `checksResume` is
    * whether a "not a resume" reply is recognised; `parseOk` and
    * `extractOk` are the two requests' outcomes. */
  function Processed(checksResume: bool, parseOk: bool, extractOk: bool, reply: ExtractReply): (r: (seq<Step>, Option<Details>))
    ensures |r.0| >= 2 && r.0[0] == Parsing
    ensures r.0[|r.0| - 1] == (if r.1.Some? then Review else Upload)
    ensures r.1.Some? <==> parseOk && extractOk && reply.Reply? && !(checksResume && IsNotResume(reply))
    ensures r.1.Some? ==> r.1 == Some(Transformed(reply.fields)) && r.0 == [Parsing, Extracting, Review]
    ensures !parseOk ==> r.0 == [Parsing, Upload]
    ensures parseOk ==> |r.0| == 3 && r.0[1] == Extracting
  {
    if !parseOk then ([Parsing, Upload], None)
    else if !extractOk then ([Parsing, Extracting, Upload], None)
    else
      match reply
      case Unparsable => ([Parsing, Extracting, Upload], None)
      case NullReply => ([Parsing, Extracting, Upload], None)
      case Reply(_, fields) =>
        if checksResume && IsNotResume(reply) then ([Parsing, Extracting, Upload], None)
        else ([Parsing, Extracting, Review], Some(Transformed(fields)))
  }

  /** Both requests succeeded, the variant checks for "not a resume" and
    * the extraction says so. */
  predicate Rejected(checksResume: bool, parseOk: bool, extractOk: bool, reply: ExtractReply) {
    parseOk && extractOk && checksResume && IsNotResume(reply)
  }

  /** One deletion of the stored resume for a rejected file. */
  function Deleted(checksResume: bool, parseOk: bool, extractOk: bool, reply: ExtractReply): nat {
    if Rejected(checksResume, parseOk, extractOk, reply) then 1 else 0
  }

  const NotResumeToast := "The uploaded file does not look like a resume. Please upload one."
  const InvalidTokenToast := "Invalid token, please sign in again"
  const SignInPath := "/api/auth/signin"
  const JobsPath := "/jobs"

  /** The page that does not check for "not a resume" takes that reply as
    * a resume and shows its fields for review; the hook and the flow send
    * the candidate back to the upload step. */
  lemma NotResumeHandledOnlyWhenChecked(fields: Details)
    ensures var reply := Reply(Some(JString("not a resume")), fields);
      && Processed(true, true, true, reply) == ([Parsing, Extracting, Upload], None)
      && Processed(false, true, true, reply) == ([Parsing, Extracting, Review], Some(Transformed(fields)))
  {
  }

  /** The steps of the profile flow: `useResumeUpload` with
    * `useSaveUserDetails`, `UserDetailsFlow`, and the older page. */
  class UploadFlow {
    /** Whether a "not a resume" reply is recognised: the hook and the flow
      * do, the older page does not. */
    const checksResume: bool
    var step: Step
    var extracted: Option<Details>
    /** The files chosen and not yet uploaded. */
    var files: seq<string>
    /** Every step set, oldest first. */
    var trail: seq<Step>
    /** The files sent to `PUT /upload-pdf`, oldest first. */
    var uploads: seq<string>
    /** How many times the stored resume was deleted as not a resume. */
    var deletions: nat
    /** How many extractions completed (the hook's `onSuccess`). */
    var completions: nat
    /** The payloads sent to `PUT /user-details`, oldest first. */
    var saves: seq<SavePayload>
    var uploadFailed: bool
    var saveFailed: bool
    /** Error toasts shown, oldest first. */
    var toasts: seq<string>
    /** The `router.push` targets, oldest first. */
    var pushed: seq<string>
    /** The `router.replace` targets, oldest first. */
    var replaced: seq<string>

    /** The review step always has data to show, and `step` is the last
      * step set. */
    predicate Valid()
      reads this
    {
      && (step == Review ==> extracted.Some?)
      && (if |trail| == 0 then step == Upload else step == trail[|trail| - 1])
    }

    constructor (checksResume: bool)
      ensures this.checksResume == checksResume
      ensures step == Upload && extracted.None? && files == [] && trail == []
      ensures uploads == [] && deletions == 0 && completions == 0 && saves == []
      ensures !uploadFailed && !saveFailed && toasts == [] && pushed == [] && replaced == []
      ensures Valid()
    {
      this.checksResume := checksResume;
      step := Upload;
      extracted := None;
      files := [];
      trail := [];
      uploads := [];
      deletions := 0;
      completions := 0;
      saves := [];
      uploadFailed := false;
      saveFailed := false;
      toasts := [];
      pushed := [];
      replaced := [];
    }

    /** `handleFileUpload`. */
    method ChooseFiles(chosen: seq<string>)
      modifies this
      requires Valid()
      ensures Valid()
      ensures files == chosen
      ensures step == old(step) && extracted == old(extracted) && trail == old(trail)
      ensures uploads == old(uploads) && saves == old(saves)
      ensures toasts == old(toasts) && pushed == old(pushed) && replaced == old(replaced)
    {
      files := chosen;
    }

    /** `uploadMutation.mutate(file)` through to the end of its `onSuccess`:
      * a failed upload only marks the mutation failed; a stored file clears
      * the chosen files and runs the parse and extraction steps. */
    method UploadFile(file: string, uploadOk: bool, parseOk: bool, extractOk: bool, reply: ExtractReply)
      modifies this
      requires Valid()
      ensures Valid()
      ensures uploads == old(uploads) + [file]
      ensures !uploadOk ==>
                && uploadFailed && step == old(step) && trail == old(trail) && files == old(files)
                && extracted == old(extracted) && deletions == old(deletions) && completions == old(completions)
                && toasts == old(toasts)
      ensures uploadOk ==>
                && files == [] && uploadFailed == old(uploadFailed)
                && trail == old(trail) + Processed(checksResume, parseOk, extractOk, reply).0
                && Stored(Processed(checksResume, parseOk, extractOk, reply).1, old(extracted), old(completions))
                && deletions == old(deletions) + Deleted(checksResume, parseOk, extractOk, reply)
                && toasts == old(toasts) + (if Rejected(checksResume, parseOk, extractOk, reply) then [NotResumeToast] else [])
      ensures saves == old(saves) && saveFailed == old(saveFailed)
      ensures pushed == old(pushed) && replaced == old(replaced)
    {
      uploads := uploads + [file];
      if !uploadOk {
        uploadFailed := true;
        return;
      }
      files := [];
      Process(parseOk, extractOk, reply);
    }

    /** The data a run of `onSuccess` leaves: what it extracted, counted
      * as one completion, or what was there before. */
    predicate Stored(data: Option<Details>, before: Option<Details>, completionsBefore: nat)
      reads this
    {
      && (data.Some? ==> extracted == data && completions == completionsBefore + 1)
      && (data.None? ==> extracted == before && completions == completionsBefore)
    }

    /** The upload's `onSuccess`. */
    method Process(parseOk: bool, extractOk: bool, reply: ExtractReply)
      modifies this
      requires Valid()
      ensures Valid()
      ensures trail == old(trail) + Processed(checksResume, parseOk, extractOk, reply).0
      ensures Stored(Processed(checksResume, parseOk, extractOk, reply).1, old(extracted), old(completions))
      ensures deletions == old(deletions) + Deleted(checksResume, parseOk, extractOk, reply)
      ensures toasts == old(toasts) + (if Rejected(checksResume, parseOk, extractOk, reply) then [NotResumeToast] else [])
      ensures files == old(files) && uploads == old(uploads) && saves == old(saves)
      ensures uploadFailed == old(uploadFailed) && saveFailed == old(saveFailed)
      ensures pushed == old(pushed) && replaced == old(replaced)
    {
      ghost var expected := Processed(checksResume, parseOk, extractOk, reply);
      SetStep(Parsing);
      if !parseOk {
        SetStep(Upload);
        return;
      }
      SetStep(Extracting);
      if !extractOk || reply.Unparsable? || reply.NullReply? {
        SetStep(Upload);
        return;
      }
      if checksResume && IsNotResume(reply) {
        deletions := deletions + 1;
        toasts := toasts + [NotResumeToast];
        SetStep(Upload);
        return;
      }
      extracted := Some(Transformed(reply.fields));
      SetStep(Review);
      completions := completions + 1;
    }

    /** `setCurrentStep`. */
    method SetStep(s: Step)
      modifies this
      requires s == Review ==> extracted.Some?
      requires Valid()
      ensures Valid()
      ensures step == s && trail == old(trail) + [s]
      ensures extracted == old(extracted) && files == old(files) && uploads == old(uploads)
      ensures deletions == old(deletions) && completions == old(completions) && saves == old(saves)
      ensures uploadFailed == old(uploadFailed) && saveFailed == old(saveFailed)
      ensures toasts == old(toasts) && pushed == old(pushed) && replaced == old(replaced)
    {
      step := s;
      trail := trail + [s];
    }

    /** `handleUpload`: nothing without a chosen file, otherwise the first
      * one is uploaded. */
    method HandleUpload(uploadOk: bool, parseOk: bool, extractOk: bool, reply: ExtractReply)
      modifies this
      requires Valid()
      ensures Valid()
      ensures old(files) == [] ==> uploads == old(uploads) && trail == old(trail) && step == old(step)
      ensures old(files) != [] ==> uploads == old(uploads) + [old(files)[0]]
      ensures pushed == old(pushed) && replaced == old(replaced)
    {
      if |files| == 0 {
        return;
      }
      UploadFile(files[0], uploadOk, parseOk, extractOk, reply);
    }

    /** The flow's effect for a candidate whose profile already has a
      * resume: at the upload step with no upload running it moves to
      * review, keeping data already extracted, else the mapped profile,
      * else `{}`. */
    method ResumePresent(profile: Option<Profile>, uploadPending: bool)
      modifies this
      requires Valid()
      ensures Valid()
      ensures HasResume(profile) && old(step) == Upload && !uploadPending ==>
                && step == Review && trail == old(trail) + [Review]
                && (old(extracted).Some? ==> extracted == old(extracted))
                && (old(extracted).None? && profile.Some? ==> extracted == Mapped(profile))
      ensures !(HasResume(profile) && old(step) == Upload && !uploadPending) ==>
                step == old(step) && extracted == old(extracted) && trail == old(trail)
      ensures uploads == old(uploads) && saves == old(saves) && files == old(files)
      ensures toasts == old(toasts) && pushed == old(pushed) && replaced == old(replaced)
    {
      if HasResume(profile) && step == Upload && !uploadPending {
        if extracted.None? {
          var mapped := Mapped(profile);
          extracted := if mapped.Some? then mapped else Some(NoDetails);
        }
        SetStep(Review);
      }
    }

    /** `handleSave`: "saving", then the payload is sent; a stored profile
      * moves to "success", a failure marks the mutation failed. */
    method HandleSave(d: Details, saved: bool)
      modifies this
      requires Valid()
      ensures Valid()
      ensures saves == old(saves) + [SaveRequest(d)]
      ensures saved ==> step == Success && trail == old(trail) + [Saving, Success] && saveFailed == old(saveFailed)
      ensures !saved ==> step == Saving && trail == old(trail) + [Saving] && saveFailed
      ensures extracted == old(extracted) && uploads == old(uploads) && files == old(files)
      ensures toasts == old(toasts) && pushed == old(pushed) && replaced == old(replaced)
    {
      var request := SaveRequest(d);
      SetStep(Saving);
      saves := saves + [request];
      ghost var sent := trail;
      if saved {
        SetStep(Success);
        assert trail == sent + [Success];
      } else {
        saveFailed := true;
      }
    }

    /** The page's "Try again": both mutations reset, back to "upload". */
    method Retry()
      modifies this
      requires Valid()
      ensures Valid()
      ensures !uploadFailed && !saveFailed && step == Upload && trail == old(trail) + [Upload]
      ensures extracted == old(extracted) && uploads == old(uploads) && saves == old(saves)
      ensures toasts == old(toasts) && pushed == old(pushed) && replaced == old(replaced)
    {
      uploadFailed := false;
      saveFailed := false;
      SetStep(Upload);
    }

    /** The profile query's `onError` (the flow and the hook; the older page
      * has no profile query): an "Invalid token" failure toasts and sends
      * the candidate to sign in, any other failure does neither. */
    method ProfileQueryFailed(message: string)
      modifies this
      requires Valid()
      ensures Valid()
      ensures message == "Invalid token" ==>
                toasts == old(toasts) + [InvalidTokenToast] && replaced == old(replaced) + [SignInPath]
      ensures message != "Invalid token" ==> toasts == old(toasts) && replaced == old(replaced)
      ensures step == old(step) && trail == old(trail) && extracted == old(extracted) && pushed == old(pushed)
      ensures uploads == old(uploads) && saves == old(saves) && files == old(files)
    {
      if message == "Invalid token" {
        toasts := toasts + [InvalidTokenToast];
        replaced := replaced + [SignInPath];
      }
    }

    /** The two-second timer set on reaching "success": it is cleared when
      * the step changes first, so when it fires at "success" the candidate
      * is sent to the job list, and at any other step nothing happens. */
    method SuccessTimerFired()
      modifies this
      requires Valid()
      ensures Valid()
      ensures old(step) == Success ==> pushed == old(pushed) + [JobsPath]
      ensures old(step) != Success ==> pushed == old(pushed)
      ensures step == old(step) && trail == old(trail) && extracted == old(extracted)
      ensures toasts == old(toasts) && replaced == old(replaced)
      ensures uploads == old(uploads) && saves == old(saves) && files == old(files)
    {
      if step == Success {
        pushed := pushed + [JobsPath];
      }
    }
  }
}
