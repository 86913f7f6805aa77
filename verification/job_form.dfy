/** The recruiters' "Post a Job" dialog, in both front ends, and the
  * skills input of the older one: the skill list, the required fields,
  * and the payload sent to the back end, whose optional texts are trimmed
  * or left out. */
module JobForm {
  import opened Wrappers
  import opened JsStrings
  import opened Seqs
  import opened JsonValues

  /** The older front end (`apps/frontend`) and the newer one
    * (`job-placement-platform/apps/frontend`). */
  datatype Variant = Older | Newer

  datatype FormData = FormData(
    title: string, description: string, jobtype: string, location: string, isRemote: bool,
    salaryMin: string, salaryMax: string, salaryCurrency: string,
    requirements: string, responsibilities: string, benefits: string,
    applicationurl: string, contactEmail: string, experienceLevel: string, deadline: string)

  /** `initialFormState`: every text empty except the currency, which is
    * "USD" in the older front end and "NPR" in the newer one. */
  function InitialForm(v: Variant): (f: FormData)
    ensures f.title == "" && f.jobtype == "" && f.deadline == "" && !f.isRemote
    ensures f.salaryCurrency == (if v == Older then "USD" else "NPR")
  {
    FormData("", "", "", "", false, "", "", if v == Older then "USD" else "NPR",
             "", "", "", "", "", "", "")
  }

  /** `Number(text)`; the conversion itself is not modelled. */
  datatype Numeric = Number(text: string)

  /** `s.trim() || undefined`. */
  function TrimmedOrUndefined(s: string): (r: Option<string>)
    ensures r.None? <==> IsBlank(s)
    ensures r.Some? ==> r.value == Trim(s) && r.value != "" && IsTrimmed(r.value)
  {
    var t := Trim(s);
    if t == "" then None else Some(t)
  }

  /** `s ? Number(s) : undefined`. */
  function NumberIfGiven(s: string): (r: Option<Numeric>)
    ensures r.None? <==> s == ""
    ensures r.Some? ==> r.value == Number(s)
  {
    if s == "" then None else Some(Number(s))
  }

  datatype Payload = Payload(
    title: string, description: Option<string>, jobtype: string, location: Option<string>, isRemote: bool,
    salaryMin: Option<Numeric>, salaryMax: Option<Numeric>, salaryCurrency: Option<string>,
    requirements: Option<string>, responsibilities: Option<string>, benefits: Option<string>,
    applicationurl: Option<string>, contactEmail: Option<string>, experienceLevel: Option<Numeric>,
    skills: seq<string>, isactive: bool, isfeatured: bool, deadline: string)

  predicate CleanText(o: Option<string>) {
    o.Some? ==> o.value != "" && IsTrimmed(o.value)
  }

  /** What the back end receives: the required texts trimmed and
    * non-empty, every optional text trimmed and non-empty when present,
    * and the job active and not featured. */
  predicate CleanPayload(p: Payload) {
    && p.title != "" && IsTrimmed(p.title) && p.jobtype != "" && IsTrimmed(p.jobtype)
    && CleanText(p.description) && CleanText(p.location) && CleanText(p.salaryCurrency)
    && CleanText(p.requirements) && CleanText(p.responsibilities) && CleanText(p.benefits)
    && CleanText(p.applicationurl) && CleanText(p.contactEmail)
    && p.isactive && !p.isfeatured
  }

  const TitleRequired := "Job title is required"
  const TypeRequired := "Job type is required"
  const DeadlineRequired := "Deadline is required"
  /** What `toISOString` throws on an invalid date. */
  const InvalidTime := "Invalid time value"

  /** The payload of a form that passed the checks. */
  function Assemble(f: FormData, skills: seq<string>, deadline: string): (p: Payload)
    requires !IsBlank(f.title) && !IsBlank(f.jobtype)
    ensures CleanPayload(p)
    ensures p.title == Trim(f.title) && p.jobtype == Trim(f.jobtype)
    ensures p.skills == skills && p.deadline == deadline
  {
    Payload(
      Trim(f.title), TrimmedOrUndefined(f.description), Trim(f.jobtype), TrimmedOrUndefined(f.location),
      f.isRemote, NumberIfGiven(f.salaryMin), NumberIfGiven(f.salaryMax),
      TrimmedOrUndefined(f.salaryCurrency), TrimmedOrUndefined(f.requirements),
      TrimmedOrUndefined(f.responsibilities), TrimmedOrUndefined(f.benefits),
      TrimmedOrUndefined(f.applicationurl), TrimmedOrUndefined(f.contactEmail),
      NumberIfGiven(f.experienceLevel), skills, true, false, deadline)
  }

  /** The `mutationFn` before the request: the title, the job type and the
    * deadline are checked in that order, then the payload is built.
    * `deadlineIso` is `new Date(deadline).toISOString()`, `None` when the
    * date is invalid and the conversion throws. */
  function BuildPayload(f: FormData, skills: seq<string>, deadlineIso: Option<string>): (r: Result<Payload, string>)
    ensures IsBlank(f.title) ==> r == Err(TitleRequired)
    ensures !IsBlank(f.title) && IsBlank(f.jobtype) ==> r == Err(TypeRequired)
    ensures !IsBlank(f.title) && !IsBlank(f.jobtype) && f.deadline == "" ==> r == Err(DeadlineRequired)
    ensures (&& !IsBlank(f.title) && !IsBlank(f.jobtype) && f.deadline != ""
             && deadlineIso.None?) ==> r == Err(InvalidTime)
    ensures r.Ok? <==> !IsBlank(f.title) && !IsBlank(f.jobtype) && f.deadline != "" && deadlineIso.Some?
    ensures r.Ok? ==> CleanPayload(r.value)
    ensures r.Ok? ==> r.value.title == Trim(f.title) && r.value.jobtype == Trim(f.jobtype)
    ensures r.Ok? ==> r.value.skills == skills && r.value.deadline == deadlineIso.value
  {
    if Trim(f.title) == "" then Err(TitleRequired)
    else if Trim(f.jobtype) == "" then Err(TypeRequired)
    else if f.deadline == "" then Err(DeadlineRequired)
    else if deadlineIso.None? then Err(InvalidTime)
    else Ok(Assemble(f, skills, deadlineIso.value))
  }

  /** Each optional text is sent trimmed when it has any, and left out
    * when blank; each number is sent when typed. */
  lemma PayloadFields(f: FormData, skills: seq<string>, deadlineIso: Option<string>)
    requires BuildPayload(f, skills, deadlineIso).Ok?
    ensures var p := BuildPayload(f, skills, deadlineIso).value;
      && p.description == TrimmedOrUndefined(f.description)
      && p.location == TrimmedOrUndefined(f.location)
      && p.salaryCurrency == TrimmedOrUndefined(f.salaryCurrency)
      && p.requirements == TrimmedOrUndefined(f.requirements)
      && p.responsibilities == TrimmedOrUndefined(f.responsibilities)
      && p.benefits == TrimmedOrUndefined(f.benefits)
      && p.applicationurl == TrimmedOrUndefined(f.applicationurl)
      && p.contactEmail == TrimmedOrUndefined(f.contactEmail)
      && p.salaryMin == NumberIfGiven(f.salaryMin)
      && p.salaryMax == NumberIfGiven(f.salaryMax)
      && p.experienceLevel == NumberIfGiven(f.experienceLevel)
      && p.isRemote == f.isRemote
  {
  }

  /** A blank required field is reported even when the others are blank
    * too: the title comes first. */
  lemma EmptyFormAsksForTitle(v: Variant, skills: seq<string>, deadlineIso: Option<string>)
    ensures BuildPayload(InitialForm(v), skills, deadlineIso) == Err(TitleRequired)
  {
  }

  /** Surrounding a text field with white space does not change the
    * payload. */
  lemma PaddingIgnored(f: FormData, pad: string, skills: seq<string>, deadlineIso: Option<string>)
    requires IsBlank(pad)
    ensures BuildPayload(f.(title := pad + f.title + pad, location := pad + f.location), skills, deadlineIso)
            == BuildPayload(f, skills, deadlineIso)
  {
    var g := f.(title := pad + f.title + pad, location := pad + f.location);
    TrimPadded(pad, f.title, pad);
    TrimPadded(pad, f.location, "");
    assert pad + f.location + "" == pad + f.location;
    SameTrimSamePayload(f, g, skills, deadlineIso);
  }

  /** Two forms whose title and location trim to the same text, and that
    * agree elsewhere, give the same payload. */
  lemma SameTrimSamePayload(f: FormData, g: FormData, skills: seq<string>, deadlineIso: Option<string>)
    requires Trim(g.title) == Trim(f.title) && Trim(g.location) == Trim(f.location)
    requires g == f.(title := g.title, location := g.location)
    ensures BuildPayload(g, skills, deadlineIso) == BuildPayload(f, skills, deadlineIso)
  {
    assert TrimmedOrUndefined(g.location) == TrimmedOrUndefined(f.location);
    if BuildPayload(f, skills, deadlineIso).Ok? {
      assert Assemble(g, skills, deadlineIso.value) == Assemble(f, skills, deadlineIso.value);
    }
  }

  // ---------------------------------------------------------------- skills

  /** Every skill is trimmed and non-empty, and none is listed twice. */
  predicate SkillsWellFormed(skills: seq<string>) {
    && (forall i :: 0 <= i < |skills| ==> skills[i] != "" && IsTrimmed(skills[i]))
    && NoDuplicates(skills)
  }

  /** `handleKeyDown` of the skills input (and the older dialog's own
    * `handleSkillKeyDown`): the skill Enter adds, if any. */
  function SkillToAdd(key: string, skillInput: string, skills: seq<string>): (r: Option<string>)
    ensures r.Some? <==> key == "Enter" && !IsBlank(skillInput) && Trim(skillInput) !in skills
    ensures r.Some? ==> r.value == Trim(skillInput) && r.value != "" && IsTrimmed(r.value) && r.value !in skills
  {
    if key != "Enter" then None
    else
      var value := Trim(skillInput);
      if value == "" || value in skills then None else Some(value)
  }

  /** Adding what the skills input offers keeps the list well formed. */
  lemma OfferedSkillKeepsListWellFormed(key: string, skillInput: string, skills: seq<string>)
    requires SkillsWellFormed(skills) && SkillToAdd(key, skillInput, skills).Some?
    ensures SkillsWellFormed(skills + [SkillToAdd(key, skillInput, skills).value])
  {
    var v := SkillToAdd(key, skillInput, skills).value;
    var r := skills + [v];
    forall i, j | 0 <= i < j < |r| ensures r[i] != r[j] {
      if j == |skills| {
        assert r[i] in skills;
      }
    }
  }

  /** The filter `s !== value`. */
  function Kept(value: string): string -> bool {
    (s: string) => s != value
  }

  /** `skills.filter(s => s !== value)`. */
  function Without(skills: seq<string>, value: string): (r: seq<string>)
    ensures value !in r
    ensures IsSubsequence(r, skills)
    ensures forall i :: 0 <= i < |skills| && skills[i] != value ==> skills[i] in r
  {
    FilterIsSubsequence(Kept(value), skills);
    Filter(Kept(value), skills)
  }

  /** Removing a skill keeps the list well formed. */
  lemma WithoutKeepsListWellFormed(skills: seq<string>, value: string)
    requires SkillsWellFormed(skills)
    ensures SkillsWellFormed(Without(skills, value))
  {
    FilterKeepsNoDuplicates(Kept(value), skills);
    var r := Without(skills, value);
    forall i | 0 <= i < |r| ensures r[i] != "" && IsTrimmed(r[i]) {
      assert r[i] in skills;
    }
  }

  const PostedToast := "Job posted successfully"

  const CreateFailed := "Failed to create job"

  /** The message of the error thrown for a refused post,
    * `data.message || "Failed to create job"` as a string. `onError`
    * toasts it with no fallback of its own, so a truthy message that
    * prints as nothing (such as `[]`) gives an empty toast. */
  function RefusalToast(message: Option<Json>): (t: string)
    ensures message.Some? && JsonTruthy(message.value) ==> t == ToJsString(message.value)
    ensures !(message.Some? && JsonTruthy(message.value)) ==> t == CreateFailed
  {
    ToJsString(OrElse(message, JString(CreateFailed)))
  }

  /** How the post ended: a response with `ok` set, a refusal with its
    * parsed JSON body, or an exception with its message (a rejected
    * `fetch`, or a body that is not JSON). A created job's body is not
    * read beyond parsing. */
  datatype PostReply = Created | Refused(body: Json) | Thrown(message: string)

  /** The toast `onError` shows for a failed post: the thrown error's own
    * message, where reading `message` of a `null` refusal body throws a
    * `TypeError`. */
  function FailureToast(reply: PostReply): (t: string)
    requires !reply.Created?
    ensures reply.Thrown? ==> t == reply.message
    ensures reply.Refused? && reply.body.JNull? ==> t == NullRead("message")
    ensures reply.Refused? && !reply.body.JNull? ==> t == RefusalToast(Get(reply.body, "message"))
  {
    match reply
    case Thrown(message) => message
    case Refused(body) => if body.JNull? then NullRead("message") else RefusalToast(Get(body, "message"))
  }

  /** A refusal whose body has no usable message toasts the fixed text, and
    * a refusal with a `null` body toasts the `TypeError` instead. */
  lemma RefusalFallbacks()
    ensures FailureToast(Refused(JObject([]))) == CreateFailed
    ensures FailureToast(Refused(JObject([("message", JString(""))]))) == CreateFailed
    ensures FailureToast(Refused(JNull)) == NullRead("message") != CreateFailed
  {
    assert Get(JObject([("message", JString(""))]), "message") == Some(JString(""));
  }

  /** The dialog's state. */
  class PostJobDialog {
    const variant: Variant
    var form: FormData
    var skills: seq<string>
    var skillInput: string
    var open: bool
    /** Payloads sent to the back end, oldest first. */
    var posted: seq<Payload>
    /** Toasts shown, oldest first. */
    var toasts: seq<string>

    constructor (v: Variant, isOpen: bool)
      ensures variant == v && form == InitialForm(v) && skills == [] && skillInput == ""
      ensures open == isOpen && posted == [] && toasts == []
    {
      variant := v;
      form := InitialForm(v);
      skills := [];
      skillInput := "";
      open := isOpen;
      posted := [];
      toasts := [];
    }

    /** The older dialog's `handleSkillKeyDown`: Enter appends the trimmed
      * input when it is new and not blank, and clears the input. */
    method SkillKeyDown(key: string)
      modifies this
      ensures SkillToAdd(key, old(skillInput), old(skills)).Some? ==>
                skills == old(skills) + [SkillToAdd(key, old(skillInput), old(skills)).value] && skillInput == ""
      ensures SkillToAdd(key, old(skillInput), old(skills)).None? ==>
                skills == old(skills) && skillInput == old(skillInput)
      ensures form == old(form) && open == old(open) && posted == old(posted) && toasts == old(toasts)
      ensures SkillsWellFormed(old(skills)) ==> SkillsWellFormed(skills)
    {
      if key == "Enter" {
        var value := Trim(skillInput);
        if value == "" || value in skills {
          return;
        }
        if SkillsWellFormed(skills) {
          OfferedSkillKeepsListWellFormed(key, skillInput, skills);
        }
        skills := skills + [value];
        skillInput := "";
      }
    }

    /** The newer dialog's `handleAddSkill`: appends whatever the skills
      * input passes, with no check of its own, and clears the input. */
    method AddSkill(skill: string)
      modifies this
      ensures skills == old(skills) + [skill] && skillInput == ""
      ensures form == old(form) && open == old(open) && posted == old(posted) && toasts == old(toasts)
    {
      skills := skills + [skill];
      skillInput := "";
    }

    /** `removeSkill` / `handleRemoveSkill`: every entry equal to the value
      * goes, the others stay in order. */
    method RemoveSkill(value: string)
      modifies this
      ensures skills == Without(old(skills), value)
      ensures skillInput == old(skillInput) && form == old(form) && open == old(open)
      ensures posted == old(posted) && toasts == old(toasts)
      ensures SkillsWellFormed(old(skills)) ==> SkillsWellFormed(skills)
    {
      if SkillsWellFormed(skills) {
        WithoutKeepsListWellFormed(skills, value);
      }
      skills := Without(skills, value);
    }

    /** `onSuccess`: the form, the skills and the input back to their
      * initial state, and the dialog closed. */
    method Reset()
      modifies this
      ensures form == InitialForm(variant) && skills == [] && skillInput == "" && !open
      ensures posted == old(posted) && toasts == old(toasts)
    {
      form := InitialForm(variant);
      skills := [];
      skillInput := "";
      open := false;
    }

    /** Sending a checked payload: a created job shows the success toast and
      * resets the dialog, a failure shows its message and keeps the form. */
    method Send(payload: Payload, reply: PostReply)
      modifies this
      ensures posted == old(posted) + [payload]
      ensures reply.Created? ==>
                && toasts == old(toasts) + [PostedToast]
                && form == InitialForm(variant) && skills == [] && skillInput == "" && !open
      ensures !reply.Created? ==>
                && toasts == old(toasts) + [FailureToast(reply)]
                && form == old(form) && skills == old(skills) && skillInput == old(skillInput) && open == old(open)
    {
      posted := posted + [payload];
      if reply.Created? {
        toasts := toasts + [PostedToast];
        Reset();
      } else {
        toasts := toasts + [FailureToast(reply)];
      }
    }

    /** Submitting: a failed check or a failed post shows its message as a toast
      * and changes nothing else; a created job resets the form, the skills
      * and the input, and closes the dialog. */
    method Submit(deadlineIso: Option<string>, reply: PostReply)
      modifies this
      ensures BuildPayload(old(form), old(skills), deadlineIso).Err? ==>
                && toasts == old(toasts) + [BuildPayload(old(form), old(skills), deadlineIso).error]
                && posted == old(posted) && form == old(form) && skills == old(skills)
                && skillInput == old(skillInput) && open == old(open)
      ensures BuildPayload(old(form), old(skills), deadlineIso).Ok? ==>
                posted == old(posted) + [BuildPayload(old(form), old(skills), deadlineIso).value]
      ensures BuildPayload(old(form), old(skills), deadlineIso).Ok? && reply.Created? ==>
                && toasts == old(toasts) + [PostedToast]
                && form == InitialForm(variant) && skills == [] && skillInput == "" && !open
      ensures BuildPayload(old(form), old(skills), deadlineIso).Ok? && !reply.Created? ==>
                && toasts == old(toasts) + [FailureToast(reply)]
                && form == old(form) && skills == old(skills) && skillInput == old(skillInput) && open == old(open)
    {
      var payload := BuildPayload(form, skills, deadlineIso);
      if payload.Err? {
        toasts := toasts + [payload.error];
      } else {
        Send(payload.value, reply);
      }
    }
  }
}
