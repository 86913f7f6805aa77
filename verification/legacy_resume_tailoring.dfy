/** The earlier resume-tailoring service: no placeholder sanitising, a
  * personal-information section printed first, and key highlights and
  * closing notes in the document. */
module LegacyResumeTailoring {
  import opened Wrappers
  import opened JsStrings
  import opened Seqs
  import opened JsonValues
  import opened ResumeRules

  // ------------------------------------------------- reading the answer

  /** One array element: `String(item).trim()`. */
  function CleanItem(item: Json): string {
    Trim(ToJsString(item))
  }

  /** A line that cleaning keeps: non-empty and trimmed. */
  predicate CleanLines(xs: seq<string>) {
    forall i :: 0 <= i < |xs| ==> xs[i] != "" && IsTrimmed(xs[i])
  }

  /** The `clean` helper: every element printed and trimmed, with the empty
    * results dropped. */
  function Clean(items: seq<Json>): (r: seq<string>)
    ensures CleanLines(r)
    ensures |r| <= |items|
  {
    var r := Filter(NonEmpty, Map(CleanItem, items));
    assert forall i :: 0 <= i < |r| ==> r[i] in r;
    r
  }

  /** Cleaning works element by element: it keeps the order of the lines. */
  lemma CleanAppend(a: seq<Json>, b: seq<Json>)
    ensures Clean(a + b) == Clean(a) + Clean(b)
  {
    MapAppend(CleanItem, a, b);
    FilterAppend(NonEmpty, Map(CleanItem, a), Map(CleanItem, b));
  }

  /** Clean lines written back as JSON strings read back unchanged. */
  lemma CleanOfStrings(xs: seq<string>)
    requires CleanLines(xs)
    ensures Clean(Map(x => JString(x), xs)) == xs
  {
    var items := Map(x => JString(x), xs);
    var m := Map(CleanItem, items);
    forall i | 0 <= i < |xs| ensures m[i] == xs[i] {
      assert ToJsString(items[i]) == xs[i];
    }
    assert m == xs;
    FilterAllPass(NonEmpty, xs);
  }

  predicate CleanContent(c: TailoredContent) {
    CleanLines(c.personalInfo) && CleanLines(c.introduction) && CleanLines(c.projects)
    && CleanLines(c.technicalSkills) && CleanLines(c.keyHighlights)
    && CleanLines(c.experiences) && CleanLines(c.education) && CleanLines(c.closingNotes)
  }

  /** `parseStructuredResume`: `parsed` is what `JSON.parse(payload)` gives,
    * `None` when it throws. */
  function ParseStructuredResume(payload: string, parsed: Option<Json>): (r: Option<TailoredContent>)
    ensures r.Some? <==> HasText(payload) && parsed.Some? && HasAllSections(parsed.value)
    ensures r.Some? ==> CleanContent(r.value)
  {
    if !HasText(payload) then None
    else if parsed.None? then None
    else
      var v := parsed.value;
      if v.JNull? then None
      else if HasAllSections(v) then Some(Sections(v))
      else None
  }

  /** The trimmed arrays of the eight sections. */
  function Sections(v: Json): (c: TailoredContent)
    requires HasAllSections(v)
    ensures CleanContent(c)
  {
    TailoredContent(
      Clean(Items(v, "personalInfo")),
      Clean(Items(v, "introduction")),
      Clean(Items(v, "projects")),
      Clean(Items(v, "technicalSkills")),
      Clean(Items(v, "keyHighlights")),
      Clean(Items(v, "experiences")),
      Clean(Items(v, "education")),
      Clean(Items(v, "closingNotes")))
  }

  lemma SectionsOfClean(v: Json, c: TailoredContent)
    requires Holds(v, c) && CleanContent(c)
    ensures HasAllSections(v) && Sections(v) == c
  {
    CleanOfStrings(c.personalInfo);
    CleanOfStrings(c.introduction);
    CleanOfStrings(c.projects);
    CleanOfStrings(c.technicalSkills);
    CleanOfStrings(c.keyHighlights);
    CleanOfStrings(c.experiences);
    CleanOfStrings(c.education);
    CleanOfStrings(c.closingNotes);
  }

  /** Round trip: any JSON object holding trimmed, non-empty lines as string
    * arrays parses back to exactly those lines. */
  lemma ParseOfClean(payload: string, v: Json, c: TailoredContent)
    requires HasText(payload) && Holds(v, c) && CleanContent(c)
    ensures ParseStructuredResume(payload, Some(v)) == Some(c)
  {
    SectionsOfClean(v, c);
  }

  // ------------------------------------------------ personal information

  /** `filterPersonalInfo`: trim, drop empty lines, keep the lines the
    * shared test accepts. Labelled values are not inspected. */
  function FilterPersonalInfo(entries: seq<string>): (r: seq<string>)
    ensures forall e :: e in r ==> e != "" && IsTrimmed(e) && KeepPersonalEntry(e)
    ensures |r| <= |entries|
  {
    var trimmed := Filter(NonEmpty, Map(Trim, entries));
    assert forall e :: e in trimmed ==> IsTrimmed(e);
    Filter(KeepPersonalEntry, trimmed)
  }

  /** Lines are filtered one by one: the filter keeps their order. */
  lemma FilterPersonalInfoAppend(a: seq<string>, b: seq<string>)
    ensures FilterPersonalInfo(a + b) == FilterPersonalInfo(a) + FilterPersonalInfo(b)
  {
    MapAppend(Trim, a, b);
    FilterAppend(NonEmpty, Map(Trim, a), Map(Trim, b));
    FilterAppend(KeepPersonalEntry, Filter(NonEmpty, Map(Trim, a)), Filter(NonEmpty, Map(Trim, b)));
  }

  /** Filtering the filtered lines again changes nothing. */
  lemma FilterPersonalInfoIdempotent(entries: seq<string>)
    ensures FilterPersonalInfo(FilterPersonalInfo(entries)) == FilterPersonalInfo(entries)
  {
    var r := FilterPersonalInfo(entries);
    forall i | 0 <= i < |r| ensures Trim(r[i]) == r[i] && r[i] != "" && KeepPersonalEntry(r[i]) {
      assert r[i] in r;
    }
    MapFixed(Trim, r);
    FilterAllPass(NonEmpty, r);
    FilterAllPass(KeepPersonalEntry, r);
  }

  /** A labelled line without an e-mail address or a run of three digits is
    * printed as it is, even when its value is a placeholder such as
    * "LinkedIn: N/A". */
  lemma PlaceholderValueKept(name: string, value: string)
    requires IsTrimmed(name + ":" + value)
    requires '@' !in name + ":" + value
    requires forall k :: 0 <= k < |name + ":" + value| ==> !DigitsAt(ToLower(name + ":" + value), k)
    ensures FilterPersonalInfo([name + ":" + value]) == [name + ":" + value]
  {
    var e := name + ":" + value;
    assert e[|name|] == ':';
    EmailNeedsAt(e);
    FewDigitsNoAddress(ToLower(e));
    assert Map(Trim, [e]) == [e];
  }

  // -------------------------------------------------------------- header

  /** `resume.Name || user.name || 'Candidate'`: never empty, but a name of
    * spaces only is printed as it is. */
  function DisplayName(resume: ResumeFields, user: Account): (n: string)
    ensures n != ""
    ensures Truthy(resume.name) ==> n == resume.name.value
    ensures !Truthy(resume.name) && Truthy(user.name) ==> n == user.name.value
    ensures !Truthy(resume.name) && !Truthy(user.name) ==> n == "Candidate"
  {
    var chosen := Or(resume.name, user.name);
    if Truthy(chosen) then chosen.value else "Candidate"
  }

  /** `details.location || resume.Location || ''`. */
  function AddressLine(details: ProfileDetails, resume: ResumeFields): (a: string)
    ensures a == "" <==> !Truthy(details.location) && !Truthy(resume.location)
    ensures Truthy(details.location) ==> a == details.location.value
    ensures !Truthy(details.location) && Truthy(resume.location) ==> a == resume.location.value
  {
    var chosen := Or(details.location, resume.location);
    if Truthy(chosen) then chosen.value else ""
  }

  function TrimPresent(o: Option<string>): string {
    Trim(o.GetOr(""))
  }

  /** What one chosen value contributes to the contact line: nothing when
    * falsy, else the value trimmed. */
  function SegmentOf(o: Option<string>): seq<string> {
    if Truthy(o) then [Trim(o.value)] else []
  }

  /** The contact segments: e-mail, then LinkedIn, portfolio and GitHub from
    * the resume or else the profile; missing ones dropped, the rest trimmed.
    * A value of spaces only survives as an empty segment. */
  function ContactSegments(resume: ResumeFields, user: Account, details: ProfileDetails): (segs: seq<string>)
    ensures |segs| <= 4
    ensures forall i :: 0 <= i < |segs| ==> IsTrimmed(segs[i])
    ensures segs == SegmentOf(user.email) + (SegmentOf(Or(resume.linkedIn, details.linkedin))
                    + (SegmentOf(Or(resume.portfolio, details.portfolio)) + SegmentOf(Or(resume.github, details.github))))
  {
    var chosen := [
      user.email,
      Or(resume.linkedIn, details.linkedin),
      Or(resume.portfolio, details.portfolio),
      Or(resume.github, details.github)];
    FilterFour(Truthy, chosen[0], chosen[1], chosen[2], chosen[3]);
    var kept := Filter(Truthy, chosen);
    var segs := Map(TrimPresent, kept);
    SegmentsOfKept(chosen[0], chosen[1], chosen[2], chosen[3]);
    segs
  }

  /** Trimming the kept values one by one gives each value's segment. */
  lemma {:induction false} SegmentsOfKept(a: Option<string>, b: Option<string>, c: Option<string>, d: Option<string>)
    ensures Map(TrimPresent, IfKept(Truthy, a) + (IfKept(Truthy, b) + (IfKept(Truthy, c) + IfKept(Truthy, d))))
         == SegmentOf(a) + (SegmentOf(b) + (SegmentOf(c) + SegmentOf(d)))
  {
    var ka, kb, kc, kd := IfKept(Truthy, a), IfKept(Truthy, b), IfKept(Truthy, c), IfKept(Truthy, d);
    SegmentOfKept(a);
    SegmentOfKept(b);
    SegmentOfKept(c);
    SegmentOfKept(d);
    MapAppend(TrimPresent, kc, kd);
    MapAppend(TrimPresent, kb, kc + kd);
    MapAppend(TrimPresent, ka, kb + (kc + kd));
  }

  lemma {:induction false} SegmentOfKept(o: Option<string>)
    ensures Map(TrimPresent, IfKept(Truthy, o)) == SegmentOf(o)
  {
    if Truthy(o) {
      assert IfKept(Truthy, o) == [o];
    } else {
      assert IfKept(Truthy, o) == [];
    }
  }

  /** A LinkedIn value of spaces only is truthy, so it is chosen over the
    * profile's link and printed as an empty segment. */
  lemma SpacesOnlySegmentKept(resume: ResumeFields, user: Account, details: ProfileDetails)
    requires !Truthy(user.email) && resume.linkedIn == Some(" ")
    ensures |ContactSegments(resume, user, details)| > 0
    ensures ContactSegments(resume, user, details)[0] == ""
  {
    assert Trim(" ") == "";
  }

  /** The older header prints a placeholder name as it is: the resume's
    * "N/A" wins over the account name. */
  lemma PlaceholderNamePrinted(resume: ResumeFields, user: Account)
    requires resume.name == Some("N/A")
    ensures DisplayName(resume, user) == "N/A"
  {
  }

  // ------------------------------------------------------------ sections

  /** `writeTailoredContent` as the lines it prints: personal information
    * (only what the filter keeps, and only when something is left), then
    * the rest of the document. */
  function TailoredLines(c: TailoredContent): seq<string> {
    StructuredLines("PERSONAL INFO", FilterPersonalInfo(c.personalInfo)) + BodyLines(c)
  }

  /** The introduction, six sections in order, closing notes last. */
  function BodyLines(c: TailoredContent): seq<string> {
    c.introduction
    + StructuredLines("PROJECTS", c.projects)
    + StructuredLines("TECHNICAL SKILLS", c.technicalSkills)
    + StructuredLines("KEY HIGHLIGHTS", c.keyHighlights)
    + StructuredLines("EXPERIENCE", c.experiences)
    + StructuredLines("EDUCATION", c.education)
    + StructuredLines("CLOSING NOTES", c.closingNotes)
  }

  /** The personal-information section, when printed, opens the document
    * and each of its bullets is a line that passed the filter: none holds
    * an e-mail address. */
  lemma PersonalInfoSection(c: TailoredContent)
    ensures var info := FilterPersonalInfo(c.personalInfo);
      |info| > 0 ==>
        TailoredLines(c)[0] == "PERSONAL INFO"
        && forall i :: 0 <= i < |info| ==>
             TailoredLines(c)[i + 1] == "• " + info[i] && !EmailLike(info[i])
  {
    var info := FilterPersonalInfo(c.personalInfo);
    var head := StructuredLines("PERSONAL INFO", info);
    var lines := TailoredLines(c);
    assert lines == head + BodyLines(c);
    forall i | 0 <= i < |info| ensures lines[i + 1] == "• " + info[i] && !EmailLike(info[i]) {
      assert info[i] in info;
      assert lines[i + 1] == head[i + 1];
    }
  }
}
