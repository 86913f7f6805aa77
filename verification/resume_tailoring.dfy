/** The resume-tailoring service of the current backend: placeholder
  * sanitising, reading the model's JSON answer, cleaning "label: value"
  * lines of personal information, and the header and sections of the
  * tailored PDF, seen as the text lines it prints. */
module ResumeTailoring {
  import opened Wrappers
  import opened JsStrings
  import opened Seqs
  import opened JsonValues
  import opened ResumeRules

  // -------------------------------------------------------- placeholders

  /** Values that stand for "no value", compared after lower-casing. */
  const Placeholders: set<string> := {
    "n/a", "na", "notapplicable", "notavailable", "notprovided", "nospecified",
    "notspecified", "unknown", "none", "null", "undefined", "-", "--"
  }

  /** The characters `[\s._\-\/]` that the compact comparison ignores. */
  predicate Ignored(c: char) {
    IsSpace(c) || c == '.' || c == '_' || c == '-' || c == '/'
  }

  function KeepChar(c: char): bool { !Ignored(c) }

  /** `lowered.replace(/[\s._\-\/]/g, '')`. */
  function Compact(s: string): (r: string)
    ensures forall i :: 0 <= i < |r| ==> !Ignored(r[i])
  {
    var r := Filter(KeepChar, s);
    assert forall i :: 0 <= i < |r| ==> r[i] in r;
    r
  }

  /** The trimmed value reads as a placeholder, as it is or compacted. */
  predicate IsPlaceholder(trimmed: string) {
    ToLower(trimmed) in Placeholders || Compact(ToLower(trimmed)) in Placeholders
  }

  /** `sanitizePlaceholder`: the trimmed value, or "" when the value is
    * missing, blank or a placeholder. */
  function Sanitize(value: Option<string>): (r: string)
    ensures r == "" <==> !Truthy(value) || !HasText(value.value) || IsPlaceholder(Trim(value.value))
    ensures r != "" ==> value.Some? && r == Trim(value.value) && IsTrimmed(r) && !IsPlaceholder(r)
  {
    if !Truthy(value) then ""
    else
      var trimmed := Trim(value.value);
      if trimmed == "" then ""
      else if IsPlaceholder(trimmed) then ""
      else trimmed
  }

  /** Sanitising a sanitised value changes nothing. */
  lemma SanitizeIdempotent(value: Option<string>)
    ensures Sanitize(Some(Sanitize(value))) == Sanitize(value)
  {
  }

  /** Letter case does not hide a placeholder. */
  lemma PlaceholderSpellings(s: string)
    requires s == "N/A" || s == "NULL" || s == "None" || s == "Unknown"
    ensures Sanitize(Some(s)) == ""
  {
    assert IsTrimmed(s);
    assert s == "N/A" ==> ToLower(s) == "n/a";
    assert s == "NULL" ==> ToLower(s) == "null";
    assert s == "None" ==> ToLower(s) == "none";
    assert s == "Unknown" ==> ToLower(s) == "unknown";
  }

  /** Nor does a space, dot, underscore, hyphen or slash inserted anywhere:
    * "Not Specified", "n.a." and "not_provided" all read as placeholders. */
  lemma PlaceholderIgnoresPunctuation(a: string, c: char, b: string)
    requires Ignored(c) && Compact(ToLower(a + b)) in Placeholders
    ensures IsPlaceholder(a + [c] + b)
  {
    ToLowerConcat(a + [c], b);
    ToLowerConcat(a, [c]);
    ToLowerConcat(a, b);
    assert ToLower([c]) == [c];
    CompactAround(ToLower(a), c, ToLower(b));
    FilterAppend(KeepChar, ToLower(a), ToLower(b));
  }

  /** An ignored character between two texts disappears. */
  lemma CompactAround(a: string, c: char, b: string)
    requires Ignored(c)
    ensures Compact(a + [c] + b) == Compact(a) + Compact(b)
  {
    assert Filter(KeepChar, [c]) == [] by {
      assert [c][1..] == [];
    }
    FilterAppend(KeepChar, a, [c]);
    assert Compact(a + [c]) == Compact(a);
    FilterAppend(KeepChar, a + [c], b);
  }

  /** Text without ignored characters is its own compact form. */
  lemma CompactPlain(a: string)
    requires forall i :: 0 <= i < |a| ==> !Ignored(a[i])
    ensures Compact(a) == a
  {
    FilterAllPass(KeepChar, a);
  }

  /** A value holding a digit is never taken for a placeholder. */
  lemma DigitValueKept(s: string, i: nat)
    requires i < |s| && IsDigit(s[i])
    ensures Sanitize(Some(s)) == Trim(s)
  {
    var t := Trim(s);
    TrimKeepsIndex(s, i);
    var j :| 0 <= j < |t| && t[j] == s[i];
    var lower := ToLower(t);
    assert lower[j] == s[i];
    CompactKeeps(lower, j);
    NoDigitPlaceholder(lower, s[i]);
    NoDigitPlaceholder(Compact(lower), s[i]);
  }

  /** No placeholder word holds a digit. */
  lemma NoDigitPlaceholder(w: string, d: char)
    requires IsDigit(d) && d in w
    ensures w !in Placeholders
  {
  }

  /** A character that is not ignored survives compaction. */
  lemma {:induction false} CompactKeeps(s: string, j: nat)
    requires j < |s| && !Ignored(s[j])
    ensures s[j] in Compact(s)
    decreases |s|
  {
    if j == 0 {
      assert Filter(KeepChar, s) == [s[0]] + Filter(KeepChar, s[1..]);
    } else {
      CompactKeeps(s[1..], j - 1);
      assert Filter(KeepChar, s) == (if KeepChar(s[0]) then [s[0]] else []) + Filter(KeepChar, s[1..]);
    }
  }

  // ------------------------------------------------- reading the answer

  /** One array element: `sanitizePlaceholder(String(item).trim())`. */
  function CleanItem(item: Json): string {
    Sanitize(Some(Trim(ToJsString(item))))
  }

  /** A line that cleaning keeps: non-empty, trimmed, not a placeholder. */
  predicate CleanLine(x: string) {
    x != "" && IsTrimmed(x) && !IsPlaceholder(x)
  }

  predicate CleanLines(xs: seq<string>) {
    forall i :: 0 <= i < |xs| ==> CleanLine(xs[i])
  }

  /** The `clean` helper: every element printed, trimmed and sanitised, with
    * the empty results dropped. */
  function Clean(items: seq<Json>): (r: seq<string>)
    ensures CleanLines(r)
    ensures |r| <= |items|
  {
    var r := Filter(NonEmpty, Map(CleanItem, items));
    assert forall i :: 0 <= i < |r| ==> r[i] in r;
    r
  }

  /** Cleaning works element by element: it keeps the order of the lines. */
  lemma CleanAppend(a: seq<Json>, b: seq<Json>)
    ensures Clean(a + b) == Clean(a) + Clean(b)
  {
    MapAppend(CleanItem, a, b);
    FilterAppend(NonEmpty, Map(CleanItem, a), Map(CleanItem, b));
  }

  /** Clean lines written back as JSON strings read back unchanged. */
  lemma {:induction false} CleanOfStrings(xs: seq<string>)
    requires CleanLines(xs)
    ensures Clean(Map(x => JString(x), xs)) == xs
  {
    var items := Map(x => JString(x), xs);
    var m := Map(CleanItem, items);
    forall i | 0 <= i < |xs| ensures m[i] == xs[i] {
      assert ToJsString(items[i]) == xs[i];
    }
    assert m == xs;
    FilterAllPass(NonEmpty, xs);
  }

  /** Cleaning is idempotent. */
  lemma CleanIdempotent(items: seq<Json>)
    ensures Clean(Map(x => JString(x), Clean(items))) == Clean(items)
  {
    CleanOfStrings(Clean(items));
  }

  predicate CleanContent(c: TailoredContent) {
    CleanLines(c.personalInfo) && CleanLines(c.introduction) && CleanLines(c.projects)
    && CleanLines(c.technicalSkills) && CleanLines(c.keyHighlights)
    && CleanLines(c.experiences) && CleanLines(c.education) && CleanLines(c.closingNotes)
  }

  /** `parseStructuredResume`. `parsed` is what `JSON.parse(payload)` gives,
    * `None` when it throws; reading a key of `null` throws too. Either way
    * the answer is `null` (here `None`). */
  function ParseStructuredResume(payload: string, parsed: Option<Json>): (r: Option<TailoredContent>)
    ensures r.Some? <==> HasText(payload) && parsed.Some? && HasAllSections(parsed.value)
    ensures r.Some? ==> CleanContent(r.value)
  {
    if !HasText(payload) then None
    else if parsed.None? then None
    else
      var v := parsed.value;
      if v.JNull? then None
      else if HasAllSections(v) then Some(Sections(v))
      else None
  }

  /** The `clean`ed arrays of the eight sections. */
  function Sections(v: Json): (c: TailoredContent)
    requires HasAllSections(v)
    ensures CleanContent(c)
  {
    TailoredContent(
      Clean(Items(v, "personalInfo")),
      Clean(Items(v, "introduction")),
      Clean(Items(v, "projects")),
      Clean(Items(v, "technicalSkills")),
      Clean(Items(v, "keyHighlights")),
      Clean(Items(v, "experiences")),
      Clean(Items(v, "education")),
      Clean(Items(v, "closingNotes")))
  }

  /** Round trip: any JSON object holding clean content as string arrays
    * parses back to exactly that content. */
  lemma ParseOfClean(payload: string, v: Json, c: TailoredContent)
    requires HasText(payload) && Holds(v, c) && CleanContent(c)
    ensures ParseStructuredResume(payload, Some(v)) == Some(c)
  {
    SectionsOfClean(v, c);
  }

  lemma SectionsOfClean(v: Json, c: TailoredContent)
    requires Holds(v, c) && CleanContent(c)
    ensures HasAllSections(v) && Sections(v) == c
  {
    CleanOfStrings(c.personalInfo);
    CleanOfStrings(c.introduction);
    CleanOfStrings(c.projects);
    CleanOfStrings(c.technicalSkills);
    CleanOfStrings(c.keyHighlights);
    CleanOfStrings(c.experiences);
    CleanOfStrings(c.education);
    CleanOfStrings(c.closingNotes);
  }

  /** Parsing is idempotent: parsed content, written back out as string
    * arrays, parses to itself. */
  lemma ParseIdempotent(payload: string, parsed: Option<Json>, v: Json)
    requires ParseStructuredResume(payload, parsed).Some?
    requires Holds(v, ParseStructuredResume(payload, parsed).value)
    ensures ParseStructuredResume(payload, Some(v)) == ParseStructuredResume(payload, parsed)
  {
    ParseOfClean(payload, v, ParseStructuredResume(payload, parsed).value);
  }

  // ------------------------------------------------ personal information

  /** The middle step of `filterPersonalInfo` on one trimmed entry: a
    * "label: value" line keeps its label and its sanitised value, and is
    * emptied when the value is a placeholder; other lines pass unchanged. */
  function NormalizeLabelled(entry: string): string {
    if ':' !in entry then entry
    else
      var parts := Split(entry, ':');
      var rawValue := Trim(Join(parts[1..], ":"));
      var cleanedValue := Sanitize(Some(rawValue));
      if cleanedValue == "" then "" else Trim(parts[0]) + ": " + cleanedValue
  }

  /** `filterPersonalInfo`: trim, drop empty lines, clean labelled values,
    * drop emptied lines, then keep the lines the shared test accepts. */
  function FilterPersonalInfo(entries: seq<string>): (r: seq<string>)
    ensures forall e :: e in r ==> e != "" && KeepPersonalEntry(e)
    ensures |r| <= |entries|
  {
    Filter(KeepPersonalEntry, Filter(NonEmpty, Map(NormalizeLabelled, Filter(NonEmpty, Map(Trim, entries)))))
  }

  /** The label is everything before the first colon and the value
    * everything after it, colons included. */
  lemma NormalizeLabelledSplit(name: string, value: string)
    requires ':' !in name
    ensures var cleaned := Sanitize(Some(Trim(value)));
      NormalizeLabelled(name + ":" + value)
        == (if cleaned == "" then "" else Trim(name) + ": " + cleaned)
  {
    var entry := name + ":" + value;
    assert entry == name + [':'] + value;
    assert ':' in entry by { assert entry[|name|] == ':'; }
    SplitAtFirst(name, ':', value);
    JoinSplit(value, ':');
  }

  /** A normalised line is trimmed and normalising it again changes nothing. */
  lemma NormalizeStable(entry: string)
    requires IsTrimmed(entry) && entry != ""
    ensures var n := NormalizeLabelled(entry);
      n != "" ==> IsTrimmed(n) && NormalizeLabelled(n) == n
  {
    if ':' in entry {
      var k := FirstIndex(entry, ':');
      var name, value := entry[..k], entry[k + 1..];
      assert entry == name + ":" + value;
      NormalizeLabelledSplit(name, value);
      var cleaned := Sanitize(Some(Trim(value)));
      if cleaned != "" {
        SanitizeIdempotent(Some(Trim(value)));
        RebuiltLineStable(Trim(name), cleaned);
      }
    }
  }

  /** "label: value" rebuilt from a trimmed label and a sanitised value is
    * its own normal form. */
  lemma RebuiltLineStable(name: string, cleaned: string)
    requires ':' !in name && IsTrimmed(name)
    requires cleaned != "" && Sanitize(Some(cleaned)) == cleaned
    ensures var n := name + ": " + cleaned;
      IsTrimmed(n) && NormalizeLabelled(n) == n
  {
    RebuiltLineTrimmed(name, cleaned);
    var spaced := [' '] + cleaned;
    assert name + ": " + cleaned == name + ":" + spaced;
    NormalizeLabelledSplit(name, spaced);
    TrimSpacePrefix(cleaned);
    assert Trim(spaced) == cleaned;
    assert Trim(name) == name;
  }

  lemma RebuiltLineTrimmed(name: string, cleaned: string)
    requires IsTrimmed(name) && IsTrimmed(cleaned) && cleaned != ""
    ensures IsTrimmed(name + ": " + cleaned)
  {
    var n := name + ": " + cleaned;
    if name == "" { assert n[0] == ':'; } else { assert n[0] == name[0]; }
    assert n[|n| - 1] == cleaned[|cleaned| - 1];
  }

  /** What the filter keeps: trimmed non-empty lines, normalised, that pass
    * the shared test. */
  predicate FilteredLine(e: string) {
    e != "" && IsTrimmed(e) && NormalizeLabelled(e) == e && KeepPersonalEntry(e)
  }

  lemma FilterPersonalInfoLines(entries: seq<string>)
    ensures forall i :: 0 <= i < |FilterPersonalInfo(entries)| ==> FilteredLine(FilterPersonalInfo(entries)[i])
  {
    var a := Filter(NonEmpty, Map(Trim, entries));
    var b := Map(NormalizeLabelled, a);
    var c := Filter(NonEmpty, b);
    forall x | x in c ensures IsTrimmed(x) && NormalizeLabelled(x) == x {
      var i :| 0 <= i < |b| && b[i] == x;
      assert a[i] in a;
      NormalizeStable(a[i]);
    }
    var r := FilterPersonalInfo(entries);
    forall i | 0 <= i < |r| ensures FilteredLine(r[i]) {
      assert r[i] in r;
    }
  }

  /** Lines are filtered one by one: the filter keeps their order. */
  lemma FilterPersonalInfoAppend(a: seq<string>, b: seq<string>)
    ensures FilterPersonalInfo(a + b) == FilterPersonalInfo(a) + FilterPersonalInfo(b)
  {
    MapAppend(Trim, a, b);
    FilterAppend(NonEmpty, Map(Trim, a), Map(Trim, b));
    var ta, tb := Filter(NonEmpty, Map(Trim, a)), Filter(NonEmpty, Map(Trim, b));
    MapAppend(NormalizeLabelled, ta, tb);
    var na, nb := Map(NormalizeLabelled, ta), Map(NormalizeLabelled, tb);
    FilterAppend(NonEmpty, na, nb);
    FilterAppend(KeepPersonalEntry, Filter(NonEmpty, na), Filter(NonEmpty, nb));
  }

  /** Filtering the filtered lines again changes nothing. */
  lemma FilterPersonalInfoIdempotent(entries: seq<string>)
    ensures FilterPersonalInfo(FilterPersonalInfo(entries)) == FilterPersonalInfo(entries)
  {
    var r := FilterPersonalInfo(entries);
    FilterPersonalInfoLines(entries);
    MapFixed(Trim, r);
    FilterAllPass(NonEmpty, r);
    MapFixed(NormalizeLabelled, r);
    FilterAllPass(KeepPersonalEntry, r);
  }

  /** A "label: placeholder" line such as "LinkedIn: N/A" is dropped. */
  lemma PlaceholderValueDropped(name: string, value: string)
    requires ':' !in name && IsTrimmed(name + ":" + value)
    requires Sanitize(Some(Trim(value))) == ""
    ensures FilterPersonalInfo([name + ":" + value]) == []
  {
    var e := name + ":" + value;
    assert Map(Trim, [e]) == [e];
    assert Filter(NonEmpty, [e]) == [e];
    NormalizeLabelledSplit(name, value);
    assert Map(NormalizeLabelled, [e]) == [""];
  }

  // -------------------------------------------------------------- header

  /** `a || b` on two strings. */
  function OrElse(a: string, b: string): (r: string)
    ensures r == "" <==> a == "" && b == ""
    ensures a != "" ==> r == a
    ensures a == "" ==> r == b
  {
    if a != "" then a else b
  }

  /** The name printed at the top: the resume's, else the account's, else
    * "Candidate"; never empty and never a placeholder. */
  function DisplayName(resume: ResumeFields, user: Account): (n: string)
    ensures n != "" && !IsPlaceholder(n)
    ensures n == Sanitize(resume.name) || n == Sanitize(user.name) || n == "Candidate"
    ensures Sanitize(resume.name) != "" ==> n == Sanitize(resume.name)
    ensures Sanitize(resume.name) == "" && Sanitize(user.name) != "" ==> n == Sanitize(user.name)
    ensures Sanitize(resume.name) == "" && Sanitize(user.name) == "" ==> n == "Candidate"
  {
    CandidateIsNoPlaceholder("Candidate");
    OrElse(OrElse(Sanitize(resume.name), Sanitize(user.name)), "Candidate")
  }

  lemma CandidateIsNoPlaceholder(s: string)
    requires s == "Candidate"
    ensures !IsPlaceholder(s)
  {
    assert ToLower(s) == "candidate";
    CompactPlain(ToLower(s));
  }

  /** The address line: the profile's location, else the resume's; empty
    * (and not printed) when both are missing or placeholders. */
  function AddressLine(details: ProfileDetails, resume: ResumeFields): (a: string)
    ensures a == "" <==> Sanitize(details.location) == "" && Sanitize(resume.location) == ""
    ensures Sanitize(details.location) != "" ==> a == Sanitize(details.location)
    ensures Sanitize(details.location) == "" ==> a == Sanitize(resume.location)
    ensures a != "" ==> !IsPlaceholder(a)
  {
    OrElse(Sanitize(details.location), Sanitize(resume.location))
  }

  /** One contact segment AS WRITTEN: `sanitizePlaceholder(resume.X ||
    * details.x)`. The fallback happens before sanitising, so a placeholder
    * in the resume hides the value saved on the profile. */
  function ContactSegmentAsWritten(fromResume: Option<string>, fromProfile: Option<string>): (seg: string)
    ensures seg != "" ==> seg == Sanitize(fromResume) || seg == Sanitize(fromProfile)
    ensures Truthy(fromResume) ==> seg == Sanitize(fromResume)
    ensures !Truthy(fromResume) ==> seg == Sanitize(fromProfile)
    ensures Usable(seg)
  {
    Sanitize(Or(fromResume, fromProfile))
  }

  /** The contact segment with the fallback applied after sanitising, as the
    * address line does it: empty only when neither value is usable. */
  function ContactSegment(fromResume: Option<string>, fromProfile: Option<string>): (seg: string)
    ensures seg == "" <==> Sanitize(fromResume) == "" && Sanitize(fromProfile) == ""
    ensures Sanitize(fromResume) != "" ==> seg == Sanitize(fromResume)
    ensures Sanitize(fromResume) == "" ==> seg == Sanitize(fromProfile)
    ensures Usable(seg)
  {
    OrElse(Sanitize(fromResume), Sanitize(fromProfile))
  }

  /** The input that shows the difference: "N/A" in the resume, a real link
    * on the profile. As written the segment is lost; corrected, the profile
    * link is printed. */
  lemma PlaceholderHidesProfileLink(fromResume: Option<string>, fromProfile: Option<string>)
    requires fromResume == Some("N/A") && Sanitize(fromProfile) != ""
    ensures ContactSegmentAsWritten(fromResume, fromProfile) == ""
    ensures ContactSegment(fromResume, fromProfile) == Sanitize(fromProfile) != ""
  {
    PlaceholderSpellings("N/A");
  }

  /** The correction only adds segments: whenever the written version prints
    * one, the corrected version prints the same. */
  lemma ContactSegmentExtendsAsWritten(fromResume: Option<string>, fromProfile: Option<string>)
    requires ContactSegmentAsWritten(fromResume, fromProfile) != ""
    ensures ContactSegment(fromResume, fromProfile) == ContactSegmentAsWritten(fromResume, fromProfile)
  {
  }

  /** Empty, or a trimmed value that is not a placeholder. */
  predicate Usable(x: string) {
    x != "" ==> IsTrimmed(x) && !IsPlaceholder(x)
  }

  /** The contact line's segments AS WRITTEN: e-mail, LinkedIn, portfolio,
    * GitHub, each `sanitizePlaceholder(resume.X || details.x)`, kept only
    * when not empty, in that order. */
  function ContactSegments(resume: ResumeFields, user: Account, details: ProfileDetails): (segs: seq<string>)
    ensures |segs| <= 4
    ensures forall i :: 0 <= i < |segs| ==> segs[i] != "" && !IsPlaceholder(segs[i])
    ensures |segs| == 0 <==>
              && Sanitize(user.email) == ""
              && ContactSegmentAsWritten(resume.linkedIn, details.linkedin) == ""
              && ContactSegmentAsWritten(resume.portfolio, details.portfolio) == ""
              && ContactSegmentAsWritten(resume.github, details.github) == ""
    ensures Sanitize(user.email) != "" ==> segs[0] == Sanitize(user.email)
    ensures segs == Filter(NonEmpty, [Sanitize(user.email),
                                      ContactSegmentAsWritten(resume.linkedIn, details.linkedin),
                                      ContactSegmentAsWritten(resume.portfolio, details.portfolio),
                                      ContactSegmentAsWritten(resume.github, details.github)])
  {
    SanitizeUsable(user.email);
    Segments(Sanitize(user.email),
             ContactSegmentAsWritten(resume.linkedIn, details.linkedin),
             ContactSegmentAsWritten(resume.portfolio, details.portfolio),
             ContactSegmentAsWritten(resume.github, details.github))
  }

  /** The contact segments with the corrected fallback of `ContactSegment`. */
  function ContactSegmentsCorrected(resume: ResumeFields, user: Account, details: ProfileDetails): (segs: seq<string>)
    ensures |segs| <= 4
    ensures forall i :: 0 <= i < |segs| ==> segs[i] != "" && !IsPlaceholder(segs[i])
    ensures |segs| == 0 <==>
              && Sanitize(user.email) == ""
              && Sanitize(resume.linkedIn) == "" && Sanitize(details.linkedin) == ""
              && Sanitize(resume.portfolio) == "" && Sanitize(details.portfolio) == ""
              && Sanitize(resume.github) == "" && Sanitize(details.github) == ""
    ensures Sanitize(user.email) != "" ==> segs[0] == Sanitize(user.email)
    ensures segs == Filter(NonEmpty, [Sanitize(user.email),
                                      ContactSegment(resume.linkedIn, details.linkedin),
                                      ContactSegment(resume.portfolio, details.portfolio),
                                      ContactSegment(resume.github, details.github)])
  {
    SanitizeUsable(user.email);
    Segments(Sanitize(user.email),
             ContactSegment(resume.linkedIn, details.linkedin),
             ContactSegment(resume.portfolio, details.portfolio),
             ContactSegment(resume.github, details.github))
  }

  lemma SanitizeUsable(value: Option<string>)
    ensures Usable(Sanitize(value))
  {
  }

  /** The four segments in the order `writeHeader` lists them, the empty
    * ones left out. */
  function Segments(email: string, linkedIn: string, portfolio: string, github: string): (segs: seq<string>)
    requires Usable(email) && Usable(linkedIn) && Usable(portfolio) && Usable(github)
    ensures |segs| <= 4
    ensures forall i :: 0 <= i < |segs| ==> segs[i] != "" && !IsPlaceholder(segs[i])
    ensures |segs| == 0 <==> email == "" && linkedIn == "" && portfolio == "" && github == ""
    ensures email != "" ==> segs[0] == email
    ensures segs == Filter(NonEmpty, [email, linkedIn, portfolio, github])
  {
    var all := [email, linkedIn, portfolio, github];
    FilterFour(NonEmpty, email, linkedIn, portfolio, github);
    KeptSegments(all)
  }

  /** `.filter(Boolean).map(trim)` over usable segments: the non-empty ones,
    * in order, unchanged. */
  function KeptSegments(all: seq<string>): (segs: seq<string>)
    requires forall x :: x in all ==> Usable(x)
    ensures segs == Filter(NonEmpty, all)
    ensures |segs| <= |all|
    ensures forall i :: 0 <= i < |segs| ==> segs[i] != "" && !IsPlaceholder(segs[i])
  {
    var kept := Filter(NonEmpty, all);
    forall i | 0 <= i < |kept| ensures kept[i] != "" && Usable(kept[i]) {
      assert kept[i] in kept;
      assert kept[i] in all;
    }
    MapFixed(Trim, kept);
    Map(Trim, kept)
  }

  /** With the corrected fallback, a usable LinkedIn link saved on the
    * profile always gives the header a contact line, printed last. The
    * link on it is the resume's when that one is usable and the profile's
    * otherwise. */
  lemma ProfileLinkPrinted(resume: ResumeFields, user: Account, details: ProfileDetails)
    requires Sanitize(details.linkedin) != ""
    ensures |ContactSegmentsCorrected(resume, user, details)| > 0
    ensures var lines := HeaderLinesCorrected(resume, user, details);
      lines[|lines| - 1] == ContactLine(ContactSegmentsCorrected(resume, user, details))
    ensures Sanitize(resume.linkedIn) == "" ==>
              Sanitize(details.linkedin) in ContactSegmentsCorrected(resume, user, details)
    ensures Sanitize(resume.linkedIn) != "" ==>
              Sanitize(resume.linkedIn) in ContactSegmentsCorrected(resume, user, details)
  {
    var link := ContactSegment(resume.linkedIn, details.linkedin);
    var all := [Sanitize(user.email), link,
                ContactSegment(resume.portfolio, details.portfolio),
                ContactSegment(resume.github, details.github)];
    assert all[1] == link != "";
    assert link in Filter(NonEmpty, all);
  }

  /** As written, "N/A" in the resume's LinkedIn field hides the profile's
    * link: with no other contact detail the header has no contact line,
    * where the corrected header prints one. */
  lemma HeaderDropsProfileLink(resume: ResumeFields, user: Account, details: ProfileDetails)
    requires resume.linkedIn == Some("N/A") && Sanitize(details.linkedin) != ""
    requires Sanitize(user.email) == ""
    requires ContactSegmentAsWritten(resume.portfolio, details.portfolio) == ""
    requires ContactSegmentAsWritten(resume.github, details.github) == ""
    ensures ContactSegments(resume, user, details) == []
    ensures |HeaderLinesCorrected(resume, user, details)| == |HeaderLines(resume, user, details)| + 1
  {
    PlaceholderHidesProfileLink(resume.linkedIn, details.linkedin);
  }

  /** The lines of a header: the name, then the address line and the contact
    * line when they are not empty. */
  function Header(name: string, address: string, segs: seq<string>): (lines: seq<string>)
    requires |segs| > 0 ==> segs[0] != ""
    ensures |lines| == 1 + (if address != "" then 1 else 0) + (if |segs| > 0 then 1 else 0)
    ensures lines[0] == name
    ensures address != "" ==> lines[1] == address
    ensures |segs| > 0 ==> lines[|lines| - 1] == ContactLine(segs)
  {
    [name]
    + (if address != "" then [address] else [])
    + (if |segs| > 0 then [ContactLine(segs)] else [])
  }

  /** `writeHeader` as the lines it prints, with the contact segments as
    * written. */
  function HeaderLines(resume: ResumeFields, user: Account, details: ProfileDetails): (lines: seq<string>)
    ensures |lines| == 1 + (if AddressLine(details, resume) != "" then 1 else 0)
                         + (if |ContactSegments(resume, user, details)| > 0 then 1 else 0)
    ensures lines[0] == DisplayName(resume, user)
    ensures AddressLine(details, resume) != "" ==> lines[1] == AddressLine(details, resume)
    ensures |ContactSegments(resume, user, details)| > 0 ==>
              lines[|lines| - 1] == ContactLine(ContactSegments(resume, user, details))
  {
    Header(DisplayName(resume, user), AddressLine(details, resume), ContactSegments(resume, user, details))
  }

  /** The header with the corrected contact segments. */
  function HeaderLinesCorrected(resume: ResumeFields, user: Account, details: ProfileDetails): (lines: seq<string>)
    ensures |lines| == 1 + (if AddressLine(details, resume) != "" then 1 else 0)
                         + (if |ContactSegmentsCorrected(resume, user, details)| > 0 then 1 else 0)
    ensures lines[0] == DisplayName(resume, user)
    ensures AddressLine(details, resume) != "" ==> lines[1] == AddressLine(details, resume)
    ensures |ContactSegmentsCorrected(resume, user, details)| > 0 ==>
              lines[|lines| - 1] == ContactLine(ContactSegmentsCorrected(resume, user, details))
  {
    Header(DisplayName(resume, user), AddressLine(details, resume), ContactSegmentsCorrected(resume, user, details))
  }

  /** The segments joined with a bullet between each pair. */
  function ContactLine(segs: seq<string>): (line: string)
    requires |segs| > 0 && segs[0] != ""
    ensures line != ""
    ensures segs[0] <= line
  {
    if |segs| == 1 then segs[0]
    else
      JoinHead(segs, "  •  ");
      Join(segs, "  •  ")
  }

  /** A join starts with its first part. */
  lemma JoinHead(parts: seq<string>, sep: string)
    requires |parts| > 1
    ensures Join(parts, sep) == parts[0] + sep + Join(parts[1..], sep)
  {
  }

  // ------------------------------------------------------------ sections

  /** `writeTailoredContent` as the lines it prints. This version writes the
    * introduction and four sections; personal information, key highlights
    * and closing notes are not printed. */
  function TailoredLines(c: TailoredContent): seq<string> {
    c.introduction
    + StructuredLines("PROJECTS", c.projects)
    + StructuredLines("TECHNICAL SKILLS", c.technicalSkills)
    + StructuredLines("EXPERIENCE", c.experiences)
    + StructuredLines("EDUCATION", c.education)
  }

  /** The printed sections do not depend on the personal information, key
    * highlights or closing notes the model returned. */
  lemma TailoredLinesIgnoreUnprinted(c: TailoredContent, info: seq<string>, highlights: seq<string>, notes: seq<string>)
    ensures TailoredLines(c.(personalInfo := info, keyHighlights := highlights, closingNotes := notes)) == TailoredLines(c)
  {
  }

  /** An empty section prints nothing, not even its heading; a non-empty one
    * adds its heading and one bullet per entry. */
  lemma TailoredLinesLength(c: TailoredContent)
    ensures |TailoredLines(c)| ==
      |c.introduction| + Heading(c.projects) + Heading(c.technicalSkills)
      + Heading(c.experiences) + Heading(c.education)
  {
  }

  /** The lines a section adds: its entries plus one heading when it has any. */
  function Heading(bullets: seq<string>): nat {
    if |bullets| == 0 then 0 else |bullets| + 1
  }
}
