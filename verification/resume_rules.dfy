/** The parts of resume tailoring that both versions of the service share:
  * the eight-section content, how sections are laid out as text lines, the
  * experience label, and the tests that keep e-mail addresses and postal
  * addresses out of the personal-information section. */
module ResumeRules {
  import opened Wrappers
  import opened JsStrings
  import opened Seqs
  import opened JsonValues

  /** The tailored resume returned by the language model, one list of lines
    * per section. */
  datatype TailoredContent = TailoredContent(
    personalInfo: seq<string>,
    introduction: seq<string>,
    projects: seq<string>,
    technicalSkills: seq<string>,
    keyHighlights: seq<string>,
    experiences: seq<string>,
    education: seq<string>,
    closingNotes: seq<string>)

  /** The fields of the extracted resume that the header reads. */
  datatype ResumeFields = ResumeFields(
    name: Option<string>, location: Option<string>,
    linkedIn: Option<string>, portfolio: Option<string>, github: Option<string>)

  /** The signed-in user's account. */
  datatype Account = Account(name: Option<string>, email: Option<string>)

  /** The links and location saved on the candidate's profile. */
  datatype ProfileDetails = ProfileDetails(
    location: Option<string>, linkedin: Option<string>,
    portfolio: Option<string>, github: Option<string>)

  /** The eight section arrays are all present. */
  predicate HasAllSections(v: Json) {
    HasArray(v, "personalInfo") && HasArray(v, "introduction") && HasArray(v, "projects")
    && HasArray(v, "technicalSkills") && HasArray(v, "keyHighlights")
    && HasArray(v, "experiences") && HasArray(v, "education") && HasArray(v, "closingNotes")
  }

  function Items(v: Json, key: string): seq<Json>
    requires HasArray(v, key)
  {
    Get(v, key).value.items
  }

  /** The JSON array of the given strings. */
  function Strings(xs: seq<string>): Json {
    JArray(Map(x => JString(x), xs))
  }

  /** The object holds the eight sections of `c` as arrays of strings. */
  predicate Holds(v: Json, c: TailoredContent) {
    Get(v, "personalInfo") == Some(Strings(c.personalInfo))
    && Get(v, "introduction") == Some(Strings(c.introduction))
    && Get(v, "projects") == Some(Strings(c.projects))
    && Get(v, "technicalSkills") == Some(Strings(c.technicalSkills))
    && Get(v, "keyHighlights") == Some(Strings(c.keyHighlights))
    && Get(v, "experiences") == Some(Strings(c.experiences))
    && Get(v, "education") == Some(Strings(c.education))
    && Get(v, "closingNotes") == Some(Strings(c.closingNotes))
  }

  // ------------------------------------------------------------ layout

  /** `writeStructuredSection`: the heading, then each entry behind a bullet;
    * nothing at all, not even the heading, when there are no entries. */
  function StructuredLines(heading: string, bullets: seq<string>): (r: seq<string>)
    ensures |bullets| == 0 ==> r == []
    ensures |bullets| > 0 ==> |r| == |bullets| + 1 && r[0] == heading
    ensures forall i :: 0 <= i < |bullets| ==> r[i + 1] == "• " + bullets[i]
  {
    if |bullets| == 0 then [] else [heading] + Map(b => "• " + b, bullets)
  }

  // -------------------------------------------------------- experience

  /** The `experience` argument: a number of years, a free text, or neither. */
  datatype Experience = ExperienceYears(years: JsNumber) | ExperienceText(text: string) | ExperienceMissing

  /** A JavaScript number: NaN, one of the infinities, or a finite value
    * together with `String(n)`, the text the engine prints for it. */
  datatype JsNumber = NaN | Infinity | NegativeInfinity | Finite(value: real, text: string)

  /** `String(n)`. */
  function NumberText(n: JsNumber): string {
    match n
    case NaN => "NaN"
    case Infinity => "Infinity"
    case NegativeInfinity => "-Infinity"
    case Finite(_, text) => text
  }

  /** `n <= 0`, which is false for NaN. */
  predicate AtMostZero(n: JsNumber) {
    n.NegativeInfinity? || (n.Finite? && n.value <= 0.0)
  }

  /** `n === 1`. */
  predicate IsOne(n: JsNumber) {
    n.Finite? && n.value == 1.0
  }

  /** What `String(n)` prints for a positive finite number: it starts with a
    * digit, and with a zero only in front of the decimal point ("0.5"). */
  predicate PositiveNumeral(t: string) {
    |t| > 0 && IsDigit(t[0]) && (t[0] == '0' ==> |t| > 1 && t[1] == '.')
  }

  /** The printed text of a positive finite number is a positive numeral. */
  predicate WellPrinted(n: JsNumber) {
    n.Finite? && n.value > 0.0 ==> PositiveNumeral(n.text)
  }

  const EntryLevel: string := "entry-level experience"
  const YearsSuffix: string := "+ years of experience"

  /** `/experience|years?/i`: the text names experience or years. */
  predicate MentionsExperience(t: string) {
    Contains(ToLower(t), "experience") || Contains(ToLower(t), "year")
  }

  /** `/^0\+?\s*years?/i`: a zero, an optional plus, optional white space,
    * then "year". */
  predicate ZeroYearsPrefix(t: string) {
    |t| > 0 && t[0] == '0' && "year" <= ToLower(TrimStart(AfterZero(t)))
  }

  /** What follows the leading zero and its optional plus sign. */
  function AfterZero(t: string): (rest: string)
    requires |t| > 0
    ensures |rest| < |t| && rest == t[|t| - |rest|..]
  {
    if |t| > 1 && t[1] == '+' then t[2..] else t[1..]
  }

  /** With at least two characters in front, a suffix is kept after the zero. */
  lemma AfterZeroAppend(t: string, x: string)
    requires |t| >= 2
    ensures AfterZero(t + x) == AfterZero(t) + x
  {
    var u := t + x;
    if t[1] == '+' {
      assert u[2..] == t[2..] + x;
    } else {
      assert u[1..] == t[1..] + x;
    }
  }

  /** `formatExperienceLabel`: the phrase the cover letter uses for the
    * candidate's experience. Whatever the input, it names experience or
    * years. */
  function FormatExperienceLabel(e: Experience): (phrase: string)
    ensures MentionsExperience(phrase)
  {
    FixedPhrasesMention();
    match e
    case ExperienceYears(n) =>
      if AtMostZero(n) then EntryLevel
      else if IsOne(n) then "1 year of experience"
      else
        EndsInExperience(NumberText(n) + "+ years of");
        assert NumberText(n) + YearsSuffix == NumberText(n) + "+ years of" + " experience";
        NumberText(n) + YearsSuffix
    case ExperienceText(s) =>
      var t := Trim(s);
      if t == "" || t == "0" || ZeroYearsPrefix(t) then EntryLevel
      else if MentionsExperience(t) then t
      else EndsInExperience(t); t + " experience"
    case ExperienceMissing => "relevant experience"
  }

  /** Text with no upper-case ASCII letter is its own lower case. */
  lemma LowerOfLower(s: string)
    requires forall i :: 0 <= i < |s| ==> !('A' <= s[i] <= 'Z')
    ensures ToLower(s) == s
  {
  }

  lemma EndsInExperience(t: string)
    ensures MentionsExperience(t + " experience")
  {
    var u := t + " experience";
    LowerOfLower(" experience");
    ToLowerConcat(t, " experience");
    assert ToLower(u)[|t| + 1..|t| + 11] == "experience";
    ContainsAt(ToLower(u), "experience", |t| + 1);
  }

  lemma FixedPhrasesMention()
    ensures MentionsExperience(EntryLevel)
    ensures MentionsExperience("1 year of experience")
    ensures MentionsExperience("relevant experience")
  {
    EndsInExperience("entry-level");
    assert EntryLevel == "entry-level" + " experience";
    EndsInExperience("1 year of");
    assert "1 year of experience" == "1 year of" + " experience";
    EndsInExperience("relevant");
    assert "relevant experience" == "relevant" + " experience";
  }

  /** A suffix that starts with white space and then a letter other than
    * "y" cannot complete a leading "year". */
  lemma YearPrefixAppend(r: string, x: string)
    requires |x| >= 2 && IsSpace(x[0]) && !IsSpace(x[1]) && LowerChar(x[1]) != 'y'
    ensures "year" <= ToLower(TrimStart(r + x)) ==> "year" <= ToLower(TrimStart(r))
  {
    if IsBlank(r) {
      YearAfterBlank(r, x);
    } else {
      TrimStartAppend(r, x);
      if |TrimStart(r)| < 4 {
        YearNotAcrossSpace(TrimStart(r), x);
      } else {
        YearInLongPrefix(TrimStart(r), x);
      }
    }
  }

  lemma YearAfterBlank(r: string, x: string)
    requires |x| >= 2 && IsSpace(x[0]) && !IsSpace(x[1]) && LowerChar(x[1]) != 'y'
    requires IsBlank(r)
    ensures !("year" <= ToLower(TrimStart(r + x)))
  {
    TrimStartBlankAppend(r, x);
    TrimStartOfNonSpace(x[1..]);
    assert TrimStart(x) == x[1..];
    assert ToLower(TrimStart(r + x))[0] == LowerChar(x[1]);
  }

  lemma YearNotAcrossSpace(w: string, x: string)
    requires |x| >= 2 && IsSpace(x[0]) && |w| < 4
    ensures !("year" <= ToLower(w + x))
  {
    ToLowerConcat(w, x);
    assert ToLower(w + x)[|w|] == x[0];
  }

  lemma YearInLongPrefix(w: string, x: string)
    requires |w| >= 4
    ensures "year" <= ToLower(w + x) ==> "year" <= ToLower(w)
  {
    ToLowerConcat(w, x);
    assert ToLower(w + x)[..4] == ToLower(w)[..4];
  }

  /** Adding a suffix such as " experience" never turns a text into the
    * zero-years form. */
  lemma NoZeroFormAfterSuffix(t: string, x: string)
    requires |t| >= 2 && !ZeroYearsPrefix(t)
    requires |x| >= 2 && IsSpace(x[0]) && !IsSpace(x[1]) && LowerChar(x[1]) != 'y'
    ensures !ZeroYearsPrefix(t + x)
  {
    AfterZeroAppend(t, x);
    YearPrefixAppend(AfterZero(t), x);
  }

  /** A trimmed text that names experience or years, and is not the zero
    * form, is used as it is. */
  lemma PlainTextKept(p: string)
    requires IsTrimmed(p) && p != "" && p != "0" && !ZeroYearsPrefix(p) && MentionsExperience(p)
    ensures FormatExperienceLabel(ExperienceText(p)) == p
  {
  }

  /** The three fixed phrases read back as themselves. */
  lemma FixedPhrasesKept(s: string)
    requires s == EntryLevel || s == "1 year of experience" || s == "relevant experience"
    ensures FormatExperienceLabel(ExperienceText(s)) == s
  {
    assert IsTrimmed(s) && s[0] != '0' && |s| > 1;
    FixedPhrasesMention();
    PlainTextKept(s);
  }

  /** A years phrase reads back as itself, for fractions, NaN and
    * infinity as for whole numbers. */
  lemma YearsPhraseKept(n: JsNumber)
    requires !AtMostZero(n) && !IsOne(n) && WellPrinted(n)
    ensures var p := FormatExperienceLabel(ExperienceYears(n));
      FormatExperienceLabel(ExperienceText(p)) == p
  {
    var t := NumberText(n);
    var p := t + YearsSuffix;
    assert FormatExperienceLabel(ExperienceYears(n)) == p;
    assert p[0] == t[0] && !IsSpace(p[0]);
    assert p[|p| - 1] == 'e';
    if p[0] == '0' {
      ZeroBeforePoint(t, YearsSuffix);
    }
    PlainTextKept(p);
  }

  /** A numeral "0.…" followed by anything is not the zero-years form: the
    * point follows the zero. */
  lemma ZeroBeforePoint(t: string, x: string)
    requires |t| > 1 && t[0] == '0' && t[1] == '.'
    ensures !ZeroYearsPrefix(t + x)
  {
    var p := t + x;
    assert AfterZero(p) == p[1..];
    TrimStartOfNonSpace(p[1..]);
    assert ToLower(p[1..])[0] == '.';
  }

  /** Whole numbers above one print as positive numerals. */
  lemma WholeYearsWellPrinted(n: int)
    requires n > 1
    ensures PositiveNumeral(IntToString(n))
  {
    var digits := IntToString(n);
    assert digits == NatToString(n);
    assert digits[0] != '0';
  }

  /** Numbers an integer-only reading would miss: a fraction prints as
    * itself, one below one is not entry level, and NaN is neither at most
    * zero nor one. */
  lemma NonIntegerYears()
    ensures FormatExperienceLabel(ExperienceYears(Finite(2.5, "2.5"))) == "2.5" + YearsSuffix
    ensures FormatExperienceLabel(ExperienceYears(Finite(0.5, "0.5"))) == "0.5" + YearsSuffix
    ensures FormatExperienceLabel(ExperienceYears(NaN)) == "NaN" + YearsSuffix
    ensures FormatExperienceLabel(ExperienceYears(NegativeInfinity)) == EntryLevel
  {
  }

  lemma TextPhraseKept(s: string)
    requires FormatExperienceLabel(ExperienceText(s)) != EntryLevel
    ensures var p := FormatExperienceLabel(ExperienceText(s));
      FormatExperienceLabel(ExperienceText(p)) == p
  {
    var t := Trim(s);
    assert t != "" && t != "0" && !ZeroYearsPrefix(t);
    if MentionsExperience(t) {
      PlainTextKept(t);
    } else {
      assert FormatExperienceLabel(ExperienceText(s)) == t + " experience";
      SuffixedTextKept(t);
    }
  }

  /** A text that gets " experience" appended reads back as itself. */
  lemma SuffixedTextKept(t: string)
    requires IsTrimmed(t) && t != "" && t != "0" && !ZeroYearsPrefix(t)
    ensures FormatExperienceLabel(ExperienceText(t + " experience")) == t + " experience"
  {
    var x := " experience";
    var p := t + x;
    if |t| >= 2 {
      NoZeroFormAfterSuffix(t, x);
    } else {
      assert p[0] == t[0] != '0';
    }
    SuffixKeepsTrimmed(t, x);
    EndsInExperience(t);
    PlainTextKept(p);
  }

  lemma SuffixKeepsTrimmed(t: string, x: string)
    requires IsTrimmed(t) && t != "" && x != "" && !IsSpace(x[|x| - 1])
    ensures IsTrimmed(t + x)
  {
    assert (t + x)[0] == t[0];
    assert (t + x)[|t + x| - 1] == x[|x| - 1];
  }

  /** Formatting is idempotent: a phrase the function produced, passed back in
    * as free text, comes out unchanged. */
  lemma FormatExperienceLabelIdempotent(e: Experience)
    requires e.ExperienceYears? ==> WellPrinted(e.years)
    ensures FormatExperienceLabel(ExperienceText(FormatExperienceLabel(e))) == FormatExperienceLabel(e)
  {
    var p := FormatExperienceLabel(e);
    if p == EntryLevel || p == "1 year of experience" || p == "relevant experience" {
      FixedPhrasesKept(p);
    } else if e.ExperienceYears? {
      YearsPhraseKept(e.years);
    } else if e.ExperienceText? {
      TextPhraseKept(e.text);
    }
  }

  /** A text label keeps the candidate's own words: it is the trimmed text,
    * with " experience" added only when the text names neither experience
    * nor years. */
  lemma TextLabelKeepsWords(s: string)
    requires FormatExperienceLabel(ExperienceText(s)) != EntryLevel
    ensures var t := Trim(s);
      t != "" && !ZeroYearsPrefix(t) &&
      FormatExperienceLabel(ExperienceText(s)) == (if MentionsExperience(t) then t else t + " experience")
  {
  }

  // -------------------------------------------- personal-information tests

  /** Characters of `[a-z0-9._%+-]` under the `i` flag. */
  predicate LocalChar(c: char) {
    IsAsciiLetter(c) || IsDigit(c) || c == '.' || c == '_' || c == '%' || c == '+' || c == '-'
  }

  /** Characters of `[a-z0-9.-]` under the `i` flag. */
  predicate DomainChar(c: char) {
    IsAsciiLetter(c) || IsDigit(c) || c == '.' || c == '-'
  }

  /** A match of `/[a-z0-9._%+-]+@[a-z0-9.-]+\.[a-z]{2,}/i` with the `@` at
    * index `at` and the last dot at index `dot`. */
  predicate EmailAt(s: string, at: nat, dot: nat) {
    1 <= at && at + 2 <= dot && dot + 3 <= |s|
    && LocalChar(s[at - 1]) && s[at] == '@'
    && (forall i :: at < i < dot ==> DomainChar(s[i]))
    && s[dot] == '.' && IsAsciiLetter(s[dot + 1]) && IsAsciiLetter(s[dot + 2])
  }

  /** The text contains something shaped like an e-mail address. */
  predicate EmailLike(s: string) {
    exists at: nat, dot: nat | at < dot < |s| :: EmailAt(s, at, dot)
  }

  /** No `@`, no e-mail address. */
  lemma EmailNeedsAt(s: string)
    requires '@' !in s
    ensures !EmailLike(s)
  {
  }

  /** Three ASCII digits in a row at index `k`. */
  predicate DigitsAt(s: string, k: nat) {
    k + 3 <= |s| && IsDigit(s[k]) && IsDigit(s[k + 1]) && IsDigit(s[k + 2])
  }

  /** `/\d{3,}/`: a run of at least three digits. */
  predicate HasDigitRun(s: string) {
    exists k: nat | k < |s| :: DigitsAt(s, k)
  }

  const AddressKeywords: seq<string> := [
    "street", "road", "rd", "ave", "avenue", "block", "apt", "suite", "lane",
    "drive", "dr", "city", "state", "zip", "postal", "nepal", "india", "usa",
    "canada", "district", "ward", "address"
  ]

  /** `looksLikePostalAddress`: a run of three digits together with an
    * address word (the caller passes lower-cased text). */
  predicate LooksLikePostalAddress(text: string) {
    if text == "" then false
    else HasDigitRun(text) && ContainsAny(text, AddressKeywords)
  }

  /** Text with no three digits in a row is never taken for an address. */
  lemma FewDigitsNoAddress(text: string)
    requires forall k :: 0 <= k < |text| ==> !DigitsAt(text, k)
    ensures !LooksLikePostalAddress(text)
  {
  }

  const AllowedKeywords: seq<string> := [
    "linkedin", "github", "portfolio", "website", "behance", "dribbble",
    "availability", "available", "relocation", "travel", "visa",
    "work authorization", "clearance", "citizenship", "language", "languages",
    "timezone", "time zone", "pronouns", "blog"
  ]

  /** The last test of `filterPersonalInfo`: no e-mail address, no postal
    * address, and either a "label: value" shape, an allowed keyword or a
    * link. */
  predicate KeepPersonalEntry(entry: string) {
    var lowered := ToLower(entry);
    !EmailLike(entry)
    && !LooksLikePostalAddress(lowered)
    && (':' in entry || ContainsAny(lowered, AllowedKeywords) || Contains(lowered, "http"))
  }

  /** A "label: value" line is kept exactly when it holds no e-mail or postal
    * address. */
  lemma LabelledEntryKept(entry: string)
    requires ':' in entry
    ensures KeepPersonalEntry(entry) <==> !EmailLike(entry) && !LooksLikePostalAddress(ToLower(entry))
  {
  }

  /** A line without a colon, keyword or link is dropped, whatever else it says. */
  lemma UnlabelledNeedsKeyword(entry: string)
    requires ':' !in entry && !Contains(ToLower(entry), "http")
    requires !ContainsAny(ToLower(entry), AllowedKeywords)
    ensures !KeepPersonalEntry(entry)
  {
  }

  /** An e-mail line is dropped even when labelled. */
  lemma EmailEntryDropped()
    ensures !KeepPersonalEntry("Email: jane.doe@mail.com")
  {
    var s := "Email: jane.doe@mail.com";
    assert EmailAt(s, 15, 20);
  }
}
