# Job-placement platform: verified model of its decision logic

The platform lets candidates upload a resume, apply to jobs and hold AI voice
interviews. Recruiters post jobs for verified companies, and administrators
verify companies and manage user roles. Premium plans bought through Stripe
unlock resume tailoring and mock interviews. The code has two generations:
an older tree under `apps/` and a newer one under `job-placement-platform/apps/`.
Both have NestJS back ends and Next.js front ends. Around the Prisma, LLM,
Vapi, Stripe, Cloudinary and Qdrant calls lies a layer of small, exact rules.
This project models that layer in Dafny:

- **Interview transcripts.** Deciding when an interview is over (`InterviewDetection`),
  and the transcript buffer that the three interview hooks share (`InterviewSession`).
  The buffer is a class with one method per voice event and one per end-of-interview
  path. The hook variants differ in what they do with an empty history.
- **Resume text rules.** Placeholder sanitising, experience labels, address
  heuristics, personal-info filtering and structured-resume parsing, for both
  generations (`ResumeRules`, `ResumeTailoring`, `LegacyResumeTailoring`).
- **Back-end services.** The guard chains and state changes in applications,
  mock interviews, jobs and admin, with sub-scores clamped and summed
  (`InterviewScoring`, `Applications`, `MockInterviews`, `Jobs`, `Admin`), and the
  resume-text lookup both interview analyses depend on (`ResumeLookup`).
  Each database read is a snapshot passed in as input. Each write is a returned
  record, or a field of a store class that the method updates.
- **Payments and entitlements.** Stripe plan pricing and the flags set after
  checkout (`Stripe`), the premium flags and checkout button (`Premium`).
- **Access control.** Route guards (`RouteGuards`) and the Nest roles
  guard (`RolesGuard`).
- **Front-end forms and screens.** The apply dialog, job posting form,
  user-details upload flow, dashboard, user administration list and
  user store (`ApplyDialog`, `JobForm`, `UserDetails`, `Dashboard`,
  `UserAdmin`, `UserStore`), and the salary and timer formatters (`Formatters`).
- **Small services.** The vector-search score table (`QdrantSearch`), the
  status e-mail (`Email`) and the three exception filters (`ExceptionFilters`).

JavaScript semantics the rules depend on are written out in the helper modules:
- `JsStrings`: `trim`, `toLowerCase`, `includes`, `split`, `String(n)`, `parseInt` and truthiness.
- `JsonValues`: parsed JSON values; property access (`Get`, where the last of duplicate keys wins), JavaScript truthiness, `String(v)` (`ToJsString`) and the text of the `TypeError` thrown when a property is read from `null` (`NullRead`).
- `Seqs`: `filter`, `map`, `slice`, the stable `sort`, and the `skip`/`take` windows of a Prisma query.
- `Wrappers`: `Option` and `Result`.
- `HttpErrors`: Nest's HTTP exceptions.

## Model

| member | source | states |
|---|---|---|
| InterviewDetection.MarkerAlwaysCompletes | job-placement-platform/apps/frontend/components/interview/interviewDetection.ts:4-9 | a text holding `[INTERVIEW_COMPLETE]` anywhere is complete, whatever surrounds it and however long it is |
| InterviewDetection.WithoutMarker | job-placement-platform/apps/frontend/components/interview/interviewDetection.ts:12-51 | without the marker, complete exactly when the lower-cased text holds a closing phrase and has fewer than 250 characters |
| InterviewDetection.LongTextNeverCompletes | job-placement-platform/apps/frontend/components/interview/interviewDetection.ts:48-51 | without the marker, a text of 250 or more characters is never complete |
| InterviewDetection.StrongIndicatorCompletes | job-placement-platform/apps/frontend/components/interview/interviewDetection.ts:14-36 | a short text whose lower-cased form holds any of the 15 strong indicators is complete |
| InterviewDetection.ThankYouNeedsCompletionWord | job-placement-platform/apps/frontend/components/interview/interviewDetection.ts:38-51 | without marker and strong indicator, a thank-you completes exactly when "finished", "complete" or "conclude" is also present and the text is short |
| InterviewDetection.NoMarkerWithoutCapitalI | job-placement-platform/apps/frontend/components/interview/interviewDetection.ts:6 | a text with no upper-case I cannot hold the marker |
| InterviewDetection.LowerHasNoMarker | job-placement-platform/apps/frontend/components/interview/interviewDetection.ts:6-12 | the lower-cased text never holds the upper-case marker, so the phrase test cannot see it |
| InterviewDetection.CaseDoesNotMatter | job-placement-platform/apps/frontend/components/interview/interviewDetection.ts:12-51 | on marker-free text, lower-casing the input never changes the verdict |
| InterviewDetection.WantsToEndInContext | job-placement-platform/apps/frontend/components/interview/interviewDetection.ts:57-83 | a request to stop stays a request with any words before or after it (no length limit) |
| InterviewSession.RoleOf | job-placement-platform/apps/frontend/components/interview/useInterview.ts:192 | the role is the message's own when truthy, else "user" exactly for a user transcript and "assistant" otherwise; never empty |
| InterviewSession.TextOf | job-placement-platform/apps/frontend/components/interview/useInterview.ts:193 | the text is the first truthy of transcript, text, content, message, and empty exactly when none is truthy |
| InterviewSession.VoiceFor | job-placement-platform/apps/frontend/components/interview/useInterview.ts:396-399 | the female voice is chosen exactly for the preference "female" |
| InterviewSession.Lines | job-placement-platform/apps/frontend/components/interview/useInterview.ts:80-81 | one line per conversation entry |
| InterviewSession.LinesAt | job-placement-platform/apps/frontend/components/interview/useInterview.ts:81 | line i is "Candidate: t" for role "user" and "Interviewer: t" otherwise, for entry i |
| InterviewSession.LinesAppend | job-placement-platform/apps/frontend/components/interview/useInterview.ts:80-82 | appending an entry appends its line |
| InterviewSession.FormatAppend | job-placement-platform/apps/frontend/components/interview/useInterview.ts:79-83 | appending an entry to a non-empty history adds a blank line and its line at the end |
| InterviewSession.HistoryBlankIffEmpty | apps/frontend/components/interview/useInterview.ts:91-93 | the formatted history is blank exactly when the conversation is empty |
| InterviewSession.Lookup | job-placement-platform/apps/frontend/components/interview/useInterview.ts:150 | `get` finds a role exactly when the map holds it, with its stored text |
| InterviewSession.Store | job-placement-platform/apps/frontend/components/interview/useInterview.ts:271 | `set` stores the text under the role and leaves every other role's entry alone |
| InterviewSession.Remove | job-placement-platform/apps/frontend/components/interview/useInterview.ts:265 | `delete` removes the role and leaves every other role's entry alone |
| InterviewSession.FlushAll | job-placement-platform/apps/frontend/components/interview/useInterview.ts:154-165 | the buffer flush appends at most one message per buffered role |
| InterviewSession.FlushAllWellFormed | job-placement-platform/apps/frontend/components/interview/useInterview.ts:155-162 | every message the flush appends has a role and trimmed, non-empty text |
| InterviewSession.AppendKeepsWellFormed | job-placement-platform/apps/frontend/components/interview/useInterview.ts:157-160 | appending a well-formed message keeps every entry trimmed and non-empty |
| InterviewSession.EndKeepsTranscript | job-placement-platform/apps/frontend/components/interview/useInterview.ts:85-118 | `endInterview` leaves conversation, buffer and `lastCommittedRole` unchanged and never reconnects |
| InterviewSession.EndKeepsInv | job-placement-platform/apps/frontend/components/interview/useInterview.ts:85-118 | `endInterview` keeps the machine invariant and the conversation |
| InterviewSession.FinalizeKeepsInv | job-placement-platform/apps/frontend/components/interview/useInterview.ts:154-165 | the flush keeps the invariant, only appends, and empties the buffer |
| InterviewSession.InterviewerDoneKeepsInv | job-placement-platform/apps/frontend/components/interview/useInterview.ts:198-226 | the interviewer-completion path keeps the invariant and only appends |
| InterviewSession.CandidateDoneKeepsInv | job-placement-platform/apps/frontend/components/interview/useInterview.ts:229-256 | the candidate-request path keeps the invariant and only appends |
| InterviewSession.BufferKeepsInv | job-placement-platform/apps/frontend/components/interview/useInterview.ts:258-273 | the role-switch flush and buffer update keep the invariant and only append |
| InterviewSession.FlushPreviousKeepsInv | job-placement-platform/apps/frontend/components/interview/useInterview.ts:258-267 | the flush on a change of speaker keeps the invariant, only appends, and leaves the buffer empty or holding the new speaker |
| InterviewSession.TranscriptKeepsInv | job-placement-platform/apps/frontend/components/interview/useInterview.ts:191-274 | every transcript keeps the invariant (every entry trimmed and non-empty, buffer holds only `lastCommittedRole`) and only appends |
| InterviewSession.CommitCompletionKeepsInv | job-placement-platform/apps/frontend/components/interview/useInterview.ts:281-306 | the completion path of speech end keeps the invariant and only appends |
| InterviewSession.CommitEntryKeepsInv | job-placement-platform/apps/frontend/components/interview/useInterview.ts:309-319 | the ordinary speech-end commit keeps the invariant and only appends |
| InterviewSession.SpeechEndKeepsInv | job-placement-platform/apps/frontend/components/interview/useInterview.ts:276-322 | speech end keeps the invariant and only appends |
| InterviewSession.CallEndKeepsInv | job-placement-platform/apps/frontend/components/interview/useInterview.ts:335-344 | call end keeps the invariant and only appends |
| InterviewSession.TickKeepsInv | job-placement-platform/apps/frontend/components/interview/useInterview.ts:127-135 | a countdown tick keeps the invariant and the conversation |
| InterviewSession.BlankTranscriptIgnored | job-placement-platform/apps/frontend/components/interview/useInterview.ts:195 | a blank transcript changes no state at all |
| InterviewSession.RoleSwitchFlushes | job-placement-platform/apps/frontend/components/interview/useInterview.ts:258-273 | on a role switch the previous role's text is appended trimmed and removed, then the new text is buffered and its role becomes `lastCommittedRole` |
| InterviewSession.ReplaceIffDifferent | job-placement-platform/apps/frontend/components/interview/useInterview.ts:269-273 | without a switch the role's buffer is replaced exactly when the new text differs, then the role becomes `lastCommittedRole`; an equal text changes nothing |
| InterviewSession.InterviewerDoneAppendsCleaned | job-placement-platform/apps/frontend/components/interview/useInterview.ts:198-226 | after the flushed buffer the closing message is appended with every marker removed and trimmed, only when non-empty; buffer emptied, call stopped |
| InterviewSession.CompletionAppendsCleaned | job-placement-platform/apps/frontend/components/interview/useInterview.ts:198 | an interviewer transcript that signals completion takes that path whenever no ending is in progress |
| InterviewSession.CandidateEndAppendsRequest | job-placement-platform/apps/frontend/components/interview/useInterview.ts:229-256 | the candidate's request is appended trimmed after the flushed buffer; buffer emptied, call stopped |
| InterviewSession.SpeechEndNeverDuplicates | job-placement-platform/apps/frontend/components/interview/useInterview.ts:309-319 | speech end appends the trimmed text only when that (role, text) is not already recorded, and always clears the entry and `lastCommittedRole` |
| InterviewSession.EndWhileEndingIgnored | job-placement-platform/apps/frontend/components/interview/useInterview.ts:86-88 | a second `endInterview` while one is in progress changes nothing |
| InterviewSession.EndOutcome | apps/frontend/components/interview/useInterview.ts:69-106 | a blank history only navigates (to /applications or /jobs) in the two guarded hooks; otherwise save, then analyse, then the analysis page; on a failed save or analysis the hook's alert ("Failed to submit interview. Please try again." or, for the mock hook, "Failed to submit mock interview. Please try again.") is shown and the flag is cleared; a success shows no alert |
| InterviewSession.CountdownClamped | job-placement-platform/apps/frontend/components/interview/useInterview.ts:127-135 | the countdown shows max(0, 300000 - elapsed) and ends the interview exactly when it reaches 0 |
| InterviewSession.TranscriptSession.constructor | job-placement-platform/apps/frontend/components/interview/useInterview.ts:35-45 | the initial state: empty conversation and buffer, not connected, 300000 ms left |
| InterviewSession.TranscriptSession.Record | job-placement-platform/apps/frontend/components/interview/useInterview.ts:157-160 | one well-formed message appended, nothing else changed |
| InterviewSession.TranscriptSession.Stop | job-placement-platform/apps/frontend/components/interview/useInterview.ts:211-220 | the call stopped: not connected, not connecting, not speaking |
| InterviewSession.Flush | job-placement-platform/apps/frontend/components/interview/useInterview.ts:154-165 | the walk over the buffer yields, in insertion order, the trimmed text of every non-blank entry and nothing else |
| InterviewSession.TranscriptSession.Finalize | job-placement-platform/apps/frontend/components/interview/useInterview.ts:154-165 | the flushed messages are appended, the buffer is emptied and the last committed role cleared; every other field is kept and the invariant still holds |
| InterviewSession.TranscriptSession.Submit | job-placement-platform/apps/frontend/components/interview/useInterview.ts:109-117 | save, analyse and navigate as the submission specification says; a failure shows the variant's submit-failed alert and clears the flag |
| InterviewSession.TranscriptSession.EndInterview | apps/frontend/components/interview/useMockInterview.ts:86-125 | `endInterview` as specified for the session's hook (mock: blank history goes to /jobs, a failed submission alerts "Failed to submit mock interview. Please try again.") |
| InterviewSession.TranscriptSession.InterviewerDone | job-placement-platform/apps/frontend/components/interview/useInterview.ts:198-226 | the interviewer-completion path as specified |
| InterviewSession.TranscriptSession.CandidateDone | job-placement-platform/apps/frontend/components/interview/useInterview.ts:229-256 | the candidate-request path as specified |
| InterviewSession.TranscriptSession.FlushPreviousRole | job-placement-platform/apps/frontend/components/interview/useInterview.ts:258-267 | the role-switch flush as specified |
| InterviewSession.TranscriptSession.BufferTranscript | job-placement-platform/apps/frontend/components/interview/useInterview.ts:258-273 | the buffering path as specified |
| InterviewSession.TranscriptSession.OnTranscript | job-placement-platform/apps/frontend/components/interview/useInterview.ts:191-274 | `handleTranscript` as specified, keeping the invariant |
| InterviewSession.TranscriptSession.Forget | job-placement-platform/apps/frontend/components/interview/useInterview.ts:318-319 | the role's entry and `lastCommittedRole` dropped, leaving the buffer empty |
| InterviewSession.TranscriptSession.CommitCompletion | job-placement-platform/apps/frontend/components/interview/useInterview.ts:281-306 | the completion path of speech end as specified |
| InterviewSession.TranscriptSession.CommitEntry | job-placement-platform/apps/frontend/components/interview/useInterview.ts:309-319 | the ordinary speech-end commit as specified |
| InterviewSession.TranscriptSession.OnSpeechEnd | job-placement-platform/apps/frontend/components/interview/useInterview.ts:350-353 | the speech-end event as specified |
| InterviewSession.TranscriptSession.OnSpeechStart | job-placement-platform/apps/frontend/components/interview/useInterview.ts:346-348 | only the speaking flag is set |
| InterviewSession.TranscriptSession.OnCallStart | job-placement-platform/apps/frontend/components/interview/useInterview.ts:324-333 | conversation and buffer emptied, flag cleared, 300000 ms left, connected |
| InterviewSession.TranscriptSession.OnCallEnd | job-placement-platform/apps/frontend/components/interview/useInterview.ts:335-344 | call end as specified: stop, flush, end the interview |
| InterviewSession.TranscriptSession.OnFunctionCall | job-placement-platform/apps/frontend/components/interview/useInterview.ts:167-189 | an `endInterview` function call stops, flushes and ends; any other call changes nothing |
| InterviewSession.TranscriptSession.OnTick | job-placement-platform/apps/frontend/components/interview/useInterview.ts:127-135 | one countdown tick as specified |
| InterviewSession.TranscriptSession.StartCall | job-placement-platform/apps/frontend/components/interview/useInterview.ts:390-406 | with an assistant id the call is connecting and the platform hook asks for the preferred voice; without one nothing happens |
| InterviewSession.TranscriptSession.OnError | job-placement-platform/apps/frontend/components/interview/useInterview.ts:378-381 | only the connecting flag is cleared |
| ResumeRules.StructuredLines | job-placement-platform/apps/backend/src/resume-tailoring/resume-tailoring.service.ts:394-413 | an empty section prints nothing, not even its heading; otherwise the heading, then one "• " line per entry in order |
| ResumeRules.AfterZero | job-placement-platform/apps/backend/src/resume-tailoring/resume-tailoring.service.ts:276 | what follows the leading zero and its optional plus is a proper suffix of the text |
| ResumeRules.AfterZeroAppend | job-placement-platform/apps/backend/src/resume-tailoring/resume-tailoring.service.ts:276 | with two characters in front, a suffix stays after the zero |
| ResumeRules.FormatExperienceLabel | job-placement-platform/apps/backend/src/resume-tailoring/resume-tailoring.service.ts:264-282 | whatever the input (any JavaScript number, fractions, NaN and the infinities included, a text, or nothing), the label names experience or years |
| ResumeRules.LowerOfLower | job-placement-platform/apps/backend/src/resume-tailoring/resume-tailoring.service.ts:279 | a text with no upper-case letter is its own lower case |
| ResumeRules.EndsInExperience | job-placement-platform/apps/backend/src/resume-tailoring/resume-tailoring.service.ts:279 | a text with " experience" appended names experience |
| ResumeRules.FixedPhrasesMention | job-placement-platform/apps/backend/src/resume-tailoring/resume-tailoring.service.ts:267-281 | the three fixed labels name experience |
| ResumeRules.YearPrefixAppend | job-placement-platform/apps/backend/src/resume-tailoring/resume-tailoring.service.ts:276 | a suffix starting with white space and a letter other than y cannot complete a leading "year" |
| ResumeRules.YearAfterBlank | job-placement-platform/apps/backend/src/resume-tailoring/resume-tailoring.service.ts:276 | a blank text followed by such a suffix never starts with "year" |
| ResumeRules.YearNotAcrossSpace | job-placement-platform/apps/backend/src/resume-tailoring/resume-tailoring.service.ts:276 | a short word followed by a space-led suffix never starts with "year" |
| ResumeRules.YearInLongPrefix | job-placement-platform/apps/backend/src/resume-tailoring/resume-tailoring.service.ts:276 | a word of four or more characters starts with "year" on its own if the longer text does |
| ResumeRules.NoZeroFormAfterSuffix | job-placement-platform/apps/backend/src/resume-tailoring/resume-tailoring.service.ts:276 | appending " experience" never turns a text into the zero-years form |
| ResumeRules.PlainTextKept | job-placement-platform/apps/backend/src/resume-tailoring/resume-tailoring.service.ts:274-279 | a trimmed text that names experience or years and is not the zero form is used unchanged |
| ResumeRules.FixedPhrasesKept | job-placement-platform/apps/backend/src/resume-tailoring/resume-tailoring.service.ts:264-282 | the three fixed labels read back as themselves |
| ResumeRules.YearsPhraseKept | job-placement-platform/apps/backend/src/resume-tailoring/resume-tailoring.service.ts:272 | for any number above 0 other than 1, including NaN and Infinity, whose printed text is a JavaScript numeral, the "<n>+ years of experience" label read back as text is unchanged |
| ResumeRules.WholeYearsWellPrinted | job-placement-platform/apps/backend/src/resume-tailoring/resume-tailoring.service.ts:272 | a whole number of years above 1 prints as a numeral starting with a non-zero digit |
| ResumeRules.NonIntegerYears | job-placement-platform/apps/backend/src/resume-tailoring/resume-tailoring.service.ts:266-272 | 2.5 and 0.5 years give "2.5+ …" and "0.5+ years of experience", NaN gives "NaN+ years of experience", and -Infinity the entry-level label |
| ResumeRules.TextPhraseKept | job-placement-platform/apps/backend/src/resume-tailoring/resume-tailoring.service.ts:274-280 | a label made from a text reads back unchanged |
| ResumeRules.FormatExperienceLabelIdempotent | job-placement-platform/apps/backend/src/resume-tailoring/resume-tailoring.service.ts:264-282 | formatting a label that formatting produced gives the same label, for every text, for nothing, and for every number printed as JavaScript prints it |
| ResumeRules.TextLabelKeepsWords | job-placement-platform/apps/backend/src/resume-tailoring/resume-tailoring.service.ts:274-280 | a text label is the trimmed text, with " experience" added only when it names neither experience nor years |
| ResumeRules.EmailNeedsAt | job-placement-platform/apps/backend/src/resume-tailoring/resume-tailoring.service.ts:328 | a text with no "@" is never taken for an e-mail address |
| ResumeRules.FewDigitsNoAddress | job-placement-platform/apps/backend/src/resume-tailoring/resume-tailoring.service.ts:375-378 | a text with no three digits in a row is never taken for a postal address |
| ResumeRules.LabelledEntryKept | job-placement-platform/apps/backend/src/resume-tailoring/resume-tailoring.service.ts:326-344 | a "label: value" line is kept exactly when it holds no e-mail and no postal address |
| ResumeRules.UnlabelledNeedsKeyword | job-placement-platform/apps/backend/src/resume-tailoring/resume-tailoring.service.ts:334-343 | a line with no colon, allowed keyword or "http" is dropped |
| ResumeRules.EmailEntryDropped | job-placement-platform/apps/backend/src/resume-tailoring/resume-tailoring.service.ts:328-330 | an e-mail line is dropped even when labelled |
| ResumeTailoring.Compact | job-placement-platform/apps/backend/src/resume-tailoring/resume-tailoring.service.ts:136 | the compact form holds none of the ignored characters (white space . _ - /) |
| ResumeTailoring.Sanitize | job-placement-platform/apps/backend/src/resume-tailoring/resume-tailoring.service.ts:127-156 | empty exactly for a missing, blank or placeholder value, else exactly the trimmed input, which is no placeholder |
| ResumeTailoring.SanitizeIdempotent | job-placement-platform/apps/backend/src/resume-tailoring/resume-tailoring.service.ts:127-156 | sanitising twice is sanitising once |
| ResumeTailoring.PlaceholderSpellings | job-placement-platform/apps/backend/src/resume-tailoring/resume-tailoring.service.ts:135-154 | a placeholder in any letter case sanitises to "" |
| ResumeTailoring.PlaceholderIgnoresPunctuation | job-placement-platform/apps/backend/src/resume-tailoring/resume-tailoring.service.ts:136-152 | a space, dot, underscore, hyphen or slash inserted anywhere does not hide a placeholder |
| ResumeTailoring.CompactAround | job-placement-platform/apps/backend/src/resume-tailoring/resume-tailoring.service.ts:136 | an ignored character between two texts disappears from the compact form |
| ResumeTailoring.CompactPlain | job-placement-platform/apps/backend/src/resume-tailoring/resume-tailoring.service.ts:136 | a text without ignored characters is its own compact form |
| ResumeTailoring.DigitValueKept | job-placement-platform/apps/backend/src/resume-tailoring/resume-tailoring.service.ts:137-155 | a value holding a digit is never a placeholder and sanitises to its trimmed form |
| ResumeTailoring.NoDigitPlaceholder | job-placement-platform/apps/backend/src/resume-tailoring/resume-tailoring.service.ts:137-151 | no placeholder word holds a digit |
| ResumeTailoring.CompactKeeps | job-placement-platform/apps/backend/src/resume-tailoring/resume-tailoring.service.ts:136 | a character that is not ignored survives compaction |
| ResumeTailoring.Clean | job-placement-platform/apps/backend/src/resume-tailoring/resume-tailoring.service.ts:242-245 | every kept line is non-empty, trimmed and no placeholder; never more lines than items |
| ResumeTailoring.CleanAppend | job-placement-platform/apps/backend/src/resume-tailoring/resume-tailoring.service.ts:242-245 | cleaning works item by item, so the order of the lines is kept |
| ResumeTailoring.CleanOfStrings | job-placement-platform/apps/backend/src/resume-tailoring/resume-tailoring.service.ts:242-245 | clean lines written back as JSON strings clean to themselves |
| ResumeTailoring.CleanIdempotent | job-placement-platform/apps/backend/src/resume-tailoring/resume-tailoring.service.ts:242-245 | cleaning is idempotent |
| ResumeTailoring.ParseStructuredResume | job-placement-platform/apps/backend/src/resume-tailoring/resume-tailoring.service.ts:226-262 | null exactly for a blank payload, invalid JSON or a missing section array; otherwise all eight lists are clean |
| ResumeTailoring.Sections | job-placement-platform/apps/backend/src/resume-tailoring/resume-tailoring.service.ts:247-256 | the eight cleaned lists are clean |
| ResumeTailoring.ParseOfClean | job-placement-platform/apps/backend/src/resume-tailoring/resume-tailoring.service.ts:226-262 | an object holding clean content as string arrays parses back to exactly that content |
| ResumeTailoring.SectionsOfClean | job-placement-platform/apps/backend/src/resume-tailoring/resume-tailoring.service.ts:232-256 | the string arrays of clean content have all eight sections and clean back to it |
| ResumeTailoring.ParseIdempotent | job-placement-platform/apps/backend/src/resume-tailoring/resume-tailoring.service.ts:226-262 | parsed content written back out parses to itself |
| ResumeTailoring.FilterPersonalInfo | job-placement-platform/apps/backend/src/resume-tailoring/resume-tailoring.service.ts:284-345 | every kept entry is non-empty and passes the e-mail, address and label/keyword/link test; never more entries than input |
| ResumeTailoring.NormalizeLabelledSplit | job-placement-platform/apps/backend/src/resume-tailoring/resume-tailoring.service.ts:312-324 | the label is the text before the first colon and the value everything after it; a placeholder value empties the line, else "<label>: <value>" |
| ResumeTailoring.NormalizeStable | job-placement-platform/apps/backend/src/resume-tailoring/resume-tailoring.service.ts:307-324 | a normalised line is trimmed and normalising it again changes nothing |
| ResumeTailoring.RebuiltLineStable | job-placement-platform/apps/backend/src/resume-tailoring/resume-tailoring.service.ts:323 | a rebuilt "label: value" line is its own normal form |
| ResumeTailoring.RebuiltLineTrimmed | job-placement-platform/apps/backend/src/resume-tailoring/resume-tailoring.service.ts:323 | a rebuilt "label: value" line is trimmed |
| ResumeTailoring.FilterPersonalInfoLines | job-placement-platform/apps/backend/src/resume-tailoring/resume-tailoring.service.ts:307-345 | every kept entry is trimmed, non-empty, normalised and passes the test |
| ResumeTailoring.FilterPersonalInfoAppend | job-placement-platform/apps/backend/src/resume-tailoring/resume-tailoring.service.ts:307-345 | entries are filtered one by one, so their order is kept |
| ResumeTailoring.FilterPersonalInfoIdempotent | job-placement-platform/apps/backend/src/resume-tailoring/resume-tailoring.service.ts:284-345 | filtering the filtered entries again changes nothing |
| ResumeTailoring.PlaceholderValueDropped | job-placement-platform/apps/backend/src/resume-tailoring/resume-tailoring.service.ts:316-322 | a "label: placeholder" line such as "LinkedIn: N/A" is dropped |
| ResumeTailoring.OrElse | job-placement-platform/apps/backend/src/resume-tailoring/resume-tailoring.service.ts:179-186 | `a \|\| b` on strings: a when a is non-empty, b when a is empty; empty only when both are |
| ResumeTailoring.DisplayName | job-placement-platform/apps/backend/src/resume-tailoring/resume-tailoring.service.ts:179-182 | the sanitised resume name when usable; otherwise the sanitised account name when usable; otherwise "Candidate"; never empty, never a placeholder |
| ResumeTailoring.CandidateIsNoPlaceholder | job-placement-platform/apps/backend/src/resume-tailoring/resume-tailoring.service.ts:182 | "Candidate" is no placeholder |
| ResumeTailoring.AddressLine | job-placement-platform/apps/backend/src/resume-tailoring/resume-tailoring.service.ts:183-186 | the profile's sanitised location when usable, otherwise the resume's sanitised location; empty exactly when neither is usable |
| ResumeTailoring.ContactSegmentAsWritten | job-placement-platform/apps/backend/src/resume-tailoring/resume-tailoring.service.ts:199-201 | the fallback is taken before sanitising: a truthy resume value is sanitised and used (even when that empties it), otherwise the sanitised profile value |
| ResumeTailoring.ContactSegment | job-placement-platform/apps/backend/src/resume-tailoring/resume-tailoring.service.ts:183-186 | fallback after sanitising, as the address line does: the sanitised resume value when usable, otherwise the sanitised profile value; empty only when neither is usable |
| ResumeTailoring.PlaceholderHidesProfileLink | job-placement-platform/apps/backend/src/resume-tailoring/resume-tailoring.service.ts:197-205 | with "N/A" in the resume and a real link on the profile, the written segment is empty and the corrected one is the profile link |
| ResumeTailoring.ContactSegmentExtendsAsWritten | job-placement-platform/apps/backend/src/resume-tailoring/resume-tailoring.service.ts:197-205 | whenever the written segment is printed, the corrected one prints the same |
| ResumeTailoring.ContactSegments | job-placement-platform/apps/backend/src/resume-tailoring/resume-tailoring.service.ts:197-205 | the contact segments as written: exactly the non-empty ones, in order, of the sanitised e-mail and the three written items (resume value, else profile value, then sanitised); at most four, none a placeholder, none at all exactly when all four are empty |
| ResumeTailoring.ContactSegmentsCorrected | job-placement-platform/apps/backend/src/resume-tailoring/resume-tailoring.service.ts:197-205 | the contact segments with the corrected fallback: exactly the non-empty ones, in order, of the sanitised e-mail and the three corrected items; none at all exactly when the e-mail and all six resume and profile values sanitise to empty |
| ResumeTailoring.Segments | job-placement-platform/apps/backend/src/resume-tailoring/resume-tailoring.service.ts:197-205 | the non-empty ones of e-mail, LinkedIn, portfolio and GitHub, in that order and unchanged: at most four, none a placeholder, the e-mail first when present, empty exactly when all four are |
| ResumeTailoring.KeptSegments | job-placement-platform/apps/backend/src/resume-tailoring/resume-tailoring.service.ts:203-205 | `.filter(Boolean).map(trim)` over sanitised values is exactly the non-empty ones, in order and unchanged |
| ResumeTailoring.ProfileLinkPrinted | job-placement-platform/apps/backend/src/resume-tailoring/resume-tailoring.service.ts:197-214 | about the corrected header (`ContactSegmentsCorrected`, `HeaderLinesCorrected`): a usable LinkedIn link on the profile always yields a contact line, printed last, holding the profile link when the resume's is unusable and the resume's link otherwise |
| ResumeTailoring.HeaderLines | job-placement-platform/apps/backend/src/resume-tailoring/resume-tailoring.service.ts:168-217 | `writeHeader` as written: the display name, then the address line when non-empty, then the contact line of the as-written segments when there is one, and nothing else |
| ResumeTailoring.HeaderLinesCorrected | job-placement-platform/apps/backend/src/resume-tailoring/resume-tailoring.service.ts:168-217 | the same header layout built on the corrected contact segments |
| ResumeTailoring.Header | job-placement-platform/apps/backend/src/resume-tailoring/resume-tailoring.service.ts:187-214 | the name line, then the address and the contact line each only when present, the contact line last |
| ResumeTailoring.HeaderDropsProfileLink | job-placement-platform/apps/backend/src/resume-tailoring/resume-tailoring.service.ts:197-214 | as written, "N/A" in the resume's LinkedIn with a real profile link and no other contact detail prints no contact line, where the corrected header prints one more line |
| ResumeTailoring.ContactLine | job-placement-platform/apps/backend/src/resume-tailoring/resume-tailoring.service.ts:212 | the joined contact line is non-empty and starts with the first segment |
| ResumeTailoring.JoinHead | job-placement-platform/apps/backend/src/resume-tailoring/resume-tailoring.service.ts:212 | a join starts with its first part and the separator |
| ResumeTailoring.TailoredLinesIgnoreUnprinted | job-placement-platform/apps/backend/src/resume-tailoring/resume-tailoring.service.ts:219-225 | the printed document does not depend on personal info, key highlights or closing notes |
| ResumeTailoring.TailoredLinesLength | job-placement-platform/apps/backend/src/resume-tailoring/resume-tailoring.service.ts:219-225 | the document has the introduction lines plus, per non-empty section, a heading and one line per entry |
| LegacyResumeTailoring.Clean | apps/backend/src/resume-tailoring/resume-tailoring.service.ts:209-216 | every kept line is non-empty and trimmed; placeholders such as "N/A" are kept |
| LegacyResumeTailoring.CleanAppend | apps/backend/src/resume-tailoring/resume-tailoring.service.ts:209-216 | cleaning works item by item, so the order is kept |
| LegacyResumeTailoring.CleanOfStrings | apps/backend/src/resume-tailoring/resume-tailoring.service.ts:209-216 | trimmed non-empty lines written back as JSON strings clean to themselves |
| LegacyResumeTailoring.ParseStructuredResume | apps/backend/src/resume-tailoring/resume-tailoring.service.ts:192-223 | null exactly for a blank payload, invalid JSON or a missing section array; otherwise all lists are trimmed and non-empty |
| LegacyResumeTailoring.Sections | apps/backend/src/resume-tailoring/resume-tailoring.service.ts:208-217 | the eight trimmed lists are clean |
| LegacyResumeTailoring.SectionsOfClean | apps/backend/src/resume-tailoring/resume-tailoring.service.ts:198-217 | the string arrays of clean content have all sections and clean back to it |
| LegacyResumeTailoring.ParseOfClean | apps/backend/src/resume-tailoring/resume-tailoring.service.ts:192-223 | an object holding clean lines as string arrays parses back to exactly those lines |
| LegacyResumeTailoring.FilterPersonalInfo | apps/backend/src/resume-tailoring/resume-tailoring.service.ts:245-290 | every kept entry is non-empty, trimmed and passes the shared test; labelled values are not inspected |
| LegacyResumeTailoring.FilterPersonalInfoAppend | apps/backend/src/resume-tailoring/resume-tailoring.service.ts:245-290 | entries are filtered one by one, so their order is kept |
| LegacyResumeTailoring.FilterPersonalInfoIdempotent | apps/backend/src/resume-tailoring/resume-tailoring.service.ts:245-290 | filtering the filtered entries again changes nothing |
| LegacyResumeTailoring.PlaceholderValueKept | apps/backend/src/resume-tailoring/resume-tailoring.service.ts:271-281 | a labelled line without e-mail or three digits in a row, such as "LinkedIn: N/A", is kept as it is |
| LegacyResumeTailoring.DisplayName | apps/backend/src/resume-tailoring/resume-tailoring.service.ts:143 | `resume.Name \|\| user.name \|\| 'Candidate'`: the resume's name when truthy, otherwise the account name when truthy, otherwise "Candidate"; never empty |
| LegacyResumeTailoring.AddressLine | apps/backend/src/resume-tailoring/resume-tailoring.service.ts:144 | the profile location when truthy, otherwise the resume's when truthy; empty exactly when neither is truthy |
| LegacyResumeTailoring.ContactSegments | apps/backend/src/resume-tailoring/resume-tailoring.service.ts:155-163 | in order: the e-mail, then LinkedIn, portfolio and GitHub each taken from the resume when truthy and else from the profile; a falsy choice contributes nothing and a truthy one its trimmed value; at most four, each trimmed |
| LegacyResumeTailoring.SpacesOnlySegmentKept | apps/backend/src/resume-tailoring/resume-tailoring.service.ts:155-163 | a LinkedIn value of spaces only in the resume is truthy, so it is chosen and printed as an empty segment (the newer header drops it) |
| LegacyResumeTailoring.PlaceholderNamePrinted | apps/backend/src/resume-tailoring/resume-tailoring.service.ts:143 | the older header prints a resume name of "N/A" as it is, over the account name |
| LegacyResumeTailoring.PersonalInfoSection | apps/backend/src/resume-tailoring/resume-tailoring.service.ts:177-181 | when printed, the personal-info section opens the document and none of its lines holds an e-mail address |
| InterviewScoring.Clamp | job-placement-platform/apps/backend/src/applications/applications.service.ts:184-188 | the clamped value is always between 0 and 2, an in-range value is kept, a negative one becomes 0 and one above 2 becomes 2 |
| InterviewScoring.SubScore | job-placement-platform/apps/backend/src/applications/applications.service.ts:184-188 | a sub-score is always between 0 and 2; a value `parseInt` cannot read scores 0, any other scores its clamped integer part |
| InterviewScoring.SubScoreOfInteger | job-placement-platform/apps/backend/src/applications/applications.service.ts:184-188 | a reply stating an in-range integer score, as a number or as a string, keeps exactly that score |
| InterviewScoring.MissingSubScore | job-placement-platform/apps/backend/src/applications/applications.service.ts:184-188 | a missing score property scores 0 |
| InterviewScoring.NullSubScore | job-placement-platform/apps/backend/src/applications/applications.service.ts:184-188 | a `null` score property scores 0 |
| InterviewScoring.Total | job-placement-platform/apps/backend/src/applications/applications.service.ts:194 | the relevance score of in-range sub-scores lies between 0 and 10; 10 only when every sub-score is 2 and 0 only when every sub-score is 0 |
| InterviewScoring.ScoresOf | job-placement-platform/apps/backend/src/applications/applications.service.ts:184-188 | all five sub-scores read from any reply are in range |
| InterviewScoring.ReadAnalysis | job-placement-platform/apps/backend/src/applications/applications.service.ts:182-190 | the analysis fails exactly when there is no parsed reply or it is `null`; otherwise the scores are in range, the relevance score is their sum between 0 and 10, and the comment, strengths and weaknesses are never falsy |
| InterviewScoring.WellFormedReplyKept | job-placement-platform/apps/backend/src/applications/applications.service.ts:182-194 | a reply stating all five scores as in-range integers is stored with exactly those scores and their sum |
| InterviewScoring.ScorelessReplyScoresZero | job-placement-platform/apps/backend/src/applications/applications.service.ts:182-194 | an object reply with no score property stores five zeros, a zero relevance score and the reply's texts or their fallbacks |
| Applications.UuidIgnoresCase | job-placement-platform/apps/backend/src/applications/applications.service.ts:39 | the id pattern is case-insensitive: an id is accepted exactly when its lower-case form is |
| Applications.UuidOfGroups | job-placement-platform/apps/backend/src/applications/applications.service.ts:39 | five hexadecimal groups of 8, 4, 4, 4 and 12 digits joined by dashes are always accepted |
| Applications.FindById | job-placement-platform/apps/backend/src/applications/applications.service.ts:101-113 | the lookup by id finds a row with that id, and finds none exactly when no row has it |
| Applications.FindPair | job-placement-platform/apps/backend/src/applications/applications.service.ts:61-70 | the lookup by job and user finds a row for that pair, and finds none exactly when no row has both |
| Applications.Replace | job-placement-platform/apps/backend/src/applications/applications.service.ts:191-204 | the update by id changes exactly the rows with the updated row's id and keeps the length |
| Applications.Create | job-placement-platform/apps/backend/src/applications/applications.service.ts:20-99 | each guard's error in source order (no user id, unknown user, malformed user id, malformed job id, duplicate application); success exactly when the user exists with a well-formed id, the job id is well formed and exists, no application for the pair exists and a PENDING status is seeded; the new row carries the DTO's fields and the PENDING status with no score |
| Applications.CreateKeepsValid | job-placement-platform/apps/backend/src/applications/applications.service.ts:61-94 | storing an accepted application under a fresh id keeps ids unique, one application per job and user, and every reference valid |
| Applications.AnalyzeInterview | job-placement-platform/apps/backend/src/applications/applications.service.ts:100-210 | the guards' errors in source order (unknown application, already analysed by a truthy score, then the resume lookup's own 404 passed through, an empty resume text, not the owner, no conversation); success exactly when all pass and the reply is read; the stored row keeps everything but the score and analysis, and its score lies between 0 and 10 |
| Applications.ReplaceKeepsValid | job-placement-platform/apps/backend/src/applications/applications.service.ts:191-204 | writing back a row that keeps its id, job, user and status keeps the tables valid |
| Applications.InterviewExists | job-placement-platform/apps/backend/src/applications/applications.service.ts:233-250 | an unknown id is NotFound; otherwise the answer is true exactly when the application's relevance score is stored |
| Applications.AnalyzedInterviewExists | job-placement-platform/apps/backend/src/applications/applications.service.ts:191-250 | after an analysis is written back, the interview is reported as existing |
| Applications.ZeroScoreReanalysable | job-placement-platform/apps/backend/src/applications/applications.service.ts:114-116 | a stored score of 0 does not block a new analysis although the interview is already reported as existing |
| Applications.GetMyApplicationStatus | job-placement-platform/apps/backend/src/applications/applications.service.ts:337-363 | an unknown user is NotFound; "not applied" exactly when no application for the job and user exists; otherwise the status name and id of such an application |
| Applications.CreatedApplicationVisible | job-placement-platform/apps/backend/src/applications/applications.service.ts:20-99 | once a created application is stored, the applicant sees it with the PENDING status's name and its own id |
| MockInterviews.EnsurePremium | job-placement-platform/apps/backend/src/mock-interviews/mock-interviews.service.ts:28-52 | the gate passes exactly for an existing candidate with either premium flag; an unknown user is NotFound and every other refusal is Forbidden |
| MockInterviews.PremiumNonCandidateRefused | job-placement-platform/apps/backend/src/mock-interviews/mock-interviews.service.ts:42-45 | a user who is not a candidate is refused for the role whatever plan they hold |
| MockInterviews.StartMockInterview | job-placement-platform/apps/backend/src/mock-interviews/mock-interviews.service.ts:54-71 | succeeds exactly when the gate passes and the job exists, passes the gate's error through, and the new row has no transcript and no score |
| MockInterviews.FindById | job-placement-platform/apps/backend/src/mock-interviews/mock-interviews.service.ts:74-81 | the lookup by id finds a row with that id, and finds none exactly when no row has it |
| MockInterviews.SaveConversation | job-placement-platform/apps/backend/src/mock-interviews/mock-interviews.service.ts:73-91 | an unknown interview is NotFound, another user's is Unauthorized, and the owner's row changes in its transcript only |
| MockInterviews.CandidateResponses | job-placement-platform/apps/backend/src/mock-interviews/mock-interviews.service.ts:122-124 | the count of non-blank lines mentioning `candidate:` in any case never exceeds the number of lines |
| MockInterviews.SplitHistoryLines | job-placement-platform/apps/backend/src/mock-interviews/mock-interviews.service.ts:123 | splitting a transcript joined with blank lines and dropping blank pieces gives its turns back |
| MockInterviews.CandidateLinesMention | job-placement-platform/apps/backend/src/mock-interviews/mock-interviews.service.ts:124 | every candidate turn of a formatted conversation yields a line that mentions `candidate:` |
| MockInterviews.FormattedTranscriptPasses | job-placement-platform/apps/backend/src/mock-interviews/mock-interviews.service.ts:122-128 | a transcript formatted by the interview page with at least three single-line candidate turns passes the length check |
| MockInterviews.AnalyzeMockInterview | job-placement-platform/apps/backend/src/mock-interviews/mock-interviews.service.ts:93-256 | the guards' errors in source order (unknown interview, not the owner, already scored, no transcript, fewer than three candidate lines, then the resume lookup's own 404 passed through, an empty resume text); success exactly when all pass and the reply is read; the stored row gains the scores, their sum between 0 and 10 and the answer feedback, `[]` when the reply has none |
| ResumeLookup.GetResumeText | job-placement-platform/apps/backend/src/user-details/user-details.service.ts:107-115 | a missing user, a missing details row and a falsy resume link each fail with their own 404 message, in that order; exactly when all three are present the parsed PDF text is returned |
| Jobs.EmbedText | job-placement-platform/apps/backend/src/jobs/jobs.service.ts:76-82 | the text sent for embedding is trimmed, and is empty (so nothing is embedded) exactly when title, description, requirements and responsibilities are all blank |
| Jobs.PostedKeepsBalance | job-placement-platform/apps/backend/src/jobs/jobs.service.ts:72-75 | storing a job keeps every company's job count plus remaining post limit unchanged, and a company whose limit was not 0 keeps non-negative limits non-negative |
| Jobs.Create | job-placement-platform/apps/backend/src/jobs/jobs.service.ts:17-94 | the guards' errors in source order (unknown user, past deadline, missing or unverified company, post limit exactly 0, unknown job type) leave the tables unchanged; once they pass the row is stored and the limit decremented, and a failed embedding reports an error although the job is stored |
| Jobs.LastPostExhaustsLimit | job-placement-platform/apps/backend/src/jobs/jobs.service.ts:35-75 | a company with one post left is refused its next post once that post has decremented the limit to 0 |
| Jobs.SquaresZero | job-placement-platform/apps/backend/src/jobs/jobs.service.ts:162-165 | a squared norm is never negative and is 0 exactly when every component is 0 |
| Jobs.Cosine | job-placement-platform/apps/backend/src/jobs/jobs.service.ts:153-167 | the loop accumulates the dot product and both squared norms over the common length; the score is 0 when either norm is 0, otherwise the ratio of those sums |
| Jobs.ZeroEmbeddingScoresZero | job-placement-platform/apps/backend/src/jobs/jobs.service.ts:165 | a job whose embedding is zero on the common length has a zero norm, so it scores 0 |
| Jobs.Ranked | job-placement-platform/apps/backend/src/jobs/jobs.service.ts:169-175 | the ranked jobs are exactly those whose embedding is an array, each once, in non-increasing score order |
| Jobs.SearchJobs | job-placement-platform/apps/backend/src/jobs/jobs.service.ts:127-180 | an empty query is refused with "Search query is required"; otherwise one listing per job with an embedding, best score first, without embedding or score |
| Jobs.RankedKeepsSortedInput | job-placement-platform/apps/backend/src/jobs/jobs.service.ts:169-175 | jobs that all have embeddings and are already best first come back unchanged |
| Jobs.RankedTiesInListOrder | job-placement-platform/apps/backend/src/jobs/jobs.service.ts:169-175 | jobs with equal scores come out in the order the query listed them, because `Array.prototype.sort` is stable |
| Seqs.SortDescStable | job-placement-platform/apps/backend/src/jobs/jobs.service.ts:175 | the descending sort is stable: for every key, the elements with that key keep their input order |
| Jobs.Window | job-placement-platform/apps/backend/src/jobs/jobs.service.ts:116-117 | the page size is the given limit unless it is missing or 0, then 50, so always positive; the offset is the given one or 0 |
| Jobs.Newest | job-placement-platform/apps/backend/src/jobs/jobs.service.ts:113-124 | the active jobs, each once, newest first |
| Jobs.FindAll | job-placement-platform/apps/backend/src/jobs/jobs.service.ts:111-126 | exactly the slice of the active jobs, newest first, that starts at the offset and holds up to the page size (empty past the end); hence all active and newest first |
| Jobs.ApplicationExists | job-placement-platform/apps/backend/src/jobs/jobs.service.ts:196-230 | an unknown user is Unauthorized; the answer is false exactly when the user's application for the job has the status named PENDING, true otherwise, including when there is none |
| Jobs.FindJob | job-placement-platform/apps/backend/src/jobs/jobs.service.ts:317-329 | the lookup by id finds a job with that id, and finds none exactly when no job has it |
| Jobs.UpdateViews | job-placement-platform/apps/backend/src/jobs/jobs.service.ts:316-349 | a missing job succeeds only when there is no requester and changes nothing; an existing job succeeds, the owner's view leaves the tables unchanged and anyone else's adds exactly one view to that job; no job ever gains more than one |
| Admin.RoleCode | job-placement-platform/apps/backend/src/admin/admin.service.ts:19-23 | a user has a role code exactly when their role id names an existing role |
| Admin.NumberOr | job-placement-platform/apps/backend/src/admin/admin.service.ts:10-11 | a query value that is present and non-zero is used, a missing, unreadable or zero one falls back to the default |
| Admin.Skip | job-placement-platform/apps/backend/src/admin/admin.service.ts:30 | the rows passed over are never negative for a page from 1 on with a non-negative limit, nor for a page up to 1 with a non-positive limit |
| Admin.SkipIsProduct | job-placement-platform/apps/backend/src/admin/admin.service.ts:30 | the skip is `(page - 1) * limit` |
| Admin.SkipNext | job-placement-platform/apps/backend/src/admin/admin.service.ts:30 | the next page starts `limit` rows further on |
| Admin.Window | job-placement-platform/apps/backend/src/admin/admin.service.ts:29-30 | a page is served exactly when page and limit are numbers and the skip `(page - 1) * limit` is not negative; it never holds more rows than the limit's absolute value; with a non-negative limit it is the slice from the skip of up to `limit` rows (empty past the end); with a negative limit it is the up to `-limit` rows that end `skip` rows before the end of the list, in list order; it holds only rows of the list |
| Admin.WindowServesPositivePages | job-placement-platform/apps/backend/src/admin/admin.service.ts:29-30 | every page from 1 on with a non-negative limit is served as the slice that starts at `(page - 1) * limit` |
| Admin.ConsecutivePages | job-placement-platform/apps/backend/src/admin/admin.service.ts:29-30 | pages p and p + 1 together list the 2 * limit rows from the start of page p, in order, with none repeated or skipped |
| Admin.NegativeLimitFirstPage | job-placement-platform/apps/backend/src/admin/admin.service.ts:29-30 | with a negative limit the first page is the last `-limit` rows, or every row when there are fewer |
| Seqs.PageFromEndReversed | job-placement-platform/apps/backend/src/admin/admin.service.ts:29-30 | the window counted from the end that a negative take selects is the window of the reversed list, put back in order |
| Admin.QuotientOfRange | job-placement-platform/apps/backend/src/admin/admin.service.ts:30 | a row index lies in the skip range of page k + 1 exactly when k is the index divided by the limit |
| Admin.RowOnOnePage | job-placement-platform/apps/backend/src/admin/admin.service.ts:29-30 | in a list without repeated rows and with a positive limit, row i appears on page i / limit + 1 and on no other page |
| Admin.NewestUsers | job-placement-platform/apps/backend/src/admin/admin.service.ts:26-28 | the same users, each once, newest first |
| Admin.GetUsers | job-placement-platform/apps/backend/src/admin/admin.service.ts:9-33 | the newest-first users windowed with page defaulting to 1 and limit to 10; never more rows than the limit's absolute value, and only listed users |
| Admin.DefaultUsersPage | job-placement-platform/apps/backend/src/admin/admin.service.ts:10-30 | without query parameters the ten newest users are listed |
| Admin.WithRole | job-placement-platform/apps/backend/src/admin/admin.service.ts:36-40 | exactly the users whose role has the code, in table order |
| Admin.ListByRole | job-placement-platform/apps/backend/src/admin/admin.service.ts:34-88 | the one query behind `getRecruiters` ("RECRUITER") and `getCandidates` ("CANDIDATE"): only users with that role, nothing for a missing page or limit, and for a page from 1 on with a non-negative limit exactly the page of the role's users in table order |
| Admin.ListedOnOnePage | job-placement-platform/apps/backend/src/admin/admin.service.ts:34-88 | with distinct rows and a positive limit, every user with the role is listed on exactly one page, the one its position gives |
| Admin.GetUnverifiedCompanies | job-placement-platform/apps/backend/src/admin/admin.service.ts:89-99 | only companies neither verified nor rejected, nothing for a missing page or limit, and for a page from 1 on with a non-negative limit exactly the page of the review queue |
| Admin.QueuedOnOnePage | job-placement-platform/apps/backend/src/admin/admin.service.ts:89-99 | with distinct rows and a positive limit, every company awaiting review is listed on exactly one page |
| Admin.FindCompany | job-placement-platform/apps/backend/src/admin/admin.service.ts:101-108 | the lookup by id finds a company with that id, and finds none exactly when no company has it |
| Admin.VerifyCompany | job-placement-platform/apps/backend/src/admin/admin.service.ts:100-118 | an unknown id is NotFound and changes nothing; otherwise only that company's verified flag is set |
| Admin.RejectCompany | job-placement-platform/apps/backend/src/admin/admin.service.ts:119-137 | an unknown id is NotFound and changes nothing; otherwise only that company's rejected flag is set |
| Admin.ReviewedLeavesQueue | job-placement-platform/apps/backend/src/admin/admin.service.ts:89-137 | a verified or rejected company leaves the review queue, which is the old queue with that company removed |
| Admin.FindUser | job-placement-platform/apps/backend/src/admin/admin.service.ts:143-159 | the lookup by id finds a user with that id, and finds none exactly when no user has it |
| Admin.FindRoleByCode | job-placement-platform/apps/backend/src/admin/admin.service.ts:163-173 | the lookup by code finds a role with that code, and finds none exactly when no role has it |
| Admin.UpdateUserRole | job-placement-platform/apps/backend/src/admin/admin.service.ts:138-193 | the guards' errors in source order (role not assignable, unknown user, administrator); success exactly when all pass and the role exists; only that user's role id changes, to the requested role's id, and a failure changes nothing |
| Admin.RoleChangeTakesEffect | job-placement-platform/apps/backend/src/admin/admin.service.ts:163-191 | with unique role ids, the changed user's role afterwards has the requested code |
| ExceptionFilters.PrismaMapping | apps/backend/src/common/filters/prisma-exception.filter.ts:27-57 | each database error maps to its status and message, each known code to its own pair in both directions, other codes to 500 "Database operation failed", a validation error to 400, a failed connection to 503 and anything else to 500 "Database error occurred" |
| ExceptionFilters.PrismaCatch | apps/backend/src/common/filters/prisma-exception.filter.ts:15-69 | the overwrite-the-defaults branches answer with exactly the mapping's status and message, and only an error of no known class is logged as fatal |
| ExceptionFilters.HttpCatch | apps/backend/src/common/filters/http-exception.filter.ts:16-46 | the exception's own status; a string body verbatim; an object body's truthy message, else the exception's message, an array joined with ", "; logged as fatal exactly from status 500 on |
| ExceptionFilters.ServiceErrorsPassThrough | apps/backend/src/common/filters/http-exception.filter.ts:20-30 | an exception thrown with a message reaches the client with its own status and that message |
| ExceptionFilters.ValidationMessagesJoined | apps/backend/src/common/filters/http-exception.filter.ts:27-29 | several validation messages are reported together, in order, separated by ", " |
| ExceptionFilters.CloudinaryExceptionMessage | job-placement-platform/apps/backend/src/common/filters/cloudinary-exception.filter.ts:12-24 | the exception's message is never empty and is Cloudinary's own message when that is truthy |
| ExceptionFilters.CloudinaryCatch | job-placement-platform/apps/backend/src/common/filters/cloudinary-exception.filter.ts:32-70 | the status is always in [400, 600): the reported code when it is a number in that range, else 502; the message is never empty and is the original's, else the exception's, else the fallback; logged as fatal exactly from 500 on |
| Stripe.CreateIntent | apps/backend/src/stripe/stripe.service.ts:16-19 | accepted exactly when the amount is a non-zero JSON number; a missing amount, zero or a value of another type is refused with the fixed message |
| Stripe.ZeroAmountRefused | apps/backend/src/stripe/stripe.service.ts:17 | zero (in any spelling) and a numeric string are refused, while a negative amount passes the guard |
| Stripe.Price | apps/backend/src/stripe/stripe.service.ts:45-59 | the two single plans cost 500 cents and every other plan, full or unknown, 800 |
| Stripe.FullPlanIsCheaper | apps/backend/src/stripe/stripe.service.ts:45-59 | the full plan costs less than the two single plans together |
| Stripe.PlanPrice | apps/backend/src/stripe/stripe.service.ts:42-59 | the switch sets the plan's price and product name, always a positive amount and a non-empty name |
| Stripe.CreateCheckoutSession | apps/backend/src/stripe/stripe.service.ts:33-81 | one line item in USD of quantity 1 at the plan's price and name, both return URLs followed by the session-id placeholder, payment mode, the customer's address and the plan in the metadata |
| Stripe.CheckoutChargesPrice | apps/backend/src/stripe/stripe.service.ts:61-71 | the session requested for a plan charges exactly that plan's price |
| Stripe.Granted | apps/backend/src/stripe/stripe.service.ts:91-101 | a tailoring session grants only tailoring, a mock session only mock interviews, and a full or unknown plan all three flags |
| Stripe.CheckSession | apps/backend/src/stripe/stripe.service.ts:82-112 | an incomplete session or missing address is "Payment is not complete" and writes nothing; an unknown address fails with the database's "Record not found"; otherwise only that user's flags change, each granted flag set and none cleared, and the answer is success with status "complete" |
| Premium.Entitlements | job-placement-platform/apps/frontend/components/home/PremiumSectionWithCheckout.tsx:29-36 | tailoring is owned with premium or the tailoring flag, mock with premium or the mock flag, full exactly when both are owned; no access owns nothing and premium owns everything |
| Premium.PurchaseUnlocksPlan | apps/backend/src/stripe/stripe.service.ts:91-106 | after a completed checkout the plan bought counts as owned, and no feature owned before is lost |
| Premium.BothSinglesGiveFull | apps/backend/src/stripe/stripe.service.ts:91-106 | buying both single plans gives full premium |
| Premium.Offered | job-placement-platform/apps/frontend/components/home/PremiumSection.tsx:48-130 | the sign-in prompt exactly when signed out; the "already have access" note exactly when everything is owned; otherwise cards for exactly the plans not owned, at least one, disabled while loading |
| Premium.FullOfferedWithSingles | job-placement-platform/apps/frontend/components/home/PremiumSection.tsx:48-130 | with derived entitlements the full plan is offered exactly when a single plan is, and the note appears exactly when both features are owned |
| Premium.ReplyOutcome | job-placement-platform/apps/frontend/components/home/PremiumSectionWithCheckout.tsx:50-73 | a reply leads either to a status message or to a redirect, never both; the redirect exactly for an ok reply with a truthy URL; a `null` body shows the `TypeError` of reading its `message` (refused) or `url` (ok); an ok reply without a URL shows "Stripe checkout URL missing in response."; a refusal its message or "Unable to create checkout session.", a thrown error its own message, and "Unexpected error creating checkout session." when the message would be empty |
| Premium.RefusalShowsServerMessage | job-placement-platform/apps/frontend/components/home/PremiumSectionWithCheckout.tsx:63-73 | a refused request whose body has a non-empty message shows that message |
| Premium.CheckoutSection.HandleBuy | job-placement-platform/apps/frontend/components/home/PremiumSectionWithCheckout.tsx:40-77 | without a session address only the sign-in toast and route; otherwise exactly one checkout request with the origin's success and cancel URLs, the reply's message or redirect, and loading cleared at the end |
| Premium.CheckoutSection.constructor | job-placement-platform/apps/frontend/components/home/PremiumSectionWithCheckout.tsx:25-27 | no status message, not loading, nothing sent, shown or navigated |
| RouteGuards.TokenRole | job-placement-platform/apps/frontend/proxy.ts:10 | no token has no role; otherwise the token's own truthy role, else its user's role |
| RouteGuards.GuardedPrefixesExclusive | job-placement-platform/apps/frontend/proxy.ts:9-36 | no path lies under two of the guarded prefixes, so the order of the checks does not matter |
| RouteGuards.Proxy | job-placement-platform/apps/frontend/proxy.ts:5-38 | under each guarded prefix a request passes exactly when the token's role is that prefix's role and is otherwise sent to the home page; every other path passes |
| RouteGuards.ProxyAuthorized | job-placement-platform/apps/frontend/proxy.ts:41-56 | a token is required exactly under the guarded prefixes |
| RouteGuards.MatchedPathsGuarded | job-placement-platform/apps/frontend/proxy.ts:61-72 | every path the matcher selects lies under a guarded prefix |
| RouteGuards.Middleware | apps/frontend/middleware.ts:5-18 | a request is redirected home exactly when it is under the admin dashboard and the role is not ADMIN |
| RouteGuards.MiddlewareAuthorized | apps/frontend/middleware.ts:21-28 | a token is required exactly under the admin dashboard |
| RouteGuards.ProxyStricterThanMiddleware | job-placement-platform/apps/frontend/proxy.ts:5-56 | both front ends treat the admin dashboard alike, and whatever the newer one lets through or authorises the older one does too |
| RouteGuards.IsPublicRoute | apps/frontend/components/AuthChecker.tsx:12-26 | public exactly for the home page and the job list as exact paths and for paths starting with the sign-in or sign-out route |
| RouteGuards.PublicRouteCases | apps/frontend/components/AuthChecker.tsx:18-26 | the `some` over the four public routes holds exactly in those four cases |
| RouteGuards.JobDetailIsPrivate | apps/frontend/components/AuthChecker.tsx:18-26 | a job's own page is not public, while a provider's sign-in page is |
| RouteGuards.EncodeUriComponent | apps/frontend/components/AuthChecker.tsx:30 | the encoded path holds only unreserved characters, `%` and upper-case hex digits, so it stays one query value; a path of unreserved characters is unchanged |
| RouteGuards.SlashEncoded | apps/frontend/components/AuthChecker.tsx:30 | a slash is encoded as %2F |
| RouteGuards.RedirectTarget | apps/frontend/components/AuthChecker.tsx:28-33 | a visitor is sent to sign in exactly on a private page, signed out, with a known path, and the callback is the encoded path |
| RouteGuards.RendersChildren | apps/frontend/components/AuthChecker.tsx:34-44 | the content is shown exactly on a public page or once the session is authenticated |
| RouteGuards.RedirectHidesContent | apps/frontend/components/AuthChecker.tsx:28-44 | a page that sends the visitor away never shows its content |
| RolesGuard.RequiredRoles | job-placement-platform/apps/backend/src/auth/roles.guard.ts:10-13 | the handler's roles when it has any list, otherwise the controller's |
| RolesGuard.CanActivate | job-placement-platform/apps/backend/src/auth/roles.guard.ts:9-33 | passes exactly when no roles are required or the request's truthy role is listed; a missing role and an unlisted role are refused with their messages, always 403 |
| RolesGuard.HandlerOverridesClass | job-placement-platform/apps/backend/src/auth/roles.guard.ts:10-13 | with roles on the handler the controller's roles make no difference |
| RolesGuard.EmptyRoleListRefusesAll | job-placement-platform/apps/backend/src/auth/roles.guard.ts:15-30 | an empty required list refuses every request |
| RolesGuard.MoreRolesAdmitMore | job-placement-platform/apps/backend/src/auth/roles.guard.ts:26-32 | adding roles to the required list never refuses a request that passed |
| Formatters.FormatSalary | apps/frontend/components/jobs/utils.ts:10-21 | "Not specified" exactly when neither bound is given; otherwise the full range, "From" a lower bound or "Up to" an upper bound, each with the currency |
| Formatters.CurrencyOf | apps/frontend/components/jobs/utils.ts:16 | the currency is never empty: the job's own when truthy, else NPR |
| Formatters.JsRem | apps/frontend/components/interview/InterviewControls.tsx:24 | JavaScript's remainder: the usual remainder for a non-negative dividend, and non-positive above `-b` for a negative one |
| Formatters.PadStart2 | apps/frontend/components/interview/InterviewControls.tsx:25 | a text of two or more characters is kept; a shorter one is padded on the left to exactly two characters ending with it |
| Formatters.FormatTime | apps/frontend/components/interview/InterviewControls.tsx:21-26 | for a non-negative time, the whole minutes, a colon and the seconds of the minute padded to two digits |
| Formatters.FiveMinutes | apps/frontend/components/interview/InterviewControls.tsx:21-26 | five minutes display as "5:00" |
| Formatters.PaddedReadsBack | apps/frontend/components/interview/InterviewControls.tsx:25 | the padded seconds below 60 are two digits that read back as the seconds |
| Formatters.FormatTimeReadsBack | apps/frontend/components/interview/InterviewControls.tsx:21-26 | the displayed time splits at its one colon into minutes and two-digit seconds below 60 that give back the whole seconds remaining |
| Formatters.StatusLabel | apps/frontend/components/interview/InterviewControls.tsx:41-47 | speaking takes priority over connected, and neither reads "Ready to Start" |
| Formatters.Controls | apps/frontend/components/interview/InterviewControls.tsx:28-79 | the status label; the timer, End button and auto-end note exactly while connected; the Start button exactly while not, disabled on request |
| Formatters.OneButtonOffered | apps/frontend/components/interview/InterviewControls.tsx:50-72 | exactly one of Start and End is offered |
| ApplyDialog.SplitOnSpace | job-placement-platform/apps/frontend/components/jobs/ApplyDialog.tsx:35 | the split on runs of white space always yields at least one piece |
| ApplyDialog.SplitCountsWords | job-placement-platform/apps/frontend/components/jobs/ApplyDialog.tsx:35 | the non-empty pieces of the split are exactly as many as the runs of non-white-space characters |
| ApplyDialog.TrimWords | job-placement-platform/apps/frontend/components/jobs/ApplyDialog.tsx:35 | trimming adds and removes no word |
| ApplyDialog.WordCountIsWords | job-placement-platform/apps/frontend/components/jobs/ApplyDialog.tsx:35 | the word count counts the runs of non-white-space characters of the letter |
| ApplyDialog.ValidIffWordsInRange | job-placement-platform/apps/frontend/components/jobs/ApplyDialog.tsx:36 | a letter is valid exactly when it has between one and 500 words |
| ApplyDialog.Dialog.constructor | job-placement-platform/apps/frontend/components/jobs/ApplyDialog.tsx:30-31 | both fields start empty, nothing sent, open as given |
| ApplyDialog.Dialog.HandleApply | job-placement-platform/apps/frontend/components/jobs/ApplyDialog.tsx:38-50 | an invalid letter changes nothing; a valid one is sent as typed with the notes, and on success the dialog closes and both fields are cleared, while a failure keeps them |
| JobForm.InitialForm | apps/frontend/components/company-jobs/PostJobDialog.tsx:20-36 | every text of the empty form is empty and remote is off; the currency is USD in the older front end and NPR in the newer one |
| JobForm.TrimmedOrUndefined | apps/frontend/components/company-jobs/PostJobDialog.tsx:65 | an optional text is left out exactly when blank, otherwise sent trimmed and non-empty |
| JobForm.NumberIfGiven | apps/frontend/components/company-jobs/PostJobDialog.tsx:69-70 | a number field is sent exactly when something was typed |
| JobForm.Assemble | apps/frontend/components/company-jobs/PostJobDialog.tsx:63-84 | a form that passed the checks yields a clean payload: required texts trimmed and non-empty, optional texts trimmed or left out, the job active and not featured, with the skills and the deadline |
| JobForm.BuildPayload | apps/frontend/components/company-jobs/PostJobDialog.tsx:58-84 | title, job type and deadline are checked in that order with their messages, an invalid date fails the conversion; otherwise a clean payload with the trimmed title and type, the skills and the converted deadline |
| JobForm.PayloadFields | apps/frontend/components/company-jobs/PostJobDialog.tsx:63-84 | each optional text is sent trimmed or left out when blank, each number when typed, and the remote flag as set |
| JobForm.EmptyFormAsksForTitle | apps/frontend/components/company-jobs/PostJobDialog.tsx:20-59 | the empty form of either front end is refused for its title first |
| JobForm.PaddingIgnored | apps/frontend/components/company-jobs/PostJobDialog.tsx:59-67 | white space around the title or before the location does not change the result |
| JobForm.SkillToAdd | apps/frontend/components/company-jobs/PostJobDialog.tsx:121-129 | Enter adds the trimmed input exactly when it is not blank and not already listed |
| JobForm.OfferedSkillKeepsListWellFormed | apps/frontend/components/company-jobs/PostJobDialog.tsx:121-129 | adding the offered skill keeps every skill trimmed, non-empty and listed once |
| JobForm.Without | apps/frontend/components/company-jobs/PostJobDialog.tsx:131-133 | the value is gone, every other skill stays, in order |
| JobForm.WithoutKeepsListWellFormed | apps/frontend/components/company-jobs/PostJobDialog.tsx:131-133 | removing a skill keeps the list well formed |
| JobForm.PostJobDialog.constructor | apps/frontend/components/company-jobs/PostJobDialog.tsx:53-55 | the dialog starts with its front end's empty form, no skills, an empty input and nothing sent or shown |
| JobForm.PostJobDialog.SkillKeyDown | apps/frontend/components/company-jobs/PostJobDialog.tsx:121-129 | Enter with a new, non-blank input appends it trimmed and clears the input; any other key changes nothing; a well-formed list stays well formed |
| JobForm.PostJobDialog.AddSkill | job-placement-platform/apps/frontend/components/company-jobs/PostJobDialog.tsx:134-137 | appends the skill as given and clears the input |
| JobForm.PostJobDialog.RemoveSkill | apps/frontend/components/company-jobs/PostJobDialog.tsx:131-133 | the skills become the list without the value; a well-formed list stays well formed |
| JobForm.PostJobDialog.Reset | apps/frontend/components/company-jobs/PostJobDialog.tsx:100-107 | the form, skills and input are back to the initial state and the dialog is closed |
| JobForm.PostJobDialog.Submit | apps/frontend/components/company-jobs/PostJobDialog.tsx:57-109 | a failed check shows its message and changes nothing else; otherwise the payload is sent; a created job shows the success toast and resets and closes the dialog; a failed post (refused, `null` body, rejected fetch or unreadable body) toasts `FailureToast` of it and keeps the form |
| JobForm.PostJobDialog.Send | apps/frontend/components/company-jobs/PostJobDialog.tsx:86-108 | the payload is posted once; a created job shows the success toast, empties the form, the skills and the input and closes the dialog; any failure toasts `FailureToast` of the reply and leaves the form as it was |
| JobForm.RefusalToast | apps/frontend/components/company-jobs/PostJobDialog.tsx:95-97 | a truthy server message is toasted as its JavaScript string form, with no second fallback; a missing or falsy one gives "Failed to create job" |
| JobForm.FailureToast | apps/frontend/components/company-jobs/PostJobDialog.tsx:94-108 | `onError` toasts the thrown error's message: a rejected fetch's or unreadable body's own message, the `TypeError` of reading `message` of a `null` refusal body, otherwise the refusal text |
| JobForm.RefusalFallbacks | apps/frontend/components/company-jobs/PostJobDialog.tsx:94-108 | a refusal with no message or an empty one toasts "Failed to create job", while a `null` body toasts the `TypeError`, which differs from it |
| UserDetails.TextIfTruthy | apps/frontend/components/user-details/hooks/useSaveUserDetails.ts:17-22 | a text is sent exactly when it is truthy, and then unchanged |
| UserDetails.NumberIfTruthy | apps/frontend/components/user-details/hooks/useSaveUserDetails.ts:16-21 | a number field is handed on exactly when truthy, so 0 and "" are both left out |
| UserDetails.SkillsArray | apps/frontend/components/user-details/hooks/useSaveUserDetails.ts:11-13 | no skills text gives no skills; every entry read from it is trimmed, non-empty and free of commas |
| UserDetails.SaveRequest | apps/frontend/components/user-details/hooks/useSaveUserDetails.ts:10-24 | falsy texts and numbers are left out and truthy ones kept; the skill list is left out exactly when it has no entry and is otherwise the entries read from the text |
| UserDetails.JoinedSkills | job-placement-platform/apps/frontend/components/user-details/hooks/useMappedUserDetails.ts:13 | a missing or empty skill list shows as "" |
| UserDetails.Mapped | job-placement-platform/apps/frontend/components/user-details/hooks/useMappedUserDetails.ts:4-22 | no profile maps to null; otherwise every form field is filled, a missing value becoming "" and a present one kept, the skills joined with ", " |
| UserDetails.SkillsRoundTrip | job-placement-platform/apps/frontend/components/user-details/hooks/useMappedUserDetails.ts:13 | joining a skill list with ", " and reading it back as the save does gives the list back when every skill is trimmed, non-empty and comma-free |
| UserDetails.SaveOfMappedProfile | job-placement-platform/apps/frontend/components/user-details/hooks/useMappedUserDetails.ts:9-20 | saving a mapped profile straight away sends its truthy texts and numbers, drops its empty ones, and sends its skills exactly when it has any |
| UserDetails.ProfileData | apps/frontend/components/user-details/UserDetailsFlow.tsx:157-164 | the query's data is used unless the query failed for a reason other than "User details not found" |
| UserDetails.Transformed | apps/frontend/components/user-details/hooks/useResumeUpload.ts:78-88 | every field of the extracted data is present: a truthy value kept, anything else "" |
| UserDetails.SaveIgnoresDefaults | apps/frontend/components/user-details/hooks/useResumeUpload.ts:78-88 | the "" defaults filled in after extraction are dropped again by the save, so saving the extracted data sends what the reply held |
| UserDetails.TransformedIdempotent | apps/frontend/components/user-details/hooks/useResumeUpload.ts:78-88 | filling in the defaults twice is filling them in once |
| UserDetails.Processed | apps/frontend/components/user-details/hooks/useResumeUpload.ts:30-97 | the steps start with parsing and end at review exactly when data is stored, else at upload; data is stored exactly when both requests succeed and the reply is an object that is not a recognised "not a resume" reply, and it is the defaulted reply |
| UserDetails.NotResumeHandledOnlyWhenChecked | apps/frontend/components/user-details/hooks/useResumeUpload.ts:63-77 | a "not a resume" reply sends the hook and the flow back to upload, while the older page shows its fields for review |
| UserDetails.UploadFlow.constructor | apps/frontend/components/user-details/hooks/useResumeUpload.ts:12-13 | at the upload step with nothing chosen, sent, extracted or failed, and no toast or navigation yet |
| UserDetails.UploadFlow.ChooseFiles | apps/frontend/components/user-details/UserDetailsFlow.tsx:236-238 | the chosen files replace the list and nothing else changes |
| UserDetails.UploadFlow.UploadFile | apps/frontend/components/user-details/UserDetailsFlow.tsx:69-155 | the file is sent; a failed upload only marks the mutation failed; a stored one clears the chosen files, runs the parse and extraction steps, stores what they give and deletes the resume once and toasts "The uploaded file does not look like a resume. Please upload one." for a recognised "not a resume" reply; no navigation |
| UserDetails.UploadFlow.Process | apps/frontend/components/user-details/hooks/useResumeUpload.ts:30-97 | the steps set, the data stored and the deletions are exactly those of the processing outcome, and the review step always has data; the not-a-resume toast is shown exactly when the reply is recognised as not a resume |
| UserDetails.UploadFlow.SetStep | apps/frontend/components/user-details/hooks/useResumeUpload.ts:12 | the step becomes the one set and is appended to the trail; nothing else changes |
| UserDetails.UploadFlow.HandleUpload | apps/frontend/components/user-details/UserDetailsFlow.tsx:240-243 | nothing without a chosen file, otherwise the first chosen file is uploaded |
| UserDetails.UploadFlow.ResumePresent | apps/frontend/components/user-details/UserDetailsFlow.tsx:184-189 | with a resume on file, at the upload step and no upload running, the flow moves to review keeping data already extracted, else the mapped profile; otherwise nothing changes |
| UserDetails.UploadFlow.HandleSave | apps/frontend/components/user-details/UserDetailsFlow.tsx:245-248 | "saving", then the save payload is sent; a stored profile moves to "success", a failure stays at "saving" and marks the mutation failed; no toast or navigation |
| UserDetails.UploadFlow.Retry | apps/frontend/app/user-details/page.tsx:212-218 | both mutations reset and the step is back to "upload" |
| UserDetails.UploadFlow.ProfileQueryFailed | apps/frontend/components/user-details/UserDetailsFlow.tsx:61-66 | an "Invalid token" failure of the profile query toasts "Invalid token, please sign in again" and replaces the route with "/api/auth/signin"; any other failure does neither; the steps and data are untouched |
| UserDetails.UploadFlow.SuccessTimerFired | apps/frontend/components/user-details/UserDetailsFlow.tsx:227-234 | the two-second timer set at "success" pushes "/jobs" when it fires at that step and does nothing once the step has changed; nothing else changes |
| Dashboard.StatsOf | job-placement-platform/apps/frontend/components/dashboard/CandidateDashboardClient.tsx:29-34 | every application is in the total, and the pending, accepted and rejected counts together never exceed it |
| Dashboard.CountsWithinTotal | job-placement-platform/apps/frontend/components/dashboard/CandidateDashboardClient.tsx:29-34 | no application is counted under two of the three statuses, so their sum is at most the number of applications |
| Dashboard.AddApplication | job-placement-platform/apps/frontend/components/dashboard/CandidateDashboardClient.tsx:29-34 | one more application raises the total by one and exactly the count of its own status, if it has one of the three; one without a status changes no named count |
| Dashboard.CaseInsensitive | job-placement-platform/apps/frontend/components/dashboard/CandidateDashboardClient.tsx:31-33 | a status is counted under the same word whatever its letter case |
| Dashboard.Recent | job-placement-platform/apps/frontend/components/dashboard/CandidateDashboardClient.tsx:36 | the first five applications in the order given, or all of them when there are fewer |
| Dashboard.BadgeOf | job-placement-platform/apps/frontend/components/dashboard/CandidateDashboardClient.tsx:147-151 | green exactly for an accepted status, red exactly for a rejected one, yellow exactly for anything else, in any letter case |
| Dashboard.BadgesMatchCounts | job-placement-platform/apps/frontend/components/dashboard/CandidateDashboardClient.tsx:29-34 | the green badges are as many as the accepted count and the red ones as many as the rejected count |
| UserAdmin.PageUrl | job-placement-platform/apps/frontend/components/admin/UserAdminPageClient.tsx:50-56 | no navigation below page 1, otherwise a query naming the page and the limit |
| UserAdmin.PageUrlReadsBack | job-placement-platform/apps/frontend/components/admin/UserAdminPageClient.tsx:50-56 | the query splits into exactly two parameters that read back as the page and the limit it was built from |
| UserAdmin.Relabelled | job-placement-platform/apps/frontend/components/admin/UserAdminPageClient.tsx:79-88 | the list keeps its length and order; the rows with the user's id get the new role and every other row is unchanged |
| UserAdmin.RelabelledTwice | job-placement-platform/apps/frontend/components/admin/UserAdminPageClient.tsx:79-88 | changing the same user's role twice leaves only the second change |
| UserAdmin.DropdownValue | job-placement-platform/apps/frontend/components/admin/UserAdminPageClient.tsx:143-148 | the dropdown shows RECRUITER exactly for a RECRUITER role and CANDIDATE for every other or missing role |
| UserAdmin.UserAdminPage.constructor | job-placement-platform/apps/frontend/components/admin/UserAdminPageClient.tsx:45-46 | the list starts as the rows given, with no update in progress |
| UserAdmin.UserAdminPage.HandlePageChange | job-placement-platform/apps/frontend/components/admin/UserAdminPageClient.tsx:50-56 | a page below 1 navigates nowhere; any other page navigates to its query; the list and toasts are untouched |
| UserAdmin.UserAdminPage.HandleRoleChange | job-placement-platform/apps/frontend/components/admin/UserAdminPageClient.tsx:58-96 | a successful reply relabels only that user and toasts "User role updated"; a failed reply or a thrown fetch keeps the list and toasts `RoleErrorToast` of it; the updating id ends cleared and no navigation happens |
| UserAdmin.RoleErrorToast | job-placement-platform/apps/frontend/components/admin/UserAdminPageClient.tsx:76-92 | the error toast is never empty: a thrown error's own message when non-empty; for a refusal, a truthy `message` of any JSON type is toasted as its JavaScript string form (`new Error(m)` converts it) when that form is non-empty; a missing or falsy message, or one printing as nothing, gives "Failed to update user role"; a refusal whose body parses to `null` toasts the `TypeError` text of reading `message` from `null` |
| UserAdmin.EmptyArrayMessageFallsBack | job-placement-platform/apps/frontend/components/admin/UserAdminPageClient.tsx:76-92 | a reply whose message is an empty array toasts the fixed text |
| UserAdmin.NonStringMessagesPrinted | job-placement-platform/apps/frontend/components/admin/UserAdminPageClient.tsx:76-92 | a refusal whose message is the number 404, the array ["a","b"] or an object toasts "404", "a,b" and "[object Object]" |
| UserAdmin.DropdownShowsNewRole | job-placement-platform/apps/frontend/components/admin/UserAdminPageClient.tsx:79-88 | after a successful change to RECRUITER or CANDIDATE, that user's dropdown shows the new role and stays editable |
| QdrantSearch.Step | apps/qdrant-service/src/search/search.service.ts:17-26 | a null result or one without a payload changes nothing; otherwise only the title's entry may change, to this score; without the falsy-zero rule it never decreases |
| QdrantSearch.Search | apps/qdrant-service/src/search/search.service.ts:12-29 | the loop builds the fold of the results as written, whose keys are exactly the titles of the results kept |
| QdrantSearch.TableKeys | apps/qdrant-service/src/search/search.service.ts:17-26 | a title is a key of the table exactly when some kept result carries it |
| QdrantSearch.BestScoreIsMaximum | apps/qdrant-service/src/search/search.service.ts:17-26 | with a stored 0 treated as a score, every title maps to the largest score among its results, and that score is one of them |
| QdrantSearch.PositiveScoresGiveMaximum | apps/qdrant-service/src/search/search.service.ts:23-25 | when every kept score is positive, the code as written builds the per-title maximum table |
| QdrantSearch.ZeroScoreReplaced | apps/qdrant-service/src/search/search.service.ts:23-25 | as written, a stored score of 0 is replaced by a later lower score for the same title |
| Email.Subject | job-placement-platform/apps/backend/src/email/email.controller.ts:14-16 | congratulations for an approval, a neutral update for any other status, both naming the job |
| Email.ApplicationStatusMessage | job-placement-platform/apps/backend/src/email/email.controller.ts:12-22 | one message to the given address with the decision's subject; a non-empty custom message is the body, otherwise the decision's template |
| Email.SubjectNamesJob | job-placement-platform/apps/backend/src/email/email.controller.ts:14-16 | every subject contains the job title |
| Email.BodyNamesCandidateAndJob | job-placement-platform/apps/backend/src/email/email.controller.ts:18-20 | without a custom message the body contains the candidate's name and the job title |
| Email.CustomMessageKeepsSubject | job-placement-platform/apps/backend/src/email/email.controller.ts:14-22 | a custom message changes only the body, never the subject or the recipient |
| Email.DecisionsHaveDistinctSubjects | job-placement-platform/apps/backend/src/email/email.controller.ts:14-16 | an approval and any other decision never get the same subject |
| UserStore.Pick | apps/frontend/store/user.ts:38 | a key the argument has wins, even when its value is null; a missing key keeps the store's value |
| UserStore.Merge | apps/frontend/store/user.ts:38 | each of the five fields is the argument's when it has that key and the store's otherwise |
| UserStore.MergeNoKeys | apps/frontend/store/user.ts:38 | an argument with no keys changes nothing |
| UserStore.MergeIdempotent | apps/frontend/store/user.ts:38 | applying the same partial state twice is applying it once |
| UserStore.MergeAllKeys | apps/frontend/store/user.ts:38 | an argument with all five keys fixes the whole state, whatever it was |
| UserStore.Store.constructor | apps/frontend/store/user.ts:23-29 | all five fields start null |
| UserStore.Store.SetUserName | apps/frontend/store/user.ts:33 | only the user name changes, to the value given |
| UserStore.Store.SetEmail | apps/frontend/store/user.ts:34 | only the e-mail changes, to the value given |
| UserStore.Store.SetRole | apps/frontend/store/user.ts:35 | only the role changes, to the value given |
| UserStore.Store.SetToken | apps/frontend/store/user.ts:36 | only the token changes, to the value given |
| UserStore.Store.SetImage | apps/frontend/store/user.ts:37 | only the image changes, to the value given |
| UserStore.Store.SetAll | apps/frontend/store/user.ts:38 | the new state is the old one merged with the partial state |
| UserStore.Store.Reset | apps/frontend/store/user.ts:39 | back to the initial state, all five fields null |

## Left out

- Prisma, the LLM provider, Vapi, Stripe, Cloudinary, Qdrant and the embedding service are not modelled. What the code reads from them is an input value; what it writes is a returned value or a field of a class.
- An LLM reply is modelled once it has been parsed, as a JSON value. Malformed JSON is an error case of the input, not a parser.
- Cosine similarity and the embedding vectors are not interpreted. `searchJobs` sorts by a score supplied for each job, and only the ordering, filtering and stripping are proved.
- `searchJobs` in the vector-search service is a pass-through to Qdrant with limit 5. Only its constant is modelled.
- `Number(...)` on form text is not modelled. A numeric field keeps its text, together with whether it would be sent.
- `Date` parsing and `toISOString` are parameters. A deadline comparison takes the two instants as integers.
- The five-minute interview timer, Vapi's events and the microphone are modelled as method calls in the order they arrive. There are no clocks or concurrency.
- The ref used to call `endInterview` from the transcript handler is modelled as always set.
- Toasts, `alert` calls and router navigation are recorded as sequences of messages and URLs.
- The redirect timer after a successful job application is not modelled.
- The intermediate `updatingId` value while a role change is in flight is not modelled; only its final cleared value is.
- The profile refetches after an upload or a save in `UserDetailsFlow.tsx` are not modelled.
- `handleInputChange` in the user-details flow only copies form fields, so it is not modelled.
- The newer front end's `SkillsInput.tsx` is not part of this model. The older one is modelled, and so are both `PostJobDialog.tsx` files.
- PDF rendering of tailored resumes is seen only as the lines of text produced.
- The e-mail transport (`EmailService.sendEmail`) is not modelled. Only the message handed to it is.
- Response timestamps and request paths in the exception filters are not modelled, and neither is the text of their log lines. Whether an error is logged as fatal is modelled.
- `toLowerCase` maps only ASCII letters. `.length` counts characters, not UTF-16 code units. No lone surrogates arise because strings are sequences of characters.
- Object keys such as `__proto__` that behave specially in JavaScript are not modelled. Every string is an ordinary key of the score table.
- `formatTime` is modelled on whole milliseconds. Fractional milliseconds are not modelled.
- The salary server `fastapi_server/app.py` only wraps a trained model, so it has nothing to model.
- Admin.Window: a negative skip, which Prisma refuses with a validation error, is modelled as a refused request (`None`), without the error's text. A negative take counts from the end of the list in the order the query lists rows (table order where no order is given).
- Jobs.FindAll: the limit and offset are taken as non-negative numbers. A negative limit would count from the end as in `Admin.Window`; that case is not modelled for jobs.
- A JavaScript number is modelled as NaN, an infinity, or a real value together with its printed text (`String(n)`). The printing itself is not computed.
- ResumeRules.FormatExperienceLabelIdempotent: for a number it assumes only that a positive finite number prints starting with a digit, and with "0." when the first digit is zero, as `String(n)` does.
- ResumeRules.YearsPhraseKept: the same assumption about printed numbers.
- Reading a property of a response body that parses to `null` throws a `TypeError`. Its text is modelled by `NullRead` with V8's wording, the engine of Chrome and Node; other engines word it differently.
- ResumeLookup.GetResumeText: a PDF that cannot be fetched or parsed makes the parser throw. That failure is not modelled; the parsed text is an input.

## Findings

| source | as written | input that shows it | evidently intended | confidence | as-written member | corrected member |
|---|---|---|---|---|---|---|
| job-placement-platform/apps/backend/src/resume-tailoring/resume-tailoring.service.ts:197-205 | each contact item is `sanitizePlaceholder(resume.X \|\| details.x)`, so a placeholder in the resume is chosen before the profile value and then erased | resume LinkedIn "N/A", profile LinkedIn "linkedin.com/in/a" | fall back to the profile value when the resume's is a placeholder, as the address line does with `sanitize(a) \|\| sanitize(b)` | medium; not executed | ResumeTailoring.ContactSegmentAsWritten | ResumeTailoring.ContactSegment |
| apps/qdrant-service/src/search/search.service.ts:23-25 | `!payload[title]` treats a stored score of 0 as missing | scores 0.0 then -0.5 for title "A" give {"A": -0.5} | the largest score per title | low; not executed | QdrantSearch.ZeroScoreReplaced | QdrantSearch.BestScoreIsMaximum |
