/** `getResumeText` in the user-details service: the text of a user's
  * uploaded resume, which both interview analyses read before asking the
  * model for scores. */
module ResumeLookup {
  import opened Wrappers
  import opened JsStrings
  import opened HttpErrors

  /** The lookup in the order it fails: the user row must exist, then the
    * user's details row (`resumeLink` is `None` when there is no row, and
    * otherwise holds the row's `resumeLink`), then a truthy link. `pdfText`
    * is what the PDF parser extracts from that link. */
  function GetResumeText(userExists: bool, resumeLink: Option<Option<string>>, pdfText: string)
    : (r: Result<string, HttpError>)
    ensures !userExists <==> r == Err(NotFound("User not found"))
    ensures userExists && resumeLink.None? <==> r == Err(NotFound("User details not found"))
    ensures userExists && resumeLink.Some? && !Truthy(resumeLink.value) <==> r == Err(NotFound("Resume link not found"))
    ensures r.Ok? <==> userExists && resumeLink.Some? && Truthy(resumeLink.value)
    ensures r.Ok? ==> r.value == pdfText
    ensures r.Err? ==> r.error.status == 404
  {
    if !userExists then Err(NotFound("User not found"))
    else if resumeLink.None? then Err(NotFound("User details not found"))
    else if !Truthy(resumeLink.value) then Err(NotFound("Resume link not found"))
    else Ok(pdfText)
  }

  /** `!resumeText` is false: the lookup succeeded with a non-empty text. */
  predicate ResumeTextFound(resume: Result<string, HttpError>) {
    resume.Ok? && resume.value != ""
  }
}
