/** The application-status e-mail: a subject and a body chosen by the
  * decision, a recruiter's own message in place of the body, and one
  * e-mail to the candidate. */
module Email {
  import opened Wrappers
  import opened JsStrings

  datatype Message = Message(to: string, subject: string, text: string)

  const Approved := "approved"

  /** The subject: congratulations for an approval, a neutral update for
    * any other status. */
  function Subject(status: string, jobTitle: string): (r: string)
    ensures status == Approved ==> r == "Congratulations! Your application for " + jobTitle + " has been approved"
    ensures status != Approved ==> r == "Update on your application for " + jobTitle
  {
    if status == Approved then "Congratulations! Your application for " + jobTitle + " has been approved"
    else "Update on your application for " + jobTitle
  }

  /** The default body for the decision: a greeting with the candidate's
    * name, then the decision's text around the job title. */
  function Template(status: string, candidateName: string, jobTitle: string): string {
    "Dear " + candidateName + BeforeTitle(status) + jobTitle + AfterTitle(status)
  }

  function BeforeTitle(status: string): string {
    if status == Approved then ",\n\nWe are pleased to inform you that your application for the position of "
    else ",\n\nThank you for your interest in the position of "
  }

  function AfterTitle(status: string): string {
    if status == Approved then
      " has been approved. Our team will contact you shortly with the next steps.\n\nBest regards,\nThe Recruitment Team"
    else
      ". After careful consideration, we regret to inform you that we will not be moving forward with your application at this time.\n\nWe appreciate the time you invested in the application process and wish you the best in your job search.\n\nBest regards,\nThe Recruitment Team"
  }

  /** `sendApplicationStatus`: the one message handed to the mail service,
    * addressed to `to`; a non-empty custom message is the body. */
  function ApplicationStatusMessage(to: string, candidateName: string, status: string, jobTitle: string,
                                    customMessage: Option<string>): (m: Message)
    ensures m.to == to
    ensures m.subject == Subject(status, jobTitle)
    ensures Truthy(customMessage) ==> m.text == customMessage.value
    ensures !Truthy(customMessage) ==> m.text == Template(status, candidateName, jobTitle)
  {
    Message(to, Subject(status, jobTitle),
            if Truthy(customMessage) then customMessage.value else Template(status, candidateName, jobTitle))
  }

  lemma ContainsSelf(s: string)
    ensures Contains(s, s)
  {
    ContainsAt(s, s, 0);
  }

  /** Every subject names the job. */
  lemma SubjectNamesJob(status: string, jobTitle: string)
    ensures Contains(Subject(status, jobTitle), jobTitle)
  {
    ContainsSelf(jobTitle);
    if status == Approved {
      ContainsInContext("Congratulations! Your application for ", jobTitle, " has been approved", jobTitle);
    } else {
      ContainsInContext("Update on your application for ", jobTitle, "", jobTitle);
      assert "Update on your application for " + jobTitle + "" == Subject(status, jobTitle);
    }
  }

  /** Without a custom message the body names the candidate and the job. */
  lemma BodyNamesCandidateAndJob(to: string, candidateName: string, status: string, jobTitle: string,
                                 customMessage: Option<string>)
    requires !Truthy(customMessage)
    ensures var m := ApplicationStatusMessage(to, candidateName, status, jobTitle, customMessage);
      Contains(m.text, candidateName) && Contains(m.text, jobTitle)
  {
    NamesBoth("Dear ", candidateName, BeforeTitle(status), jobTitle, AfterTitle(status));
  }

  /** Both inserted texts occur in a text built around them. */
  lemma NamesBoth(head: string, x: string, mid: string, y: string, tail: string)
    ensures Contains(head + x + mid + y + tail, x) && Contains(head + x + mid + y + tail, y)
  {
    ContainsSelf(x);
    ContainsSelf(y);
    assert head + x + mid + y + tail == head + x + (mid + y + tail);
    ContainsInContext(head, x, mid + y + tail, x);
    ContainsInContext(head + x + mid, y, tail, y);
  }

  /** A custom message replaces the body only: the subject and the
    * recipient are those of the same e-mail without it. */
  lemma CustomMessageKeepsSubject(to: string, candidateName: string, status: string, jobTitle: string,
                                  customMessage: Option<string>)
    ensures var a := ApplicationStatusMessage(to, candidateName, status, jobTitle, customMessage);
      var b := ApplicationStatusMessage(to, candidateName, status, jobTitle, None);
      a.subject == b.subject && a.to == b.to
  {
  }

  /** An approval and any other decision never share a subject. */
  lemma DecisionsHaveDistinctSubjects(status: string, jobTitle: string)
    requires status != Approved
    ensures Subject(Approved, jobTitle) != Subject(status, jobTitle)
  {
    assert Subject(Approved, jobTitle)[0] == 'C';
    assert Subject(status, jobTitle)[0] == 'U';
  }
}
