/** When the voice interview should end: the interviewer's completion
  * signal and the candidate's request to stop. Both hooks that run an
  * interview use these predicates; the older hook carries identical inline
  * copies (same marker, phrase lists and length limit). */
module InterviewDetection {
  import opened JsStrings

  /** The literal the interviewer prompt emits when it has finished. */
  const CompletionMarker: string := "[INTERVIEW_COMPLETE]"

  /** Closing statements are brief: without the marker, a text of this many
    * characters or more is never taken as the end of the interview. */
  const MaxClosingLength: nat := 250

  const StrongIndicators: seq<string> := [
    "i've finished asking",
    "i have finished asking",
    "interview is now complete",
    "interview is complete",
    "that concludes our interview",
    "we've finished the interview",
    "we have finished the interview",
    "i've completed the interview",
    "i have completed the interview",
    "that's all the questions i have",
    "that is all the questions i have",
    "no further questions",
    "interview has concluded",
    "thank you for your time. i've finished",
    "thank you for your time. i have finished"
  ]

  const ThankYouPhrases: seq<string> := ["thank you for your time", "thank you for participating"]

  const CompletionWords: seq<string> := ["finished", "complete", "conclude"]

  const EndPhrases: seq<string> := [
    "end the interview",
    "end interview",
    "stop the interview",
    "stop interview",
    "finish the interview",
    "finish interview",
    "i want to end",
    "can we end",
    "can we stop",
    "i'd like to end",
    "i would like to end",
    "let's end",
    "lets end",
    "i'm done",
    "im done",
    "i am done",
    "that's all",
    "thats all",
    "i'm finished",
    "im finished",
    "i am finished"
  ]

  /** The phrase test applied to the lower-cased text, before the length limit. */
  predicate ClosingStatement(lower: string) {
    ContainsAny(lower, StrongIndicators)
    || (ContainsAny(lower, ThankYouPhrases) && ContainsAny(lower, CompletionWords))
  }

  /** `checkInterviewComplete`. */
  predicate CheckInterviewComplete(text: string) {
    Contains(text, CompletionMarker)
    || (ClosingStatement(ToLower(text)) && |text| < MaxClosingLength)
  }

  /** `checkCandidateWantsToEnd`. */
  predicate CheckCandidateWantsToEnd(text: string) {
    ContainsAny(ToLower(text), EndPhrases)
  }

  /** The marker ends the interview wherever it appears and however long the
    * text around it is. */
  lemma MarkerAlwaysCompletes(before: string, after: string)
    ensures CheckInterviewComplete(before + CompletionMarker + after)
  {
    ContainsAt(CompletionMarker, CompletionMarker, 0);
    ContainsInContext(before, CompletionMarker, after, CompletionMarker);
  }

  /** Without the marker, the verdict is exactly "a closing phrase and fewer
    * than 250 characters". */
  lemma WithoutMarker(text: string)
    requires !Contains(text, CompletionMarker)
    ensures CheckInterviewComplete(text) <==> ClosingStatement(ToLower(text)) && |text| < 250
  {
  }

  /** Without the marker, a text of 250 characters or more never completes. */
  lemma LongTextNeverCompletes(text: string)
    requires !Contains(text, CompletionMarker) && |text| >= 250
    ensures !CheckInterviewComplete(text)
  {
  }

  /** A strong indicator in a short text completes the interview. */
  lemma StrongIndicatorCompletes(text: string, k: nat)
    requires k < |StrongIndicators| && Contains(ToLower(text), StrongIndicators[k])
    requires |text| < 250
    ensures CheckInterviewComplete(text)
  {
  }

  /** A thank-you alone is not a closing statement: without a strong
    * indicator it completes only together with "finished", "complete" or
    * "conclude". */
  lemma ThankYouNeedsCompletionWord(text: string)
    requires !Contains(text, CompletionMarker)
    requires !ContainsAny(ToLower(text), StrongIndicators)
    ensures CheckInterviewComplete(text)
      <==> ContainsAny(ToLower(text), ThankYouPhrases)
           && ContainsAny(ToLower(text), CompletionWords)
           && |text| < 250
  {
    WithoutMarker(text);
  }

  /** A text in which no character is an upper-case I cannot hold the marker. */
  lemma {:induction false} NoMarkerWithoutCapitalI(s: string)
    requires forall i :: 0 <= i < |s| ==> s[i] != 'I'
    ensures !Contains(s, CompletionMarker)
    decreases |s|
  {
    if |s| > 0 {
      NoMarkerWithoutCapitalI(s[1..]);
    }
    if |s| >= 2 {
      assert s[1] != CompletionMarker[1];
    }
  }

  /** Lower-cased text never contains the (upper-case) marker. */
  lemma LowerHasNoMarker(text: string)
    ensures !Contains(ToLower(text), CompletionMarker)
  {
    NoMarkerWithoutCapitalI(ToLower(text));
  }

  /** Letter case never changes the verdict on marker-free text. */
  lemma CaseDoesNotMatter(text: string)
    requires !Contains(text, CompletionMarker)
    ensures CheckInterviewComplete(ToLower(text)) == CheckInterviewComplete(text)
  {
    LowerHasNoMarker(text);
    ToLowerIdempotent(text);
  }

  /** Once the candidate has asked to stop, any surrounding words keep the
    * request: the test has no length limit. */
  lemma WantsToEndInContext(before: string, text: string, after: string)
    requires CheckCandidateWantsToEnd(text)
    ensures CheckCandidateWantsToEnd(before + text + after)
  {
    ToLowerConcat(before + text, after);
    ToLowerConcat(before, text);
    ContainsAnyInContext(ToLower(before), ToLower(text), ToLower(after), EndPhrases);
  }
}
