/** The transcript state machine of the voice-interview hooks.
  *
  * Vapi delivers partial transcripts per speaker; the hook keeps the latest
  * text of each role in a buffer (a JavaScript `Map`, so insertion-ordered),
  * remembers which role spoke last (`lastCommittedRole`) and appends settled
  * messages to the conversation. The interview ends when the interviewer
  * signals completion, the candidate asks to stop, the call ends, the
  * interviewer calls the `endInterview` function, or the five-minute timer
  * runs out; `endInterview` is guarded by an in-progress flag.
  *
  * The three hooks (real interview in both front ends, mock interview) share
  * this machine and differ only in what `endInterview` does with a blank
  * history, captured by `HookVariant`. Pure transition functions on a
  * `Snapshot` specify each event; the class `TranscriptSession` holds the
  * mutable state and its methods are proved against them. */
module InterviewSession {
  import opened Wrappers
  import opened JsStrings
  import opened InterviewDetection

  /** `INTERVIEW_DURATION_MS`: five minutes. */
  const InterviewDurationMs: nat := 300000

  const InterviewSubmitFailed: string := "Failed to submit interview. Please try again."
  const MockSubmitFailed: string := "Failed to submit mock interview. Please try again."

  const FemaleVoiceId: string := "21m00Tcm4TlvDq8ikWAM"
  const MaleVoiceId: string := "W78pxv1enhu0qj6t6IaC"

  datatype Message = Message(role: string, text: string)

  /** One incoming Vapi transcript message; absent or non-string fields are `None`. */
  datatype TranscriptMessage = TranscriptMessage(
    role: Option<string>,
    messageType: string,
    transcript: Option<string>,
    text: Option<string>,
    content: Option<string>,
    message: Option<string>)

  /** Requests sent to the back end when the interview is submitted. */
  datatype Request = SaveConversation(history: string) | Analyze

  /** How the submission of a non-blank history turns out. */
  datatype Submission = Submitted | SaveFails | AnalyzeFails

  /** Which hook runs the machine. */
  datatype HookVariant =
    | PlatformInterview(applicationId: string) // no blank-history branch
    | Interview(applicationId: string)         // blank history goes to /applications
    | MockInterview(mockInterviewId: string)   // blank history goes to /jobs
  {
    predicate ChecksBlankHistory() { !this.PlatformInterview? }

    function BlankHistoryRoute(): string {
      if this.MockInterview? then "/jobs" else "/applications"
    }

    function AnalysisRoute(): string {
      match this
      case PlatformInterview(id) => "/interview/analysis/" + id
      case Interview(id) => "/interview/analysis/" + id
      case MockInterview(id) => "/mock/analysis/" + id
    }

    /** The `alert` shown when saving or analysing the interview fails. */
    function SubmitFailedAlert(): string {
      if this.MockInterview? then MockSubmitFailed else InterviewSubmitFailed
    }
  }

  /** `message.role || (message.type === 'user-transcript' ? 'user' : 'assistant')`. */
  function RoleOf(m: TranscriptMessage): (role: string)
    ensures role != ""
    ensures Truthy(m.role) ==> role == m.role.value
    ensures !Truthy(m.role) ==> (role == "user" <==> m.messageType == "user-transcript")
  {
    if Truthy(m.role) then m.role.value
    else if m.messageType == "user-transcript" then "user" else "assistant"
  }

  /** `message.transcript || message.text || message.content || message.message || ''`. */
  function TextOf(m: TranscriptMessage): (text: string)
    ensures text == "" || Some(text) in [m.transcript, m.text, m.content, m.message]
    ensures text == "" <==> !Truthy(m.transcript) && !Truthy(m.text) && !Truthy(m.content) && !Truthy(m.message)
  {
    if Truthy(m.transcript) then m.transcript.value
    else if Truthy(m.text) then m.text.value
    else if Truthy(m.content) then m.content.value
    else if Truthy(m.message) then m.message.value
    else ""
  }

  /** The voice chosen in `startCall`. */
  function VoiceFor(voicePreference: string): (voiceId: string)
    ensures voiceId == FemaleVoiceId <==> voicePreference == "female"
  {
    if voicePreference == "female" then FemaleVoiceId else MaleVoiceId
  }

  // ------------------------------------------------ conversation history

  function Speaker(role: string): string {
    if role == "user" then "Candidate" else "Interviewer"
  }

  function Line(m: Message): string {
    Speaker(m.role) + ": " + m.text
  }

  function Lines(conversation: seq<Message>): (lines: seq<string>)
    ensures |lines| == |conversation|
  {
    if |conversation| == 0 then [] else [Line(conversation[0])] + Lines(conversation[1..])
  }

  /** `formatConversationHistory`. */
  function FormatConversationHistory(conversation: seq<Message>): string {
    Join(Lines(conversation), "\n\n")
  }

  /** Each message is one "<Candidate|Interviewer>: <text>" line, in order. */
  lemma {:induction false} LinesAt(conversation: seq<Message>, i: nat)
    requires i < |conversation|
    ensures Lines(conversation)[i]
      == (if conversation[i].role == "user" then "Candidate: " else "Interviewer: ") + conversation[i].text
    decreases i
  {
    if i > 0 {
      LinesAt(conversation[1..], i - 1);
    }
  }

  lemma {:induction false} LinesAppend(conversation: seq<Message>, m: Message)
    ensures Lines(conversation + [m]) == Lines(conversation) + [Line(m)]
    decreases |conversation|
  {
    if |conversation| > 0 {
      assert (conversation + [m])[1..] == conversation[1..] + [m];
      LinesAppend(conversation[1..], m);
    }
  }

  /** Appending a message adds one blank-line-separated line at the end. */
  lemma FormatAppend(conversation: seq<Message>, m: Message)
    requires |conversation| > 0
    ensures FormatConversationHistory(conversation + [m])
      == FormatConversationHistory(conversation) + "\n\n" + Line(m)
  {
    LinesAppend(conversation, m);
    JoinAppend(Lines(conversation), Line(m), "\n\n");
  }

  /** The history is blank exactly when no message was recorded, because
    * every line starts with a speaker label. */
  lemma HistoryBlankIffEmpty(conversation: seq<Message>)
    ensures HasText(FormatConversationHistory(conversation)) <==> |conversation| > 0
  {
    var h := FormatConversationHistory(conversation);
    if |conversation| > 0 {
      var first := Line(conversation[0]);
      assert first[0] == 'C' || first[0] == 'I';
      assert h[0] == first[0];
      assert !IsBlank(h);
    }
  }

  // ------------------------------------------------------------ buffer

  /** `messagesByRole`: (role, text) pairs in insertion order. */
  type Buffer = seq<(string, string)>

  /** `map.get(role)`. */
  function Lookup(b: Buffer, role: string): (r: Option<string>)
    ensures r.Some? <==> exists i :: 0 <= i < |b| && b[i].0 == role
    ensures r.Some? ==> exists i :: 0 <= i < |b| && b[i] == (role, r.value)
  {
    if |b| == 0 then None
    else if b[0].0 == role then Some(b[0].1)
    else Lookup(b[1..], role)
  }

  /** `map.set(role, text)`: an existing key keeps its position. */
  function Store(b: Buffer, role: string, text: string): (r: Buffer)
    ensures Lookup(r, role) == Some(text)
    ensures forall other :: other != role ==> Lookup(r, other) == Lookup(b, other)
  {
    if |b| == 0 then [(role, text)]
    else if b[0].0 == role then [(role, text)] + b[1..]
    else [b[0]] + Store(b[1..], role, text)
  }

  /** `map.delete(role)`. */
  function Remove(b: Buffer, role: string): (r: Buffer)
    ensures Lookup(r, role) == None
    ensures forall other :: other != role ==> Lookup(r, other) == Lookup(b, other)
    ensures |r| <= |b|
  {
    if |b| == 0 then []
    else if b[0].0 == role then Remove(b[1..], role)
    else [b[0]] + Remove(b[1..], role)
  }

  /** The messages `finalizeMessages` appends: each non-blank buffered text,
    * trimmed, in buffer order. */
  function FlushAll(b: Buffer): (r: seq<Message>)
    ensures |r| <= |b|
  {
    if |b| == 0 then []
    else
      var last := b[|b| - 1];
      FlushAll(b[..|b| - 1]) + (if HasText(last.1) then [Message(last.0, Trim(last.1))] else [])
  }

  /** `finalizeMessages`' walk over the buffer in insertion order. */
  method Flush(entries: Buffer) returns (flushed: seq<Message>)
    ensures flushed == FlushAll(entries)
  {
    flushed := [];
    var i := 0;
    while i < |entries|
      invariant 0 <= i <= |entries|
      invariant flushed == FlushAll(entries[..i])
    {
      var entry := entries[i];
      FlushAllAppend(entries[..i], entry);
      assert entries[..i + 1] == entries[..i] + [entry];
      if HasText(entry.1) {
        flushed := flushed + [Message(entry.0, Trim(entry.1))];
      }
      i := i + 1;
    }
    assert entries[..i] == entries;
  }

  /** One more buffered entry adds at most its own message at the end. */
  lemma FlushAllAppend(b: Buffer, entry: (string, string))
    ensures FlushAll(b + [entry]) == FlushAll(b) + (if HasText(entry.1) then [Message(entry.0, Trim(entry.1))] else [])
  {
    assert (b + [entry])[..|b|] == b;
  }

  // ---------------------------------------------------------- the state

  datatype Snapshot = Snapshot(
    conversation: seq<Message>,
    buffer: Buffer,
    lastCommittedRole: Option<string>,
    isEnding: bool,
    connected: bool,
    connecting: bool,
    speaking: bool,
    timeRemaining: int,
    requests: seq<Request>,
    route: Option<string>,
    alerts: seq<string>)

  const Initial: Snapshot :=
    Snapshot([], [], None, false, false, false, false, InterviewDurationMs, [], None, [])

  /** What every append site writes: a named role and trimmed, non-empty text. */
  predicate WellFormed(m: Message) {
    m.role != "" && m.text != "" && IsTrimmed(m.text)
  }

  /** The invariant of the machine. The buffer never holds more than one
    * role, and that role is `lastCommittedRole`. */
  predicate Inv(s: Snapshot) {
    && (forall i :: 0 <= i < |s.conversation| ==> WellFormed(s.conversation[i]))
    && (s.lastCommittedRole.Some? ==> s.lastCommittedRole.value != "")
    && (|s.buffer| == 0
        || (|s.buffer| == 1 && s.lastCommittedRole == Some(s.buffer[0].0) && HasText(s.buffer[0].1)))
    && 0 <= s.timeRemaining <= InterviewDurationMs
  }

  /** `vapi.stop()` followed by the three state resets. */
  function Stopped(s: Snapshot): Snapshot {
    s.(connected := false, connecting := false, speaking := false)
  }

  /** `conversationRef.current.push(m)`. */
  function Appended(s: Snapshot, m: Message): Snapshot {
    s.(conversation := s.conversation + [m])
  }

  /** `finalizeMessages`. */
  function FinalizeSpec(s: Snapshot): Snapshot {
    s.(conversation := s.conversation + FlushAll(s.buffer), buffer := [], lastCommittedRole := None)
  }

  /** The state once `endInterview` has started: flag set, call stopped. */
  function Begin(s: Snapshot): Snapshot {
    s.(isEnding := true, connected := false, speaking := false)
  }

  /** Saving the history, then requesting the analysis; when one of the two
    * fails the variant's alert is shown and the flag is cleared again. */
  function SubmitSpec(e: Snapshot, history: string, v: HookVariant, outcome: Submission): Snapshot {
    match outcome
    case SaveFails =>
      e.(requests := e.requests + [SaveConversation(history)],
         alerts := e.alerts + [v.SubmitFailedAlert()], isEnding := false)
    case AnalyzeFails =>
      e.(requests := e.requests + [SaveConversation(history), Analyze],
         alerts := e.alerts + [v.SubmitFailedAlert()], isEnding := false)
    case Submitted => e.(requests := e.requests + [SaveConversation(history), Analyze], route := Some(v.AnalysisRoute()))
  }

  /** `endInterview`: ignored while a previous call is in progress. */
  function EndSpec(s: Snapshot, v: HookVariant, outcome: Submission): Snapshot {
    if s.isEnding then s
    else
      var history := FormatConversationHistory(s.conversation);
      if v.ChecksBlankHistory() && !HasText(history) then
        Begin(s).(route := Some(v.BlankHistoryRoute()))
      else
        SubmitSpec(Begin(s), history, v, outcome)
  }

  /** The interviewer's closing message as stored: markers removed, trimmed. */
  function Cleaned(text: string): string {
    Trim(RemoveAll(text, CompletionMarker))
  }

  /** The role-switch flush of `handleTranscript`. */
  function FlushPrevious(s: Snapshot, role: string): Snapshot {
    if s.lastCommittedRole.Some? && s.lastCommittedRole.value != role then
      var previous := s.lastCommittedRole.value;
      var prevText := Lookup(s.buffer, previous);
      if prevText.Some? && HasText(prevText.value) then
        Appended(s, Message(previous, Trim(prevText.value))).(buffer := Remove(s.buffer, previous))
      else s
    else s
  }

  /** The buffering path of `handleTranscript`: flush on a role switch, then
    * replace the role's text when it differs. */
  function BufferSpec(s: Snapshot, role: string, text: string): Snapshot {
    var f := FlushPrevious(s, role);
    var existing := Lookup(f.buffer, role).GetOr("");
    if |text| > |existing| || text != existing then
      f.(buffer := Store(f.buffer, role, text), lastCommittedRole := Some(role))
    else f
  }

  /** The interviewer-completion path of `handleTranscript`. The buffer was
    * just emptied, so the text kept is always the incoming one. */
  function InterviewerDoneSpec(s: Snapshot, text: string, v: HookVariant, outcome: Submission): Snapshot {
    var f := FinalizeSpec(s);
    var existing := Lookup(f.buffer, "assistant").GetOr("");
    var fullText := if |existing| > |text| then existing else text;
    var cleaned := Cleaned(fullText);
    var g := if cleaned != "" then Appended(f, Message("assistant", cleaned)) else f;
    EndSpec(Stopped(g), v, outcome)
  }

  /** The candidate-request path of `handleTranscript`. */
  function CandidateDoneSpec(s: Snapshot, text: string, v: HookVariant, outcome: Submission): Snapshot {
    var f := FinalizeSpec(s);
    var existing := Lookup(f.buffer, "user").GetOr("");
    var fullText := if |existing| > |text| then existing else text;
    var g := if HasText(fullText) then Appended(f, Message("user", Trim(fullText))) else f;
    EndSpec(Stopped(g), v, outcome)
  }

  /** `handleTranscript`. */
  function TranscriptSpec(s: Snapshot, m: TranscriptMessage, v: HookVariant, outcome: Submission): Snapshot {
    var role := RoleOf(m);
    var text := TextOf(m);
    if !HasText(text) then s
    else if role == "assistant" && CheckInterviewComplete(text) && !s.isEnding then
      InterviewerDoneSpec(s, text, v, outcome)
    else if role == "user" && CheckCandidateWantsToEnd(text) && !s.isEnding then
      CandidateDoneSpec(s, text, v, outcome)
    else
      BufferSpec(s, role, text)
  }

  /** The completion path of `commitMessageOnSpeechEnd`. */
  function CommitCompletionSpec(s: Snapshot, text: string, v: HookVariant, outcome: Submission): Snapshot {
    var cleaned := Cleaned(text);
    var g := if cleaned != "" then Appended(s, Message("assistant", cleaned)) else s;
    EndSpec(Stopped(g.(buffer := Remove(s.buffer, "assistant"), lastCommittedRole := None)), v, outcome)
  }

  /** The ordinary path of `commitMessageOnSpeechEnd`: append unless the same
    * entry was already committed, then forget the role's text. */
  function CommitEntrySpec(s: Snapshot, role: string, text: string): Snapshot {
    var entry := Message(role, Trim(text));
    var conversation := if entry in s.conversation then s.conversation else s.conversation + [entry];
    s.(conversation := conversation, buffer := Remove(s.buffer, role), lastCommittedRole := None)
  }

  /** `commitMessageOnSpeechEnd`. */
  function CommitSpec(s: Snapshot, v: HookVariant, outcome: Submission): Snapshot {
    if s.lastCommittedRole.None? then s
    else
      var role := s.lastCommittedRole.value;
      var text := Lookup(s.buffer, role);
      if text.None? || !HasText(text.value) then s
      else if role == "assistant" && CheckInterviewComplete(text.value) && !s.isEnding then
        CommitCompletionSpec(s, text.value, v, outcome)
      else
        CommitEntrySpec(s, role, text.value)
  }

  /** The `speech-end` event. */
  function SpeechEndSpec(s: Snapshot, v: HookVariant, outcome: Submission): Snapshot {
    CommitSpec(s.(speaking := false), v, outcome)
  }

  /** The `call-start` event. */
  function CallStartSpec(s: Snapshot): Snapshot {
    s.(connected := true, connecting := false, isEnding := false, timeRemaining := InterviewDurationMs,
       conversation := [], buffer := [], lastCommittedRole := None)
  }

  /** The `call-end` event, and also an `endInterview` function call: stop,
    * flush the buffer, end the interview. */
  function CallEndSpec(s: Snapshot, v: HookVariant, outcome: Submission): Snapshot {
    EndSpec(FinalizeSpec(Stopped(s)), v, outcome)
  }

  /** A Vapi function call: `function.name` and `name`, when present. */
  datatype FunctionCall = FunctionCall(functionName: Option<string>, name: Option<string>)

  predicate IsEndInterviewCall(c: FunctionCall) {
    c.functionName == Some("endInterview") || c.name == Some("endInterview")
  }

  /** `handleFunctionCall`. */
  function FunctionCallSpec(s: Snapshot, c: FunctionCall, v: HookVariant, outcome: Submission): Snapshot {
    if IsEndInterviewCall(c) then CallEndSpec(s, v, outcome) else s
  }

  /** `Math.max(0, INTERVIEW_DURATION_MS - elapsed)`. */
  function Remaining(elapsed: nat): int {
    if InterviewDurationMs - elapsed > 0 then InterviewDurationMs - elapsed else 0
  }

  /** One tick of the countdown; the interval runs only while connected. */
  function TickSpec(s: Snapshot, elapsed: nat, v: HookVariant, outcome: Submission): Snapshot {
    if !s.connected then s
    else
      var t := s.(timeRemaining := Remaining(elapsed));
      if t.timeRemaining == 0 then EndSpec(t, v, outcome) else t
  }

  // --------------------------------------------------- invariant lemmas

  lemma {:induction false} FlushAllWellFormed(b: Buffer)
    requires forall i :: 0 <= i < |b| ==> b[i].0 != ""
    ensures forall i :: 0 <= i < |FlushAll(b)| ==> WellFormed(FlushAll(b)[i])
    decreases |b|
  {
    if |b| > 0 {
      FlushAllWellFormed(b[..|b| - 1]);
    }
  }

  /** Appending a well-formed message keeps the conversation well formed. */
  lemma AppendKeepsWellFormed(c: seq<Message>, m: Message)
    requires forall i :: 0 <= i < |c| ==> WellFormed(c[i])
    requires WellFormed(m)
    ensures forall i :: 0 <= i < |c + [m]| ==> WellFormed((c + [m])[i])
  {
  }

  /** `endInterview` never touches the conversation or the buffer, and
    * never restarts a stopped call. */
  lemma EndKeepsTranscript(s: Snapshot, v: HookVariant, outcome: Submission)
    ensures var r := EndSpec(s, v, outcome);
      && r.conversation == s.conversation && r.buffer == s.buffer
      && r.lastCommittedRole == s.lastCommittedRole
      && (!s.connected ==> !r.connected) && (!s.speaking ==> !r.speaking)
  {
  }

  lemma EndKeepsInv(s: Snapshot, v: HookVariant, outcome: Submission)
    requires Inv(s)
    ensures Inv(EndSpec(s, v, outcome))
    ensures EndSpec(s, v, outcome).conversation == s.conversation
  {
    EndKeepsTranscript(s, v, outcome);
  }

  /** Flushing keeps the invariant, only appends, and empties the buffer. */
  lemma {:induction false} FinalizeKeepsInv(s: Snapshot)
    requires Inv(s)
    ensures Inv(FinalizeSpec(s))
    ensures FinalizeSpec(s).buffer == [] && s.conversation <= FinalizeSpec(s).conversation
  {
    FlushAllWellFormed(s.buffer);
    ConcatKeepsWellFormed(s.conversation, FlushAll(s.buffer));
  }

  lemma {:induction false} ConcatKeepsWellFormed(a: seq<Message>, b: seq<Message>)
    requires forall i :: 0 <= i < |a| ==> WellFormed(a[i])
    requires forall i :: 0 <= i < |b| ==> WellFormed(b[i])
    ensures forall i :: 0 <= i < |a + b| ==> WellFormed((a + b)[i])
  {
    forall i | 0 <= i < |a + b| ensures WellFormed((a + b)[i]) {
      if i >= |a| {
        assert (a + b)[i] == b[i - |a|];
      }
    }
  }

  lemma InterviewerDoneKeepsInv(s: Snapshot, text: string, v: HookVariant, outcome: Submission)
    requires Inv(s)
    ensures Inv(InterviewerDoneSpec(s, text, v, outcome))
    ensures s.conversation <= InterviewerDoneSpec(s, text, v, outcome).conversation
  {
    FinalizeKeepsInv(s);
    var f := FinalizeSpec(s);
    var cleaned := Cleaned(text);
    var g := if cleaned != "" then Appended(f, Message("assistant", cleaned)) else f;
    StoppedAppendKeepsInv(f, "assistant", cleaned);
    assert InterviewerDoneSpec(s, text, v, outcome) == EndSpec(Stopped(g), v, outcome);
    EndKeepsInv(Stopped(g), v, outcome);
  }

  /** Appending a trimmed, non-empty text, if there is one, then stopping
    * the call keeps the invariant and only appends. */
  lemma StoppedAppendKeepsInv(f: Snapshot, role: string, text: string)
    requires Inv(f) && role != "" && IsTrimmed(text)
    ensures var g := if text != "" then Appended(f, Message(role, text)) else f;
      Inv(Stopped(g)) && f.conversation <= g.conversation
  {
    if text != "" {
      AppendKeepsWellFormed(f.conversation, Message(role, text));
    }
  }

  lemma CandidateDoneKeepsInv(s: Snapshot, text: string, v: HookVariant, outcome: Submission)
    requires Inv(s)
    ensures Inv(CandidateDoneSpec(s, text, v, outcome))
    ensures s.conversation <= CandidateDoneSpec(s, text, v, outcome).conversation
  {
    FinalizeKeepsInv(s);
    var f := FinalizeSpec(s);
    var g := if HasText(text) then Appended(f, Message("user", Trim(text))) else f;
    if HasText(text) {
      AppendKeepsWellFormed(f.conversation, Message("user", Trim(text)));
    }
    EndKeepsInv(Stopped(g), v, outcome);
  }

  lemma BufferKeepsInv(s: Snapshot, role: string, text: string)
    requires Inv(s) && role != "" && HasText(text)
    ensures Inv(BufferSpec(s, role, text))
    ensures s.conversation <= BufferSpec(s, role, text).conversation
  {
    var f := FlushPrevious(s, role);
    FlushPreviousKeepsInv(s, role);
    assert |f.buffer| == 0 || f.lastCommittedRole == Some(role);
  }

  /** The role-switch flush keeps the invariant and only appends; after it
    * the buffer is empty or holds the incoming role. */
  lemma FlushPreviousKeepsInv(s: Snapshot, role: string)
    requires Inv(s)
    ensures Inv(FlushPrevious(s, role))
    ensures s.conversation <= FlushPrevious(s, role).conversation
    ensures |FlushPrevious(s, role).buffer| == 0 || FlushPrevious(s, role).lastCommittedRole == Some(role)
  {
    if s.lastCommittedRole.Some? && s.lastCommittedRole.value != role {
      var previous := s.lastCommittedRole.value;
      var prevText := Lookup(s.buffer, previous);
      if prevText.Some? && HasText(prevText.value) {
        AppendKeepsWellFormed(s.conversation, Message(previous, Trim(prevText.value)));
      }
    }
  }

  /** Every transcript keeps the invariant and only appends to the
    * conversation: each entry ever appended has a role and trimmed,
    * non-empty text. */
  lemma TranscriptKeepsInv(s: Snapshot, m: TranscriptMessage, v: HookVariant, outcome: Submission)
    requires Inv(s)
    ensures Inv(TranscriptSpec(s, m, v, outcome))
    ensures s.conversation <= TranscriptSpec(s, m, v, outcome).conversation
  {
    var role := RoleOf(m);
    var text := TextOf(m);
    if !HasText(text) {
    } else if role == "assistant" && CheckInterviewComplete(text) && !s.isEnding {
      InterviewerDoneKeepsInv(s, text, v, outcome);
    } else if role == "user" && CheckCandidateWantsToEnd(text) && !s.isEnding {
      CandidateDoneKeepsInv(s, text, v, outcome);
    } else {
      BufferKeepsInv(s, role, text);
    }
  }

  lemma CommitCompletionKeepsInv(s: Snapshot, text: string, v: HookVariant, outcome: Submission)
    requires Inv(s) && s.lastCommittedRole == Some("assistant")
    ensures Inv(CommitCompletionSpec(s, text, v, outcome))
    ensures s.conversation <= CommitCompletionSpec(s, text, v, outcome).conversation
  {
    var cleaned := Cleaned(text);
    var g := if cleaned != "" then Appended(s, Message("assistant", cleaned)) else s;
    if cleaned != "" {
      AppendKeepsWellFormed(s.conversation, Message("assistant", cleaned));
    }
    var h := Stopped(g.(buffer := Remove(s.buffer, "assistant"), lastCommittedRole := None));
    assert Inv(h);
    EndKeepsInv(h, v, outcome);
  }

  lemma CommitEntryKeepsInv(s: Snapshot, role: string, text: string)
    requires Inv(s) && s.lastCommittedRole == Some(role) && HasText(text)
    ensures Inv(CommitEntrySpec(s, role, text))
    ensures s.conversation <= CommitEntrySpec(s, role, text).conversation
  {
    AppendKeepsWellFormed(s.conversation, Message(role, Trim(text)));
  }

  /** Speech end keeps the invariant and only appends. */
  lemma SpeechEndKeepsInv(s: Snapshot, v: HookVariant, outcome: Submission)
    requires Inv(s)
    ensures Inv(SpeechEndSpec(s, v, outcome))
    ensures s.conversation <= SpeechEndSpec(s, v, outcome).conversation
  {
    var s0 := s.(speaking := false);
    if s0.lastCommittedRole.Some? {
      var role := s0.lastCommittedRole.value;
      var text := Lookup(s0.buffer, role);
      if text.Some? && HasText(text.value) {
        if role == "assistant" && CheckInterviewComplete(text.value) && !s0.isEnding {
          CommitCompletionKeepsInv(s0, text.value, v, outcome);
        } else {
          CommitEntryKeepsInv(s0, role, text.value);
        }
      }
    }
  }

  /** Call end keeps the invariant and only appends. */
  lemma CallEndKeepsInv(s: Snapshot, v: HookVariant, outcome: Submission)
    requires Inv(s)
    ensures Inv(CallEndSpec(s, v, outcome))
    ensures s.conversation <= CallEndSpec(s, v, outcome).conversation
  {
    FinalizeKeepsInv(Stopped(s));
    EndKeepsInv(FinalizeSpec(Stopped(s)), v, outcome);
  }

  /** A tick keeps the invariant and leaves the conversation alone. */
  lemma TickKeepsInv(s: Snapshot, elapsed: nat, v: HookVariant, outcome: Submission)
    requires Inv(s)
    ensures Inv(TickSpec(s, elapsed, v, outcome))
    ensures TickSpec(s, elapsed, v, outcome).conversation == s.conversation
  {
    if s.connected {
      EndKeepsInv(s.(timeRemaining := Remaining(elapsed)), v, outcome);
    }
  }

  // ---------------------------------------------------- behaviour lemmas

  /** A blank transcript changes nothing. */
  lemma BlankTranscriptIgnored(s: Snapshot, m: TranscriptMessage, v: HookVariant, outcome: Submission)
    requires !HasText(TextOf(m))
    ensures TranscriptSpec(s, m, v, outcome) == s
  {
  }

  /** On a role switch, the previous role's buffered text is appended
    * (trimmed) and its buffer entry removed before the new text is buffered
    * under the new role, which becomes `lastCommittedRole`. */
  lemma RoleSwitchFlushes(s: Snapshot, m: TranscriptMessage, v: HookVariant, outcome: Submission)
    requires Inv(s)
    requires HasText(TextOf(m))
    requires !(RoleOf(m) == "assistant" && CheckInterviewComplete(TextOf(m)) && !s.isEnding)
    requires !(RoleOf(m) == "user" && CheckCandidateWantsToEnd(TextOf(m)) && !s.isEnding)
    requires s.lastCommittedRole.Some? && s.lastCommittedRole.value != RoleOf(m)
    requires Lookup(s.buffer, s.lastCommittedRole.value).Some?
    ensures var r := TranscriptSpec(s, m, v, outcome);
      var previous := s.lastCommittedRole.value;
      && r.conversation == s.conversation + [Message(previous, Trim(Lookup(s.buffer, previous).value))]
      && Lookup(r.buffer, previous) == None
      && Lookup(r.buffer, RoleOf(m)) == Some(TextOf(m))
      && r.lastCommittedRole == Some(RoleOf(m))
  {
    var previous := s.lastCommittedRole.value;
    assert s.buffer[0].0 == previous;
    var f := FlushPrevious(s, RoleOf(m));
    assert f.buffer == [];
  }

  /** Without a role switch, a role's buffered text is replaced exactly when
    * the new text differs from it, and then the role becomes
    * `lastCommittedRole`; nothing is appended. */
  lemma ReplaceIffDifferent(s: Snapshot, m: TranscriptMessage, v: HookVariant, outcome: Submission)
    requires HasText(TextOf(m))
    requires !(RoleOf(m) == "assistant" && CheckInterviewComplete(TextOf(m)) && !s.isEnding)
    requires !(RoleOf(m) == "user" && CheckCandidateWantsToEnd(TextOf(m)) && !s.isEnding)
    requires s.lastCommittedRole.None? || s.lastCommittedRole.value == RoleOf(m)
    ensures var r := TranscriptSpec(s, m, v, outcome);
      var existing := Lookup(s.buffer, RoleOf(m)).GetOr("");
      && r.conversation == s.conversation
      && (TextOf(m) != existing ==>
            Lookup(r.buffer, RoleOf(m)) == Some(TextOf(m)) && r.lastCommittedRole == Some(RoleOf(m)))
      && (TextOf(m) == existing ==> r == s)
  {
  }

  /** The interviewer's completion message is appended after the flushed
    * buffer, with every marker removed and trimmed, only when something is
    * left; the buffer is emptied and the call stopped. */
  lemma InterviewerDoneAppendsCleaned(s: Snapshot, text: string, v: HookVariant, outcome: Submission)
    ensures var r := InterviewerDoneSpec(s, text, v, outcome);
      var flushed := s.conversation + FlushAll(s.buffer);
      var cleaned := Cleaned(text);
      && r.conversation == (if cleaned != "" then flushed + [Message("assistant", cleaned)] else flushed)
      && r.buffer == [] && r.lastCommittedRole == None
      && !r.connected && !r.speaking
  {
    var f := FinalizeSpec(s);
    var cleaned := Cleaned(text);
    var g := if cleaned != "" then Appended(f, Message("assistant", cleaned)) else f;
    EndKeepsTranscript(Stopped(g), v, outcome);
  }

  /** The same, seen from `handleTranscript`: an interviewer transcript that
    * signals completion takes this path whenever no ending is in progress. */
  lemma CompletionAppendsCleaned(s: Snapshot, m: TranscriptMessage, v: HookVariant, outcome: Submission)
    requires HasText(TextOf(m)) && RoleOf(m) == "assistant"
    requires CheckInterviewComplete(TextOf(m)) && !s.isEnding
    ensures TranscriptSpec(s, m, v, outcome) == InterviewerDoneSpec(s, TextOf(m), v, outcome)
  {
  }

  /** A candidate's request to stop is appended, trimmed, after the flushed
    * buffer; the buffer is emptied and the call stopped. */
  lemma CandidateEndAppendsRequest(s: Snapshot, m: TranscriptMessage, v: HookVariant, outcome: Submission)
    requires HasText(TextOf(m)) && RoleOf(m) == "user"
    requires CheckCandidateWantsToEnd(TextOf(m)) && !s.isEnding
    ensures var r := TranscriptSpec(s, m, v, outcome);
      && r.conversation == s.conversation + FlushAll(s.buffer) + [Message("user", Trim(TextOf(m)))]
      && r.buffer == [] && r.lastCommittedRole == None
      && !r.connected && !r.speaking
  {
    var text := TextOf(m);
    assert TranscriptSpec(s, m, v, outcome) == CandidateDoneSpec(s, text, v, outcome);
    var g := Appended(FinalizeSpec(s), Message("user", Trim(text)));
    EndKeepsTranscript(Stopped(g), v, outcome);
  }

  /** Outside the completion case, speech end appends the buffered text only
    * if the same (role, trimmed text) is not already in the conversation,
    * and always clears the entry and `lastCommittedRole`. */
  lemma SpeechEndNeverDuplicates(s: Snapshot, v: HookVariant, outcome: Submission)
    requires Inv(s)
    requires s.lastCommittedRole.Some? && Lookup(s.buffer, s.lastCommittedRole.value).Some?
    requires var role := s.lastCommittedRole.value;
      !(role == "assistant" && CheckInterviewComplete(Lookup(s.buffer, role).value) && !s.isEnding)
    ensures var r := SpeechEndSpec(s, v, outcome);
      var role := s.lastCommittedRole.value;
      var entry := Message(role, Trim(Lookup(s.buffer, role).value));
      && (entry in s.conversation ==> r.conversation == s.conversation)
      && (entry !in s.conversation ==> r.conversation == s.conversation + [entry])
      && r.buffer == [] && r.lastCommittedRole == None && !r.speaking
  {
    assert s.buffer[0].0 == s.lastCommittedRole.value;
  }

  /** A second `endInterview` while one is in progress does nothing. */
  lemma EndWhileEndingIgnored(s: Snapshot, v: HookVariant, outcome: Submission)
    requires s.isEnding
    ensures EndSpec(s, v, outcome) == s
  {
  }

  /** What `endInterview` does when not already ending: with a blank history
    * the two guarded hooks only navigate (to /applications or /jobs);
    * otherwise the history is saved, then analysed, and the analysis page is
    * opened only when both succeed; the in-progress flag stays set unless
    * submission fails. */
  lemma EndOutcome(s: Snapshot, v: HookVariant, outcome: Submission)
    requires !s.isEnding
    ensures var r := EndSpec(s, v, outcome);
      var history := FormatConversationHistory(s.conversation);
      && !r.connected && !r.speaking && r.conversation == s.conversation
      && (v.ChecksBlankHistory() && |s.conversation| == 0 ==>
            r.requests == s.requests && r.route == Some(v.BlankHistoryRoute()) && r.isEnding
            && r.alerts == s.alerts)
      && (!v.ChecksBlankHistory() || |s.conversation| > 0 ==>
            && r.requests[..|s.requests|] == s.requests
            && |r.requests| > |s.requests| && r.requests[|s.requests|] == SaveConversation(history)
            && (r.isEnding <==> outcome == Submitted)
            && r.route == (if outcome == Submitted then Some(v.AnalysisRoute()) else s.route)
            && (outcome != SaveFails <==> |r.requests| == |s.requests| + 2)
            && r.alerts == (if outcome == Submitted then s.alerts else s.alerts + [v.SubmitFailedAlert()]))
  {
    HistoryBlankIffEmpty(s.conversation);
  }

  /** The countdown shows max(0, 300000 - elapsed), and the interview ends
    * exactly when it reaches 0. */
  lemma CountdownClamped(s: Snapshot, elapsed: nat, v: HookVariant, outcome: Submission)
    requires s.connected && !s.isEnding
    ensures var r := TickSpec(s, elapsed, v, outcome);
      && Remaining(elapsed) == (if elapsed >= InterviewDurationMs then 0 else InterviewDurationMs - elapsed)
      && (elapsed < InterviewDurationMs ==> r == s.(timeRemaining := InterviewDurationMs - elapsed))
      && (elapsed >= InterviewDurationMs ==> r == EndSpec(s.(timeRemaining := 0), v, outcome))
  {
  }

  // ------------------------------------------------------------- class

  class TranscriptSession {
    const variant: HookVariant
    var conversation: seq<Message>
    var buffer: Buffer
    var lastCommittedRole: Option<string>
    var isEnding: bool
    var connected: bool
    var connecting: bool
    var speaking: bool
    var timeRemaining: int
    var requests: seq<Request>
    var route: Option<string>
    /** The `alert` messages shown, oldest first. */
    var alerts: seq<string>

    function State(): Snapshot
      reads this
    {
      Snapshot(conversation, buffer, lastCommittedRole, isEnding, connected, connecting,
               speaking, timeRemaining, requests, route, alerts)
    }

    predicate Valid()
      reads this
    {
      Inv(State())
    }

    constructor (v: HookVariant)
      ensures variant == v && State() == Initial && Valid()
    {
      variant := v;
      conversation := [];
      buffer := [];
      lastCommittedRole := None;
      isEnding := false;
      connected := false;
      connecting := false;
      speaking := false;
      timeRemaining := InterviewDurationMs;
      requests := [];
      route := None;
      alerts := [];
    }

    /** `conversationRef.current.push(m)`. */
    method Record(m: Message)
      requires Valid() && WellFormed(m)
      modifies this
      ensures State() == Appended(old(State()), m)
      ensures Valid()
    {
      AppendKeepsWellFormed(conversation, m);
      conversation := conversation + [m];
    }

    method Stop()
      requires Valid()
      modifies this
      ensures State() == Stopped(old(State()))
      ensures Valid()
    {
      connected := false;
      connecting := false;
      speaking := false;
    }

    /** `finalizeMessages`: flush the buffer, then empty it and clear the
      * last committed role. */
    method Finalize()
      requires Valid()
      modifies this
      ensures State() == FinalizeSpec(old(State()))
      ensures Valid()
    {
      FinalizeKeepsInv(State());
      var flushed := Flush(buffer);
      conversation, buffer, lastCommittedRole := conversation + flushed, [], None;
    }

    /** The submission half of `endInterview`: save, then analyse, then
      * navigate; a failure shows the alert and clears the in-progress
      * flag. */
    method Submit(history: string, outcome: Submission)
      requires Valid()
      modifies this
      ensures State() == SubmitSpec(old(State()), history, variant, outcome)
      ensures Valid()
    {
      requests := requests + [SaveConversation(history)];
      if outcome == SaveFails {
        alerts := alerts + [variant.SubmitFailedAlert()];
        isEnding := false;
        return;
      }
      requests := requests + [Analyze];
      if outcome == AnalyzeFails {
        alerts := alerts + [variant.SubmitFailedAlert()];
        isEnding := false;
        return;
      }
      route := Some(variant.AnalysisRoute());
    }

    method EndInterview(outcome: Submission)
      requires Valid()
      modifies this
      ensures State() == EndSpec(old(State()), variant, outcome)
      ensures Valid()
    {
      if isEnding {
        return;
      }
      isEnding := true;
      connected := false;
      speaking := false;
      var history := FormatConversationHistory(conversation);
      if variant.ChecksBlankHistory() && !HasText(history) {
        route := Some(variant.BlankHistoryRoute());
        return;
      }
      Submit(history, outcome);
    }

    method InterviewerDone(text: string, outcome: Submission)
      requires Valid()
      modifies this
      ensures State() == InterviewerDoneSpec(old(State()), text, variant, outcome)
      ensures Valid()
    {
      Finalize();
      var existing := Lookup(buffer, "assistant").GetOr("");
      var fullText := if |existing| > |text| then existing else text;
      var cleaned := Cleaned(fullText);
      if cleaned != "" {
        Record(Message("assistant", cleaned));
      }
      Stop();
      EndInterview(outcome);
    }

    method CandidateDone(text: string, outcome: Submission)
      requires Valid()
      modifies this
      ensures State() == CandidateDoneSpec(old(State()), text, variant, outcome)
      ensures Valid()
    {
      Finalize();
      var existing := Lookup(buffer, "user").GetOr("");
      var fullText := if |existing| > |text| then existing else text;
      if HasText(fullText) {
        Record(Message("user", Trim(fullText)));
      }
      Stop();
      EndInterview(outcome);
    }

    /** The role-switch flush of `handleTranscript`. */
    method FlushPreviousRole(role: string)
      requires Valid()
      modifies this
      ensures State() == FlushPrevious(old(State()), role)
      ensures Valid()
    {
      if lastCommittedRole.Some? && lastCommittedRole.value != role {
        var previous := lastCommittedRole.value;
        var prevText := Lookup(buffer, previous);
        if prevText.Some? && HasText(prevText.value) {
          Record(Message(previous, Trim(prevText.value)));
          buffer := Remove(buffer, previous);
        }
      }
    }

    method BufferTranscript(role: string, text: string)
      requires Valid() && role != "" && HasText(text)
      modifies this
      ensures State() == BufferSpec(old(State()), role, text)
      ensures Valid()
    {
      BufferKeepsInv(State(), role, text);
      FlushPreviousRole(role);
      var existing := Lookup(buffer, role).GetOr("");
      if |text| > |existing| || text != existing {
        buffer := Store(buffer, role, text);
        lastCommittedRole := Some(role);
      }
    }

    /** `handleTranscript`. */
    method OnTranscript(m: TranscriptMessage, outcome: Submission)
      requires Valid()
      modifies this
      ensures State() == TranscriptSpec(old(State()), m, variant, outcome)
      ensures Valid()
    {
      var role := RoleOf(m);
      var text := TextOf(m);
      if !HasText(text) {
        return;
      }
      if role == "assistant" && CheckInterviewComplete(text) && !isEnding {
        InterviewerDone(text, outcome);
      } else if role == "user" && CheckCandidateWantsToEnd(text) && !isEnding {
        CandidateDone(text, outcome);
      } else {
        BufferTranscript(role, text);
      }
    }

    /** Drop the buffered text of `lastCommittedRole` and the role itself. */
    method Forget()
      requires Valid() && lastCommittedRole.Some?
      modifies this
      ensures State() == old(State()).(buffer := Remove(old(buffer), old(lastCommittedRole).value), lastCommittedRole := None)
      ensures buffer == []
      ensures Valid()
    {
      buffer := Remove(buffer, lastCommittedRole.value);
      lastCommittedRole := None;
    }

    method CommitCompletion(text: string, outcome: Submission)
      requires Valid() && lastCommittedRole == Some("assistant")
      modifies this
      ensures State() == CommitCompletionSpec(old(State()), text, variant, outcome)
      ensures Valid()
    {
      var cleaned := Cleaned(text);
      if cleaned != "" {
        Record(Message("assistant", cleaned));
      }
      Forget();
      Stop();
      EndInterview(outcome);
    }

    method CommitEntry(role: string, text: string)
      requires Valid() && lastCommittedRole == Some(role) && HasText(text)
      modifies this
      ensures State() == CommitEntrySpec(old(State()), role, text)
      ensures Valid()
    {
      CommitEntryKeepsInv(State(), role, text);
      var entry := Message(role, Trim(text));
      if entry !in conversation {
        conversation := conversation + [entry];
      }
      buffer := Remove(buffer, role);
      lastCommittedRole := None;
    }

    /** The `speech-end` event: `commitMessageOnSpeechEnd`. */
    method OnSpeechEnd(outcome: Submission)
      requires Valid()
      modifies this
      ensures State() == SpeechEndSpec(old(State()), variant, outcome)
      ensures Valid()
    {
      speaking := false;
      if lastCommittedRole.None? {
        return;
      }
      var role := lastCommittedRole.value;
      var text := Lookup(buffer, role);
      if text.None? || !HasText(text.value) {
        return;
      }
      if role == "assistant" && CheckInterviewComplete(text.value) && !isEnding {
        CommitCompletion(text.value, outcome);
      } else {
        CommitEntry(role, text.value);
      }
    }

    /** The `speech-start` event. */
    method OnSpeechStart()
      requires Valid()
      modifies this
      ensures State() == old(State()).(speaking := true)
      ensures Valid()
    {
      speaking := true;
    }

    /** The `call-start` event. */
    method OnCallStart()
      requires Valid()
      modifies this
      ensures State() == CallStartSpec(old(State()))
      ensures Valid()
    {
      connected := true;
      connecting := false;
      isEnding := false;
      timeRemaining := InterviewDurationMs;
      conversation := [];
      buffer := [];
      lastCommittedRole := None;
    }

    /** The `call-end` event. */
    method OnCallEnd(outcome: Submission)
      requires Valid()
      modifies this
      ensures State() == CallEndSpec(old(State()), variant, outcome)
      ensures Valid()
    {
      Stop();
      Finalize();
      EndInterview(outcome);
    }

    /** `handleFunctionCall`. */
    method OnFunctionCall(c: FunctionCall, outcome: Submission)
      requires Valid()
      modifies this
      ensures State() == FunctionCallSpec(old(State()), c, variant, outcome)
      ensures Valid()
    {
      if IsEndInterviewCall(c) {
        Stop();
        Finalize();
        EndInterview(outcome);
      }
    }

    /** One tick of the one-second interval, `elapsed` milliseconds after call start. */
    method OnTick(elapsed: nat, outcome: Submission)
      requires Valid()
      modifies this
      ensures State() == TickSpec(old(State()), elapsed, variant, outcome)
      ensures Valid()
    {
      if !connected {
        return;
      }
      timeRemaining := Remaining(elapsed);
      if timeRemaining == 0 {
        EndInterview(outcome);
      }
    }

    /** `startCall`: only with an assistant id. The platform hook also asks
      * for the voice matching the preference; the result is that voice. */
    method StartCall(assistantId: string, voicePreference: string) returns (voiceId: Option<string>)
      requires Valid()
      modifies this
      ensures assistantId != "" ==> State() == old(State()).(connecting := true)
      ensures assistantId != "" && variant.PlatformInterview? ==> voiceId == Some(VoiceFor(voicePreference))
      ensures assistantId == "" || !variant.PlatformInterview? ==> voiceId == None
      ensures assistantId == "" ==> State() == old(State())
      ensures Valid()
    {
      voiceId := None;
      if assistantId != "" {
        connecting := true;
        if variant.PlatformInterview? {
          voiceId := Some(VoiceFor(voicePreference));
        }
      }
    }

    /** The `error` event. */
    method OnError()
      requires Valid()
      modifies this
      ensures State() == old(State()).(connecting := false)
      ensures Valid()
    {
      connecting := false;
    }
  }
}
