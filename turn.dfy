/**
  The turn controller's decisions: what happens when the assistant's audio
  ends, when a reply to a recording arrives, when the greeting arrives and
  when the user asks for a callback; and the conversation state the widget
  keeps in globals (the message log, the status line, the last user
  utterance and the visibility of the closing controls).
 */
module Turn {
  import opened Wrappers
  import opened Text
  import opened IssueTagger
  import opened Closure

  const CallbackPhrase: string := "provide a preferred date and time"
  const EndMarker: string := "END OF CONVERSATION"
  const FarewellMessage: string :=
    "You're welcome! We'll be in touch soon. Have a great day! END OF CONVERSATION"
  const CompleteStatus: string := "\U{2705} Conversation complete. You can reset or request a callback."
  const SpeakingStatus: string := "\U{1F50A} Speaking..."
  const ErrorMessage: string := "\U{26A0}\U{FE0F} Something went wrong or you're offline."
  const ErrorStatus: string := "Offline or error"
  const ResetStatus: string := "Reset. Ready to begin."
  const ListeningStatus: string := "\U{1F3A4} Listening..."
  const CallbackSeparator: string := " | Requested callback: "
  const DefaultAlert: string := "Callback submitted!"

  /** JavaScript truthiness of a string that may be absent: present and non-empty. */
  predicate Truthy(s: Option<string>) {
    s.Some? && s.value != ""
  }

  // ---------------------------------------------------------------------------
  // After the assistant's audio ends
  // ---------------------------------------------------------------------------

  datatype AfterPlayback =
    | PromptCallback   // ask for name, phone and preferred time
    | SayFarewell      // log the farewell line and set the completion status
    | ListenAgain      // start the next recording turn
    | ShowClosingForm  // reveal the form and the reset button, set the completion status

  /** The `onended` handler of a reply's audio. */
  function OnPlaybackEnded(assistantText: string, lastUserText: string): AfterPlayback {
    if Contains(Lower(assistantText), CallbackPhrase) then PromptCallback
    else if !Contains(assistantText, EndMarker) then
      if IsClosureSignal(lastUserText) then SayFarewell else ListenAgain
    else ShowClosingForm
  }

  /**
    The four outcomes, each characterised by the tests that lead to it: the
    callback phrase in any case wins; then the end marker, in capitals only,
    shows the closing form; without it, a closure phrase anywhere in the last
    user utterance ends with a farewell; otherwise listening resumes.
   */
  lemma PlaybackDecision(assistantText: string, lastUserText: string)
    ensures var next := OnPlaybackEnded(assistantText, lastUserText);
      var callback := Contains(Lower(assistantText), CallbackPhrase);
      var marker := Contains(assistantText, EndMarker);
      && (next == PromptCallback <==> callback)
      && (next == ShowClosingForm <==> !callback && marker)
      && (next == SayFarewell <==> !callback && !marker && MentionsTrigger(Lower(lastUserText)))
      && (next == ListenAgain <==> !callback && !marker && !MentionsTrigger(Lower(lastUserText)))
  {
    ClosureSignalSpec(lastUserText);
  }

  /** The end marker is matched case-sensitively: a lower-case "end of conversation" does not close. */
  lemma MarkerIsCaseSensitive()
    ensures OnPlaybackEnded("goodbye, end of conversation", "no") == ListenAgain
  {
    var a := "goodbye, end of conversation";
    LowerOfLowerCase(a);
    NoWordIn(a, CallbackPhrase, 0);
    NoWordIn(a, EndMarker, 0);
    assert !IsClosureSignal("no") by {
      ClosureSignalSpec("no");
      forall k | 0 <= k < |ClosingTriggers|
        ensures !Contains(Lower("no"), ClosingTriggers[k])
      {
        TriggersAreTrimmed(k);
      }
    }
  }

  /** The callback request wins even over the end marker. */
  lemma CallbackBeatsMarker(assistantText: string, lastUserText: string)
    requires Contains(Lower(assistantText), CallbackPhrase)
    requires Contains(assistantText, EndMarker)
    ensures OnPlaybackEnded(assistantText, lastUserText) == PromptCallback
  {
  }

  // ---------------------------------------------------------------------------
  // The callback prompt
  // ---------------------------------------------------------------------------

  /** The JSON body posted to the callback endpoint. */
  datatype CallbackRequest = CallbackRequest(name: string, phone: string, issue: string)

  /** `"..." + time`: a cancelled prompt (`null`) is rendered as the text "null". */
  function JsText(s: Option<string>): string {
    if s.Some? then s.value else "null"
  }

  /**
    `triggerCallbackPrompt` after its three prompts (each `null` when
    cancelled): a request is sent exactly when name and phone are both
    present and non-empty, carrying them unchanged and the last user
    utterance with the preferred time appended.
   */
  function CallbackSubmission(name: Option<string>, phone: Option<string>, time: Option<string>,
                              lastUserText: string): (r: Option<CallbackRequest>)
    ensures r.Some? <==> name.Some? && name.value != [] && phone.Some? && phone.value != []
    ensures r.Some? ==> r.value.name == name.value && r.value.phone == phone.value
    ensures r.Some? ==> r.value.issue == lastUserText + " | Requested callback: " + JsText(time)
  {
    if Truthy(name) && Truthy(phone) then
      Some(CallbackRequest(name.value, phone.value, lastUserText + CallbackSeparator + JsText(time)))
    else None
  }

  /** A cancelled time prompt sends the word "null" as the time. */
  lemma CancelledTimeIsNull(name: string, phone: string, lastUserText: string)
    requires name != [] && phone != []
    ensures CallbackSubmission(Some(name), Some(phone), None, lastUserText)
              == Some(CallbackRequest(name, phone, lastUserText + " | Requested callback: null"))
  {
    assert CallbackSeparator + JsText(None) == " | Requested callback: null";
    assert lastUserText + CallbackSeparator + JsText(None) == lastUserText + (CallbackSeparator + JsText(None));
  }

  /** `alert(data.message || "Callback submitted!")`. */
  function CallbackAlert(message: Option<string>): string {
    if Truthy(message) then message.value else DefaultAlert
  }

  // ---------------------------------------------------------------------------
  // Issue logging after a reply
  // ---------------------------------------------------------------------------

  /** The JSON body posted to the issue-log endpoint. */
  datatype IssueLogRequest = IssueLogRequest(issueType: string, summary: string)

  /** After each reply: if the last user utterance has a tag, log the tag and the utterance. */
  function IssueLogFor(lastUserText: string): (r: Option<IssueLogRequest>)
    ensures r.None? <==> DetectIssueTag(lastUserText).None?
    ensures r.Some? ==> r.value.summary == lastUserText && Some(r.value.issueType) == DetectIssueTag(lastUserText)
  {
    match DetectIssueTag(lastUserText)
    case None => None
    case Some(tag) => Some(IssueLogRequest(tag, lastUserText))
  }

  // ---------------------------------------------------------------------------
  // Replies and the conversation state
  // ---------------------------------------------------------------------------

  datatype Role = User | Assistant

  /** One line of the message log, with the issue badge shown after assistant lines. */
  datatype Entry = Entry(role: Role, text: string, badge: Option<string>)

  /** The answer of the voice endpoint: a failure, or the three optional fields. */
  datatype Reply =
    | Failed  // network error, non-success status or unreadable JSON
    | Answer(userText: Option<string>, assistantText: Option<string>, audio: Option<string>)

  /** What the widget does next. */
  datatype Next = PlayAudio | Listen | Idle

  /** `lastUserText` after a reply: replaced only by a non-empty transcription. */
  function NextLastUserText(lastUserText: string, reply: Reply): string {
    if reply.Answer? && Truthy(reply.userText) then reply.userText.value else lastUserText
  }

  /**
    An empty transcription keeps the previous utterance, so its tag is logged
    once more after this reply.
   */
  lemma EmptyTranscriptionRelogs(lastUserText: string, assistantText: Option<string>, audio: Option<string>)
    requires DetectIssueTag(lastUserText).Some?
    ensures var last := NextLastUserText(lastUserText, Answer(Some(""), assistantText, audio));
      last == lastUserText && IssueLogFor(last).Some? && IssueLogFor(last).value.summary == lastUserText
  {
  }

  /** The conversation's global state. */
  class Session {
    var log: seq<Entry>
    var status: string  // the `statusLabel` element, as the turn handlers and `StartListening` set it
    var lastUserText: string
    var formVisible: bool
    var resetVisible: bool

    constructor ()
      ensures log == [] && status == "" && lastUserText == "" && !formVisible && !resetVisible
    {
      log := [];
      status := "";
      lastUserText := "";
      formVisible := false;
      resetVisible := false;
    }

    /** `logMessage`: assistant lines carry the tag of the last user utterance. */
    function EntryFor(role: Role, text: string): Entry
      reads this
    {
      Entry(role, text, if role == User then None else DetectIssueTag(lastUserText))
    }

    /** `fetchInitialMessage` once the greeting has arrived. */
    method OnGreeting(assistantText: string, audio: Option<string>) returns (next: Next)
      modifies this
      ensures log == old(log) + [old(EntryFor(Assistant, assistantText))]
      ensures next == (if Truthy(audio) then PlayAudio else Listen)
      ensures status == (if Truthy(audio) then SpeakingStatus else old(status))
      ensures lastUserText == old(lastUserText) && formVisible == old(formVisible)
      ensures resetVisible == old(resetVisible)
    {
      log := log + [EntryFor(Assistant, assistantText)];
      if Truthy(audio) {
        status := SpeakingStatus;
        next := PlayAudio;
      } else {
        next := Listen;
      }
    }

    /**
      The `onstop` handler once the voice endpoint has answered: log the
      texts, update `lastUserText`, then play the audio or listen again; a
      failure logs the fixed error line and stops. The second result is the
      issue-log request sent after a successful reply.
     */
    method OnReply(reply: Reply) returns (next: Next, issueLog: Option<IssueLogRequest>)
      modifies this
      ensures lastUserText == NextLastUserText(old(lastUserText), reply)
      ensures reply.Failed? ==>
        && log == old(log) + [old(EntryFor(Assistant, ErrorMessage))]
        && status == ErrorStatus && next == Idle && issueLog == None
      ensures reply.Answer? ==>
        && log == old(log)
                  + (if Truthy(reply.userText) then [Entry(User, reply.userText.value, None)] else [])
                  + (if Truthy(reply.assistantText) then [EntryFor(Assistant, reply.assistantText.value)] else [])
        && next == (if Truthy(reply.audio) then PlayAudio else Listen)
        && status == (if Truthy(reply.audio) then SpeakingStatus else old(status))
        && issueLog == IssueLogFor(lastUserText)
      ensures formVisible == old(formVisible) && resetVisible == old(resetVisible)
    {
      match reply
      case Failed =>
        log := log + [EntryFor(Assistant, ErrorMessage)];
        status := ErrorStatus;
        next, issueLog := Idle, None;
      case Answer(userText, assistantText, audio) =>
        if Truthy(userText) {
          log := log + [EntryFor(User, userText.value)];
          lastUserText := userText.value;
        }
        if Truthy(assistantText) {
          log := log + [EntryFor(Assistant, assistantText.value)];
        }
        if Truthy(audio) {
          status := SpeakingStatus;
          next := PlayAudio;
        } else {
          next := Listen;
        }
        issueLog := IssueLogFor(lastUserText);
    }

    /** The `onended` handler of a reply's audio, on the reply's assistant text. */
    method OnAudioEnded(assistantText: string) returns (next: AfterPlayback)
      modifies this
      ensures next == OnPlaybackEnded(assistantText, lastUserText)
      ensures next == SayFarewell ==> log == old(log) + [old(EntryFor(Assistant, FarewellMessage))]
      ensures next != SayFarewell ==> log == old(log)
      ensures status == (if next in {SayFarewell, ShowClosingForm} then CompleteStatus else old(status))
      ensures formVisible == (old(formVisible) || next == ShowClosingForm)
      ensures resetVisible == (old(resetVisible) || next == ShowClosingForm)
      ensures lastUserText == old(lastUserText)
    {
      next := OnPlaybackEnded(assistantText, lastUserText);
      match next
      case SayFarewell =>
        log := log + [EntryFor(Assistant, FarewellMessage)];
        status := CompleteStatus;
      case ShowClosingForm =>
        formVisible := true;
        resetVisible := true;
        status := CompleteStatus;
      case _ =>
    }

    /**
      `startVoiceLoop` once the microphone is open: the status line shows
      that the widget is listening; nothing else in the session changes.
     */
    method StartListening()
      modifies this
      ensures status == ListeningStatus
      ensures log == old(log) && lastUserText == old(lastUserText)
      ensures formVisible == old(formVisible) && resetVisible == old(resetVisible)
    {
      status := ListeningStatus;
    }

    /**
      `resetConversation`: clear the log and set the reset status before the
      greeting is fetched again. The last user utterance and the closing
      controls are left as they were.
     */
    method Reset()
      modifies this
      ensures log == [] && status == ResetStatus
      ensures lastUserText == old(lastUserText)
      ensures formVisible == old(formVisible) && resetVisible == old(resetVisible)
    {
      log := [];
      status := ResetStatus;
    }
  }

}
