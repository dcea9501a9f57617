/**
  The widget and the backend together: the JSON bodies the widget posts,
  as the backend parses them, and what the backend then writes and answers.
 */
module EndToEnd {
  import opened Wrappers
  import opened Text
  import opened IssueTagger
  import opened Turn
  import opened Backend

  /** `JSON.stringify` of a callback request, as the backend reads it back: three strings. */
  function CallbackJson(req: CallbackRequest): JObject {
    map["name" := JStr(req.name), "phone" := JStr(req.phone), "issue" := JStr(req.issue)]
  }

  /** `JSON.stringify` of an issue-log request, as the backend reads it back: two strings. */
  function IssueLogJson(req: IssueLogRequest): JObject {
    map["issue_type" := JStr(req.issueType), "summary" := JStr(req.summary)]
  }

  /**
    The alert the widget shows for the backend's answer: the success message,
    or, since an error answer has no `message`, the fixed fallback text.
   */
  function AlertFor(outcome: CallbackOutcome): (text: string)
    ensures outcome.Saved? && outcome.message != [] ==> text == outcome.message
    ensures outcome.CallbackError? ==> text == DefaultAlert
  {
    CallbackAlert(if outcome.Saved? then Some(outcome.message) else None)
  }

  /**
    A callback the user completes is saved under a file name built from the
    name and phone, with a body holding the name, the phone and the last user
    utterance with the preferred time; the user is told it was saved. When
    the write fails, the user is still told "Callback submitted!".
   */
  lemma CallbackSaved(name: string, phone: string, time: Option<string>, lastUserText: string,
                      writeSucceeds: bool)
    requires name != [] && phone != []
    ensures var req := CallbackSubmission(Some(name), Some(phone), time, lastUserText);
      var issue := lastUserText + " | Requested callback: " + JsText(time);
      && req.Some?
      && (writeSucceeds ==>
            RequestCallback(CallbackJson(req.value), writeSucceeds) ==
              Saved(JoinPath(CallbackDir, FileName(name, phone)), Body(name, phone, issue), SavedMessage)
            && AlertFor(RequestCallback(CallbackJson(req.value), writeSucceeds)) == SavedMessage)
      && (!writeSucceeds ==>
            RequestCallback(CallbackJson(req.value), writeSucceeds) == CallbackError
            && AlertFor(RequestCallback(CallbackJson(req.value), writeSucceeds)) == DefaultAlert)
  {
    assert |SavedMessage| > 0;
  }

  /**
    When no field holds a line break, the saved file, read line by line,
    gives back the name, the phone and the issue text the widget sent.
   */
  lemma CallbackFileReadsBack(name: string, phone: string, time: Option<string>, lastUserText: string)
    requires name != [] && phone != []
    requires '\n' !in name && '\n' !in phone && '\n' !in lastUserText && '\n' !in JsText(time)
    ensures var req := CallbackSubmission(Some(name), Some(phone), time, lastUserText);
      var issue := lastUserText + " | Requested callback: " + JsText(time);
      && req.Some?
      && RequestCallback(CallbackJson(req.value), true).Saved?
      && Split(RequestCallback(CallbackJson(req.value), true).body, '\n') ==
           ["Name: " + name, "Phone: " + phone, "Issue: " + issue, ""]
  {
    var issue := lastUserText + " | Requested callback: " + JsText(time);
    assert '\n' !in " | Requested callback: ";
    assert '\n' !in issue;
    BodyLines(name, phone, issue);
  }

  /**
    After a reply whose last user utterance has a tag, the backend appends
    the line "tag,utterance"; split on commas, its first field is the tag,
    and an utterance with `k` commas spreads over `k + 1` further fields.
   */
  lemma IssueLogged(lastUserText: string)
    requires DetectIssueTag(lastUserText).Some?
    ensures var req := IssueLogFor(lastUserText);
      var tag := DetectIssueTag(lastUserText).value;
      var line := CsvLine(tag, lastUserText);
      && req.Some?
      && LogIssue(IssueLogJson(req.value), true) == Appended(LogPath, line, LoggedMessage)
      && Split(line[..|line| - 1], ',')[0] == tag
      && |Split(line[..|line| - 1], ',')| == Count(lastUserText, ',') + 2
  {
    var tag := DetectIssueTag(lastUserText).value;
    TagsAreSingleFields(tag);
    CsvFields(tag, lastUserText);
  }

}
