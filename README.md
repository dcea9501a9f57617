# Voice-chat widget and record keeping: a Dafny model

This project models the decision and formatting logic of a customer-service
voice assistant. The browser widget (`frontend/app.js`) records the caller,
ends a recording when a quiet frame arms a one-second timer that is not
cancelled (which a turn starting in silence may never do, see below), shows
a "thinking" animation,
logs each turn with an issue badge, and decides what to do when the
assistant's audio ends. The backend (`main.py`) saves callback requests as
text files and appends detected issues to a CSV log.

Modules, one per file:

- `Text` (`text.dfy`): the string primitives the code relies on.
  JavaScript's `toLowerCase` is modelled on the characters whose
  lower-case form is ASCII: the ASCII capitals and the Kelvin sign. `trim` uses the
  exact ECMAScript white-space set, and `includes` is modelled as a
  substring search. Python's `str.replace` is modelled for a one-character
  pattern. Also here: splitting on a separator (reading a record back line
  by line or comma by comma) and `repeat`.
- `IssueTagger` (`issue_tagger.dfy`): `detectIssueTag`, the first-match
  keyword classifier over the ordered four-rule table.
- `Closure` (`closure.dfy`): `isClosureSignal`, which checks the trimmed,
  lower-cased text for a closing phrase.
- `Energy` (`energy.dfy`): the mean absolute deviation of the analyser bytes
  from 128, and the quiet test `avg < 2`, which is done in integers as
  `sum < 2 * length`.
- `SilenceHold` (`silence_hold.dfy`): the per-frame hold logic around the
  global `silenceTimeout` handle. It is a state machine over frame,
  timer-fire and turn-start events. The browser's table of scheduled timers
  is part of the state. The `Detector` class updates the same state in
  place, one method per callback.
- `Thinking` (`thinking.dfy`): the dot counter of the thinking animation,
  as a class whose interval callback is a method.
- `Turn` (`turn.dfy`): the four-way decision taken when the reply's audio
  ends, the callback-prompt gate and its issue text, the issue-log request,
  and the `Session` class. `Session` holds the global conversation state:
  the message log, the status line (but for the thinking animation's
  writes, which `Thinking.Animation` keeps), `lastUserText` and the closing
  controls.
- `Backend` (`main.py` in `backend.dfy`): `request_callback` and
  `log_issue`. These cover field defaults, the file name, the
  `os.path.join` behaviour, the file body and the CSV line.
- `EndToEnd` (`end_to_end.dfy`): the widget's request bodies as the backend
  reads them, and what the backend then writes and what the user is told.

Some behaviours are kept as the code has them:

- The silence handle is not cleared when the hold timer fires. A turn that
  starts in silence therefore arms no timer and keeps recording until a
  loud frame clears the handle (`SilenceHold.SilentNextTurnIsNotCut`). The
  one exception is the frame already scheduled when the recorder stops: it
  still runs, and if it is loud it clears the handle, so the next turn's
  first quiet frame arms a timer again (`SilenceHold.LoudLeftoverFrameRearms`).
- A failed save still shows "Callback submitted!" to the user
  (`EndToEnd.CallbackSaved`).
- An empty transcription keeps the previous utterance, so its tag is
  logged again (`Turn.EmptyTranscriptionRelogs`).
- A name starting with `/` makes the file path absolute, outside the
  callback directory (`Backend.LeadingSlashLeavesDirectory`). A name
  starting with `../` is joined as it is: the path is `callback_requests/../`
  followed by the rest of the file name, resolved from the parent of the
  callback directory, so the file can land outside it (a name `../x` puts
  it in the parent) (`Backend.ParentNameEscapes`).
- A summary with commas is written without quoting, so splitting the logged
  line on commas gives more than two fields (`Backend.CsvFields`).
- `frontend/app.js` never listens to the microphone while audio plays, so
  playback always runs to its end.

## Model

| member | source | states |
|---|---|---|
| IssueTagger.DetectIssueTag | frontend/app.js:17-23 | A non-null result is one of the four table tags. |
| IssueTagger.FirstMatch | frontend/app.js:19-22 | The walk over the rule table. Its meaning is stated by `IssueTagger.FirstMatchSpec`: null iff no rule matches, otherwise the first matching rule's tag. |
| IssueTagger.FirstMatchSpec | frontend/app.js:19-22 | The rule walk returns null exactly when no rule has a keyword in the text. Otherwise it returns the tag of the first rule in table order that does. |
| IssueTagger.DetectIssueTagSpec | frontend/app.js:17-23 | `detectIssueTag` is null iff no rule matches the lower-cased text. Otherwise it is the tag of the first matching rule. |
| IssueTagger.DetectIssueTagIgnoresCase | frontend/app.js:18 | The tag of a text equals the tag of its lower-cased form. |
| IssueTagger.PrinterBeatsBilling | frontend/app.js:6-11 | "printer bill" matches the billing rule too, but the printer tag wins because its rule comes first. |
| IssueTagger.KelvinSignKeyword | frontend/app.js:18-20 | The Kelvin sign (U+212A) followed by "itchen" lower-cases to "kitchen" and is tagged as an order-sync issue. |
| IssueTagger.UpperCaseKeyword | frontend/app.js:18-20 | "CRASH!" is tagged as an app-performance issue. |
| IssueTagger.ShortTextUntagged | frontend/app.js:6-11 | Every keyword has at least three letters, so a text shorter than three characters has no tag. |
| IssueTagger.TagsAreSingleFields | frontend/app.js:6-11 | No tag contains a comma or a line break. |
| Closure.IsClosureSignal | frontend/app.js:25-28 | The trimmed, lower-cased text equals or includes a closing phrase. Its meaning is stated by `Closure.ClosureSignalSpec`. |
| Closure.TriggersAreTrimmed | frontend/app.js:13-15 | Every closing phrase is at least three characters long and has no white space at either end. |
| Closure.ClosureSignalSpec | frontend/app.js:25-28 | `isClosureSignal(t)` holds iff lower-cased `t` contains a closing phrase. Trimming never changes the answer, and the equality test adds nothing to `includes`. |
| Closure.BlankIsNoSignal | frontend/app.js:25-28 | An empty or all-white text is never a closure signal. |
| Closure.PaddedThanks | frontend/app.js:26-27 | "  Thanks!\n" is a closure signal. |
| Closure.YesterdayIsASignal | frontend/app.js:27 | "yesterday it froze" is a closure signal, because it contains "yes". |
| Text.Lower | frontend/app.js:18 | `toLowerCase` on the characters whose lower-case form is ASCII. Its meaning is stated by `Text.LowerIsLowerCase` and `Text.TrimLower`. |
| Text.Contains | frontend/app.js:20 | `includes`: some index where the pattern occurs. Its meaning with trimming is stated by `Text.ContainsTrim`. |
| Text.Trim | frontend/app.js:26 | `trim` gives the slice between the white margins, and that slice neither starts nor ends with white space. |
| Text.ContainsTrim | frontend/app.js:26-27 | A pattern with non-white ends occurs in the trimmed text iff it occurs in the text. |
| Text.TrimLower | frontend/app.js:26 | Trimming and lower-casing commute. |
| Text.LowerIsLowerCase | frontend/app.js:18 | The lower-cased text has no ASCII capital and no Kelvin sign, and lower-casing twice changes nothing more. |
| Text.Replace | main.py:133 | `str.replace` with a one-character pattern. Its meaning is stated by `Text.ReplaceRemovesTarget`, `Text.ReplaceByChar` and `Text.ReplaceByEmpty`. |
| Text.ReplaceRemovesTarget | main.py:133 | After `replace`, the target character is gone unless the replacement holds it. |
| Text.ReplaceByChar | main.py:133 | Replacing by one character keeps the length and changes exactly the target positions. |
| Text.ReplaceByEmpty | main.py:133 | Replacing by nothing removes every target and keeps every other character with its count and in its order. |
| Energy.Deviation | frontend/app.js:162 | `abs(b - 128)` is at most 128, and it is zero exactly at the midpoint. |
| Energy.DeviationSum | frontend/app.js:162 | The `reduce` total is at most 128 times the buffer length. |
| Energy.Average | frontend/app.js:162 | The mean deviation `reduce(...) / length`. Its bounds are stated by `Energy.AverageBounds`. |
| Energy.IsQuiet | frontend/app.js:163 | The integer form of `avg < 2`. It is tied to `Energy.Average` by `Energy.IsQuietMeansAverageBelowTwo`. |
| Energy.AverageBounds | frontend/app.js:162 | The mean deviation lies between 0 and 128. |
| Energy.IsQuietMeansAverageBelowTwo | frontend/app.js:162-163 | The integer test `sum < 2 * length` agrees with `avg < 2`. |
| Energy.MidpointBufferIsSilent | frontend/app.js:162-163 | A buffer of 128s has total 0 and mean 0, and it is quiet. |
| Energy.EmptyBufferIsLoud | frontend/app.js:162-163 | An empty buffer is not quiet, as `NaN < 2` is false. |
| SilenceHold.Step | frontend/app.js:160-175 | One frame, timer firing or turn start. Its meaning is stated by `SilenceHold.StepValid`, `SilenceHold.QuietFrame`, `SilenceHold.LoudFrame`, `SilenceHold.FrameReschedules` and `SilenceHold.FireStopsRecorder`. |
| SilenceHold.InitialValid | frontend/app.js:2 | Page load (no handle, no timer, no recorder) satisfies the invariant. |
| SilenceHold.StepValid | frontend/app.js:160-175 | Every frame, timer firing and turn start keeps the invariant. Only the handle's timer can be pending, a pending timer means the recorder is recording, and a frame left over after the stop finds the handle set. |
| SilenceHold.RunValid | frontend/app.js:160-175 | Every sequence of events from a valid state keeps the invariant. |
| SilenceHold.AtMostOneTimer | frontend/app.js:164-168 | In every valid state, at most one hold timer is pending. |
| SilenceHold.QuietFrame | frontend/app.js:163-168 | A quiet frame arms a fresh timer exactly when the handle is unset. With the handle set, it leaves the handle and the pending timers unchanged. |
| SilenceHold.LoudFrame | frontend/app.js:169-172 | A loud frame cancels any pending timer and clears the handle. |
| SilenceHold.FrameReschedules | frontend/app.js:173 | A frame schedules the next frame exactly when the recorder is recording. Without a scheduled frame, nothing happens. |
| SilenceHold.FireStopsRecorder | frontend/app.js:165-167 | A pending timer that fires stops the recorder and leaves no timer pending. The handle keeps the fired id. |
| SilenceHold.ClearedTimerIsHarmless | frontend/app.js:170 | A cleared timer does nothing when its time comes. |
| SilenceHold.QuietFramesKeepHandle | frontend/app.js:163-168 | With the handle set, any run of quiet frames changes neither the handle nor the pending timers nor the recorder. |
| SilenceHold.SilentNextTurnIsNotCut | frontend/app.js:163-171 | After the hold timer fires and a new turn starts, quiet frames arm no timer, so the recorder keeps recording. |
| SilenceHold.LoudLeftoverFrameRearms | frontend/app.js:163-173 | After the timer fires, a loud leftover frame clears the handle, so the next turn's first quiet frame arms a timer whose firing stops the recorder. |
| SilenceHold.HoldThenStop | frontend/app.js:163-172 | A quiet frame followed by its timer stops the recording. A loud frame in between cancels the stop. |
| SilenceHold.Detector.constructor | frontend/app.js:2 | The detector starts in the page-load state. |
| SilenceHold.Detector.StartTurn | frontend/app.js:156-175 | Starting a turn sets the recorder recording and schedules the first frame. It keeps the invariant. |
| SilenceHold.Detector.OnFrame | frontend/app.js:160-174 | The in-place update equals one frame step of the state machine. It keeps the invariant. It reports a rescheduling exactly when a frame was pending and the recorder was recording. |
| SilenceHold.Detector.OnTimerFired | frontend/app.js:165-167 | The in-place update equals one timer-fire step. It keeps the invariant. |
| Thinking.NextDotCount | frontend/app.js:75 | The next count is below 4. It is 0 exactly after 3, and otherwise one more. |
| Thinking.DotsAfterIsMod | frontend/app.js:73-77 | After `k` updates, the count is `k mod 4`. |
| Thinking.FirstCycle | frontend/app.js:73-77 | The first four updates show 1, 2, 3 and then 0 dots. |
| Thinking.StatusText | frontend/app.js:76 | The status line for a dot count. Its meaning is stated by `Thinking.StatusShowsDots`. |
| Thinking.StatusShowsDots | frontend/app.js:76 | The status is the label followed by exactly `dots` dots, and the label has no dot. |
| Thinking.Animation.constructor | frontend/app.js:3 | A new animation is stopped, has count 0 and has seen no update. |
| Thinking.Animation.Start | frontend/app.js:72-74 | Starting resets the count to 0 and starts the interval. The status stays as it was. |
| Thinking.Animation.Tick | frontend/app.js:74-77 | A running tick advances the count modulo 4 and shows it. A stopped animation changes nothing. The count stays in 0..3. |
| Thinking.Animation.Stop | frontend/app.js:80-82 | Stopping clears the interval and changes nothing else. |
| Turn.OnPlaybackEnded | frontend/app.js:121-136 | The four-way branch. Its meaning is stated by `Turn.PlaybackDecision`. |
| Turn.PlaybackDecision | frontend/app.js:121-136 | There are exactly four outcomes, each tied to its tests. The callback phrase, in any case, wins. The capitalised end marker then shows the form. Otherwise a closing phrase gives the farewell, and anything else restarts listening. |
| Turn.MarkerIsCaseSensitive | frontend/app.js:124 | A lower-case "end of conversation" does not close the conversation. |
| Turn.CallbackBeatsMarker | frontend/app.js:122-124 | The callback phrase wins over the end marker. |
| Turn.CallbackSubmission | frontend/app.js:178-187 | A request is sent iff name and phone are both present and non-empty. It carries them unchanged, with issue `lastUserText + " \| Requested callback: " + time`. |
| Turn.CancelledTimeIsNull | frontend/app.js:186 | A cancelled time prompt sends the word "null". |
| Turn.IssueLogFor | frontend/app.js:141-147 | An issue is logged iff the last user utterance has a tag. The log carries that tag and the utterance. |
| Turn.EmptyTranscriptionRelogs | frontend/app.js:108-147 | An empty transcription keeps the previous utterance, so its tag is logged again. |
| Turn.Session.constructor | frontend/app.js:1-4 | The session starts with an empty log, an empty `lastUserText` and hidden closing controls. |
| Turn.Session.OnGreeting | frontend/app.js:37-49 | The greeting is appended with the current badge. The widget plays the audio and shows "Speaking" when there is audio, and listens otherwise. |
| Turn.Session.OnReply | frontend/app.js:102-153 | A failure appends the error line, sets the error status and stops. A reply appends the user line and the assistant line when present, and replaces `lastUserText` only by a non-empty transcription. It then plays or listens, and requests the issue log for the new `lastUserText`. |
| Turn.Session.OnAudioEnded | frontend/app.js:121-136 | The outcome is the playback decision. Only the farewell appends a line. The farewell and the form set the completion status. Only the form reveals the closing controls. |
| Turn.Session.StartListening | frontend/app.js:156 | Opening the microphone sets the listening status and changes nothing else in the session. |
| Turn.Session.Reset | frontend/app.js:30-35 | Reset clears the log and sets the reset status. It keeps `lastUserText` and the closing controls. |
| Backend.RequestCallback | main.py:124-140 | The handler's outcome. Its meaning is stated by `Backend.CallbackDefaults`, `Backend.SavedMessageIsFixed` and `EndToEnd.CallbackSaved`. |
| Backend.FileName | main.py:133 | The sanitised file name. Its shape is stated by `Backend.FileNameShape`. |
| Backend.JoinPath | main.py:134 | POSIX `os.path.join`. Its meaning for the callback directory is stated by `Backend.LeadingSlashLeavesDirectory`, `Backend.RelativeNameIsJoined` and `Backend.ParentNameEscapes`. |
| Backend.Body | main.py:136 | The file body. Its meaning is stated by `Backend.BodyLines`. |
| Backend.CallbackDefaults | main.py:127-137 | With no fields, the file is `callback_requests/Anonymous_Unknown.txt` and its body has the three default values. The answer is the saved message. |
| Backend.SavedMessageIsFixed | main.py:131-140 | The handler saves iff the write succeeds and name and phone are strings. A save always answers with the fixed message. |
| Backend.FileNameShape | main.py:133 | The file name is name part, `_`, phone part, `.txt`. The name part has each space turned into `_` and nothing else changed. The phone part has every `+` removed and keeps every other character, in order: each character becomes itself or nothing, and the part for the whole phone is the part for any prefix followed by the part for the rest. |
| Backend.OtherCharactersSurvive | main.py:133 | A slash in the name and a space in the phone are not sanitised. |
| Backend.LeadingSlashLeavesDirectory | main.py:134 | A name starting with `/` makes `os.path.join` discard the callback directory. |
| Backend.RelativeNameIsJoined | main.py:134 | For any other name, the path is `callback_requests/` followed by the file name. |
| Backend.ParentNameEscapes | main.py:134 | A name starting with `../` gives the path `callback_requests/../` followed by the rest of the file name. The join does not resolve `..`, so the path is resolved from the parent of the callback directory and the file can land outside it. |
| Backend.BodyLines | main.py:136 | When the fields have no line break, the body read line by line gives back the three labelled fields. |
| Backend.LogIssue | main.py:142-154 | The handler's outcome. Its meaning is stated by `Backend.LogDefaults` and `EndToEnd.IssueLogged`. |
| Backend.CsvLine | main.py:150 | The appended line. Its meaning is stated by `Backend.CsvFields`. |
| Backend.LogDefaults | main.py:145-151 | With no fields, the appended line is "Uncategorized," and a line break. |
| Backend.CsvFields | main.py:150 | The line is not escaped. For an issue type without a comma, split on commas, its first field is the issue type, and a summary with `k` commas gives `k + 2` fields. |
| EndToEnd.AlertFor | frontend/app.js:189 | The alert shows the backend's message. An error answer, which has no message, shows "Callback submitted!". |
| EndToEnd.CallbackSaved | frontend/app.js:182-190 | A completed callback prompt is saved under the sanitised name, with the body holding name, phone and issue, and the user sees the saved message. If the write fails, the user still sees "Callback submitted!". |
| EndToEnd.CallbackFileReadsBack | main.py:136 | When no field holds a line break, the saved file, read line by line, gives back what the widget sent. |
| EndToEnd.IssueLogged | frontend/app.js:141-147 | A tagged utterance is appended as "tag,utterance". Split on commas, its first field is the tag, and the utterance's commas add fields. |

## Left out

- Browser media: `getUserMedia`, `MediaRecorder`, the `AudioContext` analyser, Blob and FormData assembly, the `chunks` buffer and `Audio` playback (frontend/app.js:85-100,115-120). A frame's sample buffer is a parameter of the frame event.
- Real time: `setTimeout`, `setInterval` and `requestAnimationFrame` become explicit frame, timer-fire and tick events. The 1000 ms hold and 500 ms interval are not measured.
- `fetch`, JSON parsing, DOM construction and styling. The replies are parameters (`Turn.Reply`), and the log is a sequence of entries.
- The playback-failure path (`audio.play().catch`, frontend/app.js:117-120), which restarts listening at once.
- SilenceHold.Detector: one recorder is modelled. Each `startVoiceLoop` really builds a new recorder, and a pending timer stops the recorder it was created with. Turns that overlap (a reset during a recording) are therefore not modelled.
- Thinking.Animation.Start: one interval is modelled. A second `animateThinking` before `stopThinking` overwrites `thinkingInterval` without clearing the first interval, which then keeps ticking for ever (frontend/app.js:74); that leak is not modelled.
- Text.Lower: folds only the ASCII capitals and the Kelvin sign (to `k`). JavaScript's `toLowerCase` also folds other letters, but their lower-case forms are not ASCII, except U+0130, which becomes `i` followed by U+0307. All keywords and phrases are ASCII and none ends in `i`, so these letters cannot take part in a match either way. This argument is not proved.
- Turn.Session: the thinking animation's status writes (frontend/app.js:76) go to `Thinking.Animation.status`, not to `Session.status`, so while a reply is awaited the model's session status still shows the listening text that the page has replaced.
- Turn.Session.OnAudioEnded: assumes the reply had an assistant text. A reply with audio but no text makes `toLowerCase` throw in the real code.
- Backend.RequestCallback and Backend.LogIssue: the file-system write is the `writeSucceeds` parameter. A request body that is not a JSON object is not modelled.
- The greeting's random choice, the Whisper and chat-completion calls and the ElevenLabs speech synthesis (whisper_utils.py and elevenlabs_utils.py are not part of this model).
- The text of error answers (`str(e)`), since it depends on the exception.
