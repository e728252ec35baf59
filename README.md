# Keyword-activated listening assistant, modelled in Dafny

The system is a browser voice assistant written in React. It listens
continuously with the Web Speech API and keeps a conversation history of
what it hears. When the activation keyword (by default `assistant`) is
spoken and followed by a command, it sends the recent history and the
command to a text-generation service. It then speaks the reply with a
preferred synthesis voice. A guard (`isRespondingRef`) is meant to keep
one activation under way at a time.

The repository has two drafts of this listening loop, and both are modelled.

- **The temp-app draft** (`temp-app/src/App.jsx`) is one component. It
  installs the recognition handlers when listening starts and keeps the
  values of that render. So the handlers see `isListening` as false, the
  keyword as it was at start, and the history as it was at start.
- **The second draft** (`src/`) keeps its state in `App`. It hands that
  state to `SpeechRecognitionComponent` (the recogniser, its handlers and
  the listening button) and `AIResponseHandler` (the voice, the request
  and the spoken reply). Its handlers read current values. Its
  `onresult` takes the guard but makes no request, and nothing calls
  `getAiResponse`.

Modules:

- `JsString` (`strings.dfy`): the JavaScript string operations the code
  uses. These are `trim`, `toLowerCase` (ASCII), `lastIndexOf`,
  `includes`, `startsWith` and `join`, with `split` as the partner of
  `join`.
- `Recognition` (`recognition.dfy`): the slots of a recognition event, the
  loop that splits them into final and interim text, and the temp-app
  draft's commit of new final text.
- `Keyword` (`keyword.dfy`): the temp-app keyword normalisation, the
  keyword search that both drafts share, and the two activation gates.
- `Backoff` (`backoff.dfy`): `fetchWithBackoff`. The network is a list of
  outcomes, one per attempt, and each wait is recorded rather than slept.
- `Gemini` (`gemini.dfy`): the prompt, the reply path
  `candidates[0].content.parts[0].text`, and what ends up spoken.
- `Voices` (`voices.dfy`): the voice choice.
- `Ui` (`ui.dfy`): the four statuses the status line shows.
- `TempApp` (`temp_app.dfy`) and `SrcApp` (`src_app.dfy`): each draft as a
  class whose fields are the component state and refs, with the handlers
  as methods.

Asynchronous work is modelled as explicit queues:

- `requests` holds the prompts whose `fetchWithBackoff` has not settled.
- `speech` holds the utterances whose end has not been handled.

`CompleteRequest` settles a request with a given list of network outcomes.
`OnSpeechStart` and `OnSpeechSettled` stand for the utterance's `onstart`
and `onend` events (the latter after its 500 ms timer). The guard's
purpose is stated as `SingleFlight`: at most one request or reply under
way, and the guard held while there is one.

## Model

| member | source | states |
|---|---|---|
| JsString.Trim | temp-app/src/App.jsx:123 | the result is the part of the string between the unique trimming bounds; it is empty exactly when the string is all white space, and never longer than the string |
| JsString.TrimBounds | temp-app/src/App.jsx:140 | the trimmed string is a slice whose surroundings are white space and whose ends are not |
| JsString.TrimIdempotent | src/components/SpeechRecognitionComponent.jsx:74 | trimming twice gives the same as trimming once |
| JsString.ToLower | temp-app/src/App.jsx:136 | lower-casing keeps the length and maps each character on its own |
| JsString.ToLowerFacts | temp-app/src/App.jsx:351 | lower-casing is idempotent and keeps white space where it was |
| JsString.LastIndexOf | temp-app/src/App.jsx:137 | -1 exactly when the keyword occurs nowhere; otherwise the index of the last occurrence |
| JsString.Includes | temp-app/src/App.jsx:141 | true exactly when the substring occurs somewhere |
| JsString.Split | temp-app/src/App.jsx:243 | at least one piece, and no piece holds the separator |
| JsString.SplitJoin | temp-app/src/App.jsx:243 | splitting lines joined by a separator none of them contains gives back the lines |
| Recognition.SplitSlots | temp-app/src/App.jsx:107-117 | the loop leaves exactly the concatenated final chunks and the concatenated interim chunks, in slot order |
| Recognition.SplitKeepsEverything | src/components/SpeechRecognitionComponent.jsx:57-67 | the final and interim texts together hold exactly the characters of all the event's chunks in slot order, each as often, and so are exactly as long |
| Recognition.AllFinal | temp-app/src/App.jsx:110-119 | with every slot final, nothing is interim and the live text is the final text |
| Recognition.FinalTextGrows | temp-app/src/App.jsx:110-117 | an event that only appends slots to an earlier one has final text extending the earlier final text |
| Recognition.NewFinalChunk | temp-app/src/App.jsx:122-124 | there is a chunk exactly when the final text is longer than the last committed one and the new part is not blank; the chunk is non-empty and no longer than that part |
| Recognition.CommitOnce | temp-app/src/App.jsx:122-131 | once a final text is committed, the same final text again commits nothing and leaves the committed text as it is |
| Recognition.AppendLine | temp-app/src/App.jsx:129 | the log is extended by the line, with a newline between exactly when the log was non-empty |
| Recognition.CommitRunChunks | temp-app/src/App.jsx:122-126 | over any run of events, every history entry is the trimmed raw part it came from and is never blank |
| Recognition.CommitRunSpellsFinal | temp-app/src/App.jsx:122-133 | over events whose final texts grow, the committed raw parts, in order, spell the newly committed text after the old one, each piece once, within the latest final text |
| Recognition.RedeliveryCommitsNothing | temp-app/src/App.jsx:122-133 | an event delivered twice in a row adds no more history entries than once |
| Keyword.NormaliseKeyword | temp-app/src/App.jsx:351 | the keyword is never empty, already trimmed and lower case; it is either the default or the trimmed, lower-cased input; the input is blank exactly when the default is used as a fallback (an input such as " Assistant " normalises to the default without being blank) |
| Keyword.DetectSpec | temp-app/src/App.jsx:136-139 | no detection exactly when the keyword does not occur in the lower-cased text; otherwise the detection is at its last occurrence |
| Keyword.DetectAt | temp-app/src/App.jsx:136-140 | at the last occurrence, the command is the trimmed text after the keyword, taken from the text as spoken |
| Keyword.CommandAfterLastOccurrence | src/components/SpeechRecognitionComponent.jsx:81-85 | the command never contains the keyword, compared case-insensitively |
| Keyword.UppercaseKeywordNeverDetected | src/components/SpeechRecognitionComponent.jsx:81-82 | a keyword with an upper-case letter, as the second draft accepts, is never found |
| Keyword.EmptyKeywordDetectedAtEnd | src/components/SpeechRecognitionComponent.jsx:82-85 | an empty keyword is found at the end of the text, with an empty command |
| Keyword.GatesCompared | temp-app/src/App.jsx:139-141 | the temp-app gate implies the second draft's; they agree when nothing is interim; a command not yet final splits them |
| Keyword.KeywordAloneDoesNotActivate | temp-app/src/App.jsx:140-141 | the keyword spoken alone gives an empty command, and neither gate opens |
| Keyword.HeyAssistantDetected | temp-app/src/App.jsx:136-141 | "hey assistant what time is it" is detected at index 4 with the command "what time is it", and opens the gate |
| Backoff.FetchWithBackoff | temp-app/src/App.jsx:200-226 | at most five attempts; success exactly on the first ok response, whose body is returned; every failure before it is retried after waits of 1000 ms doubling each time; after five failures, a give-up that has waited after all five |
| Backoff.WaitsDouble | src/components/AIResponseHandler.jsx:42-63 | the first wait is 1000 ms and each later wait is twice the one before |
| Backoff.FullSchedule | temp-app/src/App.jsx:201-225 | five failures wait 1000, 2000, 4000, 8000 and 16000 ms |
| Backoff.ServerErrorsThenSuccess | src/components/AIResponseHandler.jsx:51-56 | three 503s and a 200 give the 200's body after four attempts and three doubling waits |
| Backoff.UnauthorisedIsRetried | src/components/AIResponseHandler.jsx:53-63 | a 401 is retried like a 503: five attempts and the full schedule |
| Gemini.RecentEntries | temp-app/src/App.jsx:243 | the last ten entries, or all when fewer, in order |
| Gemini.BuildPrompt | src/components/AIResponseHandler.jsx:81 | the prompt starts with the context header and ends with the query |
| Gemini.PromptContext | temp-app/src/App.jsx:243 | for every history, the context part of the prompt is the recent entries joined by newlines; an empty history, as in the temp-app's first session, gives an empty context |
| Gemini.PromptCarriesRecentEntries | temp-app/src/App.jsx:243 | the context part of the prompt, split at newlines, is exactly the recent entries when none holds a newline |
| Gemini.ReplyText | temp-app/src/App.jsx:254-257 | a reply text is the non-empty text found at `candidates[0].content.parts[0].text`; when there is none, that path is missing or holds only the empty text |
| Gemini.ReplyTextMissingStep | src/components/AIResponseHandler.jsx:92-100 | an unparsable body, a missing or empty `candidates`, a missing `content`, missing or empty `parts`, or a missing or empty `text` each give no reply text |
| Gemini.ReplyTextOfBody | src/components/AIResponseHandler.jsx:92-95 | reading back the body the service sends for a text gives that text, unless it is empty |
| Gemini.ReplyTextReadsFirstOnly | temp-app/src/App.jsx:254-257 | further candidates and further parts are ignored |
| Gemini.AnswerFor | temp-app/src/App.jsx:251-267 | the reply text is spoken exactly when the fetch succeeded with a usable reply; otherwise the apology |
| Voices.Filter | temp-app/src/App.jsx:35-40 | keeps exactly the list members passing the test: every kept voice passes and is from the list, and every passing voice is kept |
| Voices.FilterAppend | temp-app/src/App.jsx:46 | filtering keeps list order: the filter of a concatenation is the concatenation of the filters |
| Voices.Find | temp-app/src/App.jsx:43 | nothing exactly when no member passes; otherwise the first member that passes |
| Voices.ChooseVoice | src/components/AIResponseHandler.jsx:13-29 | a voice from the list exactly when the list is non-empty |
| Voices.ChooseVoiceIsPreferred | temp-app/src/App.jsx:35-48 | the filter-then-find code picks the first US-English Google voice, else the first US-English female or Zira voice, else the first US-English voice, else the first voice |
| TempApp.ChunkEntry | temp-app/src/App.jsx:122-126 | at most one history entry, present exactly when there is a new chunk, and equal to it |
| TempApp.LogAfter | temp-app/src/App.jsx:129 | the log only grows, by the new chunk on a line of its own |
| TempApp.Assistant.constructor | temp-app/src/App.jsx:4-19 | the initial state: default keyword, not listening, nothing heard, guard free; the invariants hold |
| TempApp.Assistant.SetKeyword | temp-app/src/App.jsx:350-352 | while listening the keyword cannot change; otherwise it becomes the normalised input |
| TempApp.Assistant.StartListening | temp-app/src/App.jsx:69-154 | starts exactly when not listening, supported and granted the microphone; the handlers then capture the keyword and history; otherwise nothing changes |
| TempApp.Assistant.StopListening | temp-app/src/App.jsx:156-175 | when listening, recognition and the stream stop and the status is inactive; otherwise nothing changes |
| TempApp.Assistant.OnEnd | temp-app/src/App.jsx:84-96 | the refs are cleared and recognition is never restarted |
| TempApp.Assistant.OnEndRestarting | temp-app/src/App.jsx:84-96 | recognition restarts exactly when the user is still listening, so it keeps listening |
| TempApp.Assistant.OnError | temp-app/src/App.jsx:98-104 | a refused microphone calls `stopListening`, and the state, invariant included, is unchanged |
| TempApp.Assistant.Speak | temp-app/src/App.jsx:177-196 | the text is shown and queued for speech |
| TempApp.Assistant.GetAiResponse | temp-app/src/App.jsx:229-252 | the status says thinking; without a key the message is spoken and the guard released; with one, a request with the captured history goes out |
| TempApp.Assistant.OnResult | temp-app/src/App.jsx:106-146 | the live text is shown, a new chunk committed, and the gate decides; if it opens, the guard is taken and the command's request sent; otherwise nothing else changes; single flight is kept |
| TempApp.Assistant.Hear | temp-app/src/App.jsx:119-145 | the same as `OnResult`, given the split texts |
| TempApp.Assistant.Transcribe | temp-app/src/App.jsx:119-133 | the live text is shown and a new chunk is committed |
| TempApp.Assistant.Commit | temp-app/src/App.jsx:122-133 | the history and the log gain exactly the new chunk, and the committed text advances exactly then |
| TempApp.Assistant.Activate | temp-app/src/App.jsx:139-145 | fires exactly when the temp-app gate opens, then asks for the command's answer; single flight is kept |
| TempApp.Assistant.CompleteRequest | temp-app/src/App.jsx:251-267 | the request leaves the queue with the fetch outcome; the answer is shown and spoken, a reply joins the history, and a failure releases the guard |
| TempApp.Assistant.CompleteRequestHeld | temp-app/src/App.jsx:251-267 | as `CompleteRequest`, but a failure keeps the guard; single flight is kept |
| TempApp.Assistant.OnSpeechStart | temp-app/src/App.jsx:183 | the status says speaking |
| TempApp.Assistant.OnSpeechSettled | temp-app/src/App.jsx:185-194 | the utterance leaves the queue, the guard is released and the status, reading the captured `isListening`, is inactive |
| TempApp.Assistant.LoadVoice | temp-app/src/App.jsx:31-48 | an empty voice list keeps the voice; otherwise the preferred voice, from the list |
| TempApp.EndWithoutRestart | temp-app/src/App.jsx:84-96 | after a start and a natural end the user is listening but nothing is recognised |
| TempApp.EndWithRestart | temp-app/src/App.jsx:84-96 | with the corrected `onend`, the same start and end keep recognition running |
| TempApp.HeyEventFires | temp-app/src/App.jsx:106-145 | a one-slot final event saying "hey assistant what time is it" activates an idle assistant with the command "what time is it" |
| TempApp.DeliverActivating | temp-app/src/App.jsx:139-143 | an activating event on a free guard takes it and sends one request |
| TempApp.FailFirstRequest | temp-app/src/App.jsx:263-267 | a request that fails every attempt queues the apology and frees the guard |
| TempApp.GuardRace | temp-app/src/App.jsx:185-193 | an activating utterance whose request fails leads to two requests in flight, breaking single flight |
| TempApp.FailFirstRequestHeld | temp-app/src/App.jsx:263-265 | with the corrected settlement, a failed request queues the apology and keeps the guard and single flight |
| TempApp.NoRaceWhenHeld | temp-app/src/App.jsx:139-145 | with the corrected settlement, the redelivered utterance does not fire and single flight holds |
| SrcApp.FinalEntry | src/components/SpeechRecognitionComponent.jsx:72-74 | one history entry exactly when there is final text; it is empty exactly when that text is blank |
| SrcApp.Assistant.constructor | src/App.jsx:8-18 | the initial state: default keyword, not listening, guard free; the invariants hold |
| SrcApp.Assistant.SetKeyword | src/App.jsx:40 | the keyword is taken exactly as typed |
| SrcApp.Assistant.StartListening | src/components/SpeechRecognitionComponent.jsx:103-123 | starts exactly when not listening, supported and granted the microphone; otherwise nothing changes |
| SrcApp.Assistant.StopListening | src/components/SpeechRecognitionComponent.jsx:125-147 | when listening, recognition and the stream stop and the status is inactive; otherwise nothing changes |
| SrcApp.Assistant.OnEnd | src/components/SpeechRecognitionComponent.jsx:35-45 | recognition restarts exactly when the user is still listening |
| SrcApp.Assistant.OnError | src/components/SpeechRecognitionComponent.jsx:47-54 | a refused microphone turns listening off and the status to inactive; other errors change nothing |
| SrcApp.Assistant.OnResult | src/components/SpeechRecognitionComponent.jsx:56-93 | the live text is shown; any final text, trimmed, joins the history and the log; it fires exactly when the second draft's gate opens on a free guard, taking the guard |
| SrcApp.Assistant.Record | src/components/SpeechRecognitionComponent.jsx:69-78 | the live text is shown and the trimmed final text recorded |
| SrcApp.Assistant.Gate | src/components/SpeechRecognitionComponent.jsx:84-92 | fires exactly when the gate opens, taking the guard and saying thinking |
| SrcApp.Assistant.LoadVoice | src/components/AIResponseHandler.jsx:12-30 | an empty voice list keeps the voice; otherwise the preferred voice, from the list |
| SrcApp.Assistant.GetAiResponse | src/components/AIResponseHandler.jsx:70-88 | without a key the message is shown, not spoken, and the guard released; with one, the status says thinking and a request with the current history goes out |
| SrcApp.Assistant.Speak | src/components/AIResponseHandler.jsx:109-126 | the text is shown and queued for speech |
| SrcApp.Assistant.CompleteRequest | src/components/AIResponseHandler.jsx:89-105 | the request leaves the queue with the fetch outcome; the answer is shown and spoken; the guard and history are left alone; single flight is kept |
| SrcApp.Assistant.OnSpeechStart | src/components/AIResponseHandler.jsx:115-117 | the status says speaking |
| SrcApp.Assistant.OnSpeechSettled | src/components/AIResponseHandler.jsx:119-124 | the utterance leaves the queue, the guard is released and the status says listening; single flight is kept |
| SrcApp.HeyActivates | src/components/SpeechRecognitionComponent.jsx:56-91 | a one-slot final event saying "hey assistant what time is it" activates this draft on a free guard |
| SrcApp.OnlyFirstActivation | src/components/SpeechRecognitionComponent.jsx:84-91 | the first activating event fires and the same event again does not, since the guard is never released |
| SrcApp.RedeliveryRecordedTwice | src/components/SpeechRecognitionComponent.jsx:72-74 | an event with final text, delivered twice, leaves two identical history entries |
| SrcApp.DeliverAndAsk | src/components/AIResponseHandler.jsx:70-88 | an activating event followed by its request leaves one request in flight under the guard |
| SrcApp.FailRequest | src/components/AIResponseHandler.jsx:102-105 | a request failing every attempt queues the apology with single flight kept |
| SrcApp.GuardHeldThroughFailure | src/components/AIResponseHandler.jsx:102-124 | after a failed request the guard stays taken through the apology, the utterance does not fire again, and single flight holds |

## Left out

- Audio recording (`startAudioRecording`, `stopAudioRecording`,
  `toggleRecording`, and the `AudioRecorder` component). So is the
  `TranscriptPolisher` component. Neither takes part in the listening loop.
- The effect in `SpeechRecognitionComponent.jsx` that creates a new
  recogniser whenever `isListening` or the keyword changes. Its cleanup
  stops the old recogniser, and nothing starts the new one. The model
  treats the draft's handlers as installed on the running recogniser with
  current values; it does not capture that recognition stops after each
  change.
- Alerts, console output, button text and the colours and pulse of the
  status line. The status is only which of four states it shows.
- Which voice an utterance uses, audio output, and when speech starts or
  ends. Speech is a queue whose events are explicit method calls.
- The browser support check is a constructor parameter. The microphone
  permission is a parameter of `StartListening`. The API key is a
  constructor parameter. The network outcomes are a parameter of
  `CompleteRequest`.
- The model name, the request URL, the JSON payload's layout and the fixed
  system instruction sent with every request. Only the user prompt is modelled.
- `ToLower` maps ASCII letters only; other characters are left unchanged.
- Strings are sequences of Unicode scalar values, while JavaScript counts
  UTF-16 code units. For text with characters outside the Basic
  Multilingual Plane, the model's lengths and indices differ from
  JavaScript's: `command.length > 2`, `substring` and `lastIndexOf`
  (temp-app/src/App.jsx:137-141) count such a character once instead of twice.
- Requests are not cancelled when listening stops, in either draft, and the
  model does not cancel them either.
- Backoff.FetchWithBackoff: the waits are recorded, not timed. A wait
  running while the user acts is not modelled.
- SrcApp.Assistant.OnResult: in this draft nothing connects a firing to
  `GetAiResponse`. The scenarios call it explicitly, as the handler would
  if wired.

The code departs in these points from what the assistant is described to
do (retry only transient errors, a default command, a reset of the live
text on activation, a guard released when listening stops); the model
follows the code:

- Every non-ok status is retried, 4xx included. The throw for a
  non-retryable status lands in the `catch` beside it.
- The keyword said alone gives no default command; nothing activates.
- The live text is not reset on activation.
- A sixteen-second wait follows the fifth failure before the give-up.
- Stopping listening does not clear the in-flight guard
  (`isRespondingRef`), in either draft: `TempApp.Assistant.StopListening`
  and `SrcApp.Assistant.StopListening` leave `responding` as it was, so a
  request still running keeps activation shut until it settles.

Further behaviour of the code that the model keeps and proves:

- temp-app `onerror` calls a `stopListening` that returns at once.
- temp-app sends the history captured at start as context.
- temp-app's status after speaking is always inactive.
- In the second draft, a redelivered event adds a second history entry.
- In the second draft, blank final text adds an empty entry.
- In the second draft, a refused microphone leaves the stream held.
- In the second draft, the missing-key message is shown but not spoken.

## Findings

| source | as written | input that shows it | evidently intended | confidence | as-written member | corrected member |
|---|---|---|---|---|---|---|
| temp-app/src/App.jsx:88 | `onend` restarts recognition only if `isListening`, but the handler reads the value captured when listening started, which is always false | start listening, then let recognition end on its own (a silence timeout) | restart recognition while the user is still listening, as the second draft does | high; not executed | TempApp.Assistant.OnEnd, TempApp.EndWithoutRestart | TempApp.Assistant.OnEndRestarting, TempApp.EndWithRestart |
| temp-app/src/App.jsx:266 | a failed request releases the guard while its apology is still queued, and the apology's `onend` (line 187) later releases whatever holds the guard | an activating utterance whose request fails on all five attempts, while the utterance stays in the live text | keep the guard until the answer, apology included, has been spoken, so one activation is under way at a time | medium; not executed | TempApp.Assistant.CompleteRequest, TempApp.GuardRace | TempApp.Assistant.CompleteRequestHeld, TempApp.NoRaceWhenHeld |
