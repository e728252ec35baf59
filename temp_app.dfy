/** The temp-app draft of the assistant (`temp-app/src/App.jsx`): one
    component holding the keyword, the listening state, the transcripts, the
    conversation history and the responding guard, and the recognition and
    speech handlers that update them.

    The handlers are installed by `startListening`, which runs only in a
    render where `isListening` is false; they keep that render's values.
    So the `isListening` they read is always false, the keyword they look
    for is the one set when listening started, and the history they send
    as context is the history as it was then. The model keeps those
    captured values in fields of their own (`sessionKeyword`,
    `contextHistory`) and writes the captured `false` out where it is read. */
module TempApp {
  import opened JsString
  import opened Options
  import opened Recognition
  import opened Keyword
  import opened Backoff
  import opened Gemini
  import opened Voices
  import opened Ui

  /** A history entry for each new, non-blank final chunk. */
  function ChunkEntry(lastFinal: string, final: string): (r: seq<string>)
    ensures |r| <= 1
    ensures r == [] <==> NewFinalChunk(lastFinal, final).None?
    ensures r != [] ==> r[0] != [] && r[0] == NewFinalChunk(lastFinal, final).value
  {
    match NewFinalChunk(lastFinal, final)
    case Some(chunk) => [chunk]
    case None => []
  }

  /** The displayed log after an event: the new chunk on a line of its own. */
  function LogAfter(log: string, lastFinal: string, final: string): (r: string)
    ensures log <= r
    ensures NewFinalChunk(lastFinal, final).None? ==> r == log
    ensures NewFinalChunk(lastFinal, final).Some? ==> r == AppendLine(log, NewFinalChunk(lastFinal, final).value)
  {
    match NewFinalChunk(lastFinal, final)
    case Some(chunk) => AppendLine(log, chunk)
    case None => log
  }

  class Assistant {
    /** Whether the browser has a speech recogniser at all. */
    const supported: bool
    /** `VITE_GEMINI_API_KEY`, empty when not configured. */
    const apiKey: string

    /** `activationKeyword`, as the input box holds it. */
    var keyword: string
    /** `isListening`, the state the button and the input read. */
    var isListening: bool
    /** Whether `recognitionRef.current` has been set. */
    var hasRecognizer: bool
    /** Whether the current recogniser is running and delivering events. */
    var recognizing: bool
    /** Whether `audioStreamRef.current` holds a microphone stream. */
    var streamHeld: bool
    /** The keyword the installed handlers look for. */
    var sessionKeyword: string
    /** The history the installed handlers send as context. */
    var contextHistory: seq<string>

    /** `isRespondingRef.current`: set on activation, cleared as described per handler. */
    var responding: bool
    /** `globalInterimTranscriptRef.current`: final plus interim text of the last event. */
    var live: string
    /** `lastFinalTranscriptRef.current`: the final text last committed. */
    var lastFinal: string
    /** `interimTranscript`, the "Currently Hearing" box. */
    var shownLive: string
    /** `finalTranscript`, the conversation log. */
    var log: string
    /** `conversationHistory`. */
    var history: seq<string>
    /** `aiResponse`, the text last handed to `speakResponse`. */
    var aiResponse: string
    var status: Status
    var voice: Option<Voice>

    /** The prompts of the requests whose `fetchWithBackoff` has not settled. */
    var requests: seq<string>
    /** The utterances handed to the synthesiser whose end has not yet been handled. */
    var speech: seq<string>

    /** What holds in every reachable state. */
    ghost predicate Valid()
      reads this`keyword, this`sessionKeyword, this`isListening, this`hasRecognizer
      reads this`recognizing, this`streamHeld, this`requests
    {
      keyword != [] && sessionKeyword != [] &&
      (isListening ==> hasRecognizer && keyword == sessionKeyword) &&
      (recognizing ==> isListening) &&
      isListening == streamHeld &&
      (apiKey == [] ==> requests == [])
    }

    /** What the guard is for: at most one request in flight, and the guard
        held while a request is in flight or, when a key is configured, while
        its answer is being spoken. */
    ghost predicate SingleFlight()
      reads this`requests, this`responding, this`speech
    {
      |requests| <= 1 && (requests != [] ==> responding) &&
      (apiKey != [] ==> |requests| + |speech| <= 1 && (speech != [] ==> responding))
    }

    /** Recognition runs for as long as the user has not stopped listening. */
    ghost predicate KeepsListening()
      reads this`isListening, this`recognizing
    {
      isListening ==> recognizing
    }

    constructor (supported: bool, apiKey: string)
      ensures this.supported == supported && this.apiKey == apiKey
      ensures keyword == DefaultKeyword && sessionKeyword == DefaultKeyword
      ensures !isListening && !hasRecognizer && !recognizing && !streamHeld && !responding
      ensures live == [] && lastFinal == [] && shownLive == [] && log == [] && aiResponse == []
      ensures history == [] && contextHistory == [] && requests == [] && speech == []
      ensures status == Inactive && voice == None
      ensures Valid() && SingleFlight() && KeepsListening()
    {
      this.supported, this.apiKey := supported, apiKey;
      keyword, sessionKeyword := DefaultKeyword, DefaultKeyword;
      isListening, hasRecognizer, recognizing, streamHeld, responding := false, false, false, false, false;
      live, lastFinal, shownLive, log, aiResponse := [], [], [], [], [];
      history, contextHistory, requests, speech := [], [], [], [];
      status, voice := Inactive, None;
    }

    /** The keyword input's change handler; the input is disabled while listening. */
    method SetKeyword(raw: string)
      requires Valid()
      modifies this`keyword
      ensures keyword == if isListening then old(keyword) else NormaliseKeyword(raw)
      ensures Valid()
    {
      if !isListening {
        keyword := NormaliseKeyword(raw);
      }
    }

    /** `startListening`: nothing while already listening or without a
        recogniser; nothing but an alert when the microphone is refused;
        otherwise the stream is held, a recogniser is created and started
        with handlers that capture the current keyword and history. */
    method StartListening(micGranted: bool) returns (started: bool)
      requires Valid()
      modifies this`isListening, this`hasRecognizer, this`recognizing, this`streamHeld
      modifies this`sessionKeyword, this`contextHistory, this`status
      ensures started <==> !old(isListening) && supported && micGranted
      ensures started ==> (isListening && recognizing && streamHeld && hasRecognizer &&
                           sessionKeyword == keyword && contextHistory == history && status == ListeningForKeyword)
      ensures !started ==> (isListening == old(isListening) && recognizing == old(recognizing) &&
                            streamHeld == old(streamHeld) && hasRecognizer == old(hasRecognizer) &&
                            sessionKeyword == old(sessionKeyword) && contextHistory == old(contextHistory) &&
                            status == old(status))
      ensures Valid() && (old(KeepsListening()) ==> KeepsListening())
    {
      if isListening || !supported {
        return false;
      }
      if !micGranted {
        // the alert of the catch block
        return false;
      }
      streamHeld := true;
      isListening := true;
      hasRecognizer := true;
      sessionKeyword, contextHistory := keyword, history;
      recognizing := true;
      status := ListeningForKeyword;
      started := true;
    }

    /** `stopListening` as the button calls it: nothing unless listening;
        otherwise recognition is stopped, the stream released and the status reset. */
    method StopListening()
      requires Valid()
      modifies this`isListening, this`recognizing, this`streamHeld, this`status
      ensures old(isListening) ==> !isListening && !recognizing && !streamHeld && status == Inactive
      ensures !old(isListening) ==> (isListening == old(isListening) && recognizing == old(recognizing) &&
                                     streamHeld == old(streamHeld) && status == old(status))
      ensures Valid() && KeepsListening()
    {
      if !isListening || !hasRecognizer {
        return;
      }
      isListening := false;
      recognizing := false;
      streamHeld := false;
      status := Inactive;
    }

    /** `onend`, as written: the refs are cleared, and the restart is guarded
        by the captured `isListening`, which is false, so recognition is never
        restarted, even though the user is still listening. */
    method OnEnd() returns (restarted: bool)
      requires Valid()
      modifies this`live, this`lastFinal, this`recognizing
      ensures live == [] && lastFinal == []
      ensures !restarted && !recognizing
      ensures Valid()
    {
      live, lastFinal := [], [];
      var capturedListening := false;
      restarted := capturedListening;
      recognizing := restarted;
    }

    /** `onend` reading the current `isListening`, as the handler evidently
        intends (and as the second draft's handler does): recognition is
        restarted exactly when the user is still listening. */
    method OnEndRestarting() returns (restarted: bool)
      requires Valid()
      modifies this`live, this`lastFinal, this`recognizing
      ensures live == [] && lastFinal == []
      ensures restarted <==> isListening
      ensures recognizing == isListening
      ensures Valid() && KeepsListening()
    {
      live, lastFinal := [], [];
      restarted := isListening;
      recognizing := restarted;
    }

    /** `onerror`: a refused microphone calls the captured `stopListening`,
        which returns at its guard since the `isListening` it reads is false;
        nothing changes and the stream stays held. */
    method OnError(error: string) returns (stopCalled: bool)
      requires Valid()
      ensures stopCalled <==> error == NotAllowed
      ensures Valid()
    {
      // the captured `stopListening` returns at its `!isListening` guard
      stopCalled := error == NotAllowed;
    }

    /** `speakResponse` up to `speak`: the text is shown and queued for speech. */
    method Speak(text: string)
      modifies this`aiResponse, this`speech
      ensures aiResponse == text && speech == old(speech) + [text]
    {
      aiResponse := text;
      speech := speech + [text];
    }

    /** `getAiResponse` up to its first `await`: the status says thinking;
        without a key the error message is spoken and the guard released;
        otherwise the request with the captured context goes out. */
    method GetAiResponse(command: string)
      requires Valid()
      modifies this`status, this`aiResponse, this`speech, this`responding, this`requests
      ensures status == Thinking
      ensures apiKey == [] ==> (aiResponse == MissingKeyMessage && speech == old(speech) + [MissingKeyMessage] &&
                                !responding && requests == old(requests))
      ensures apiKey != [] ==> (aiResponse == old(aiResponse) && speech == old(speech) &&
                                responding == old(responding) && requests == old(requests) + [BuildPrompt(contextHistory, command)])
      ensures Valid()
    {
      status := Thinking;
      if apiKey == [] {
        Speak(MissingKeyMessage);
        responding := false;
        return;
      }
      requests := requests + [BuildPrompt(contextHistory, command)];
    }

    /** `onresult`: the slots are split into final and interim text; a new,
        non-blank final chunk is appended to the history and the log; then the
        keyword is looked for in the whole live text and, if the gate opens,
        the guard is taken and the command sent. */
    method OnResult(ev: Event) returns (fired: bool)
      requires Valid()
      modifies this`live, this`shownLive, this`lastFinal, this`history, this`log
      modifies this`status, this`aiResponse, this`speech, this`responding, this`requests
      ensures live == FinalText(ev) + InterimText(ev) && shownLive == live
      ensures lastFinal == AfterCommit(old(lastFinal), FinalText(ev))
      ensures history == old(history) + ChunkEntry(old(lastFinal), FinalText(ev))
      ensures log == LogAfter(old(log), old(lastFinal), FinalText(ev))
      ensures fired <==> TempAppFires(old(responding), Detect(live, sessionKeyword), FinalText(ev), InterimText(ev))
      ensures !fired ==> (status == old(status) && aiResponse == old(aiResponse) && speech == old(speech) &&
                          responding == old(responding) && requests == old(requests))
      ensures fired ==> status == Thinking
      ensures fired && apiKey == [] ==> (aiResponse == MissingKeyMessage &&
                                         speech == old(speech) + [MissingKeyMessage] && !responding && requests == old(requests))
      ensures fired && apiKey != [] ==> (aiResponse == old(aiResponse) && speech == old(speech) && responding &&
                                         requests == old(requests) + [BuildPrompt(contextHistory, Detect(live, sessionKeyword).value.command)])
      ensures Valid()
      ensures old(SingleFlight()) ==> SingleFlight()
    {
      var final, interim := SplitSlots(ev);
      fired := Hear(final, interim);
    }

    /** The rest of `onresult`, once the slots are split. */
    method Hear(final: string, interim: string) returns (fired: bool)
      requires Valid()
      modifies this`live, this`shownLive, this`lastFinal, this`history, this`log
      modifies this`status, this`aiResponse, this`speech, this`responding, this`requests
      ensures live == final + interim && shownLive == live
      ensures lastFinal == AfterCommit(old(lastFinal), final)
      ensures history == old(history) + ChunkEntry(old(lastFinal), final)
      ensures log == LogAfter(old(log), old(lastFinal), final)
      ensures fired <==> TempAppFires(old(responding), Detect(live, sessionKeyword), final, interim)
      ensures !fired ==> (status == old(status) && aiResponse == old(aiResponse) && speech == old(speech) &&
                          responding == old(responding) && requests == old(requests))
      ensures fired ==> status == Thinking
      ensures fired && apiKey == [] ==> (aiResponse == MissingKeyMessage &&
                                         speech == old(speech) + [MissingKeyMessage] && !responding && requests == old(requests))
      ensures fired && apiKey != [] ==> (aiResponse == old(aiResponse) && speech == old(speech) && responding &&
                                         requests == old(requests) + [BuildPrompt(contextHistory, Detect(live, sessionKeyword).value.command)])
      ensures Valid()
      ensures old(SingleFlight()) ==> SingleFlight()
    {
      Transcribe(final, interim);
      fired := Activate(Detect(final + interim, sessionKeyword), final, interim);
    }

    /** The display step of `onresult`: the live text is shown, then committed. */
    method Transcribe(final: string, interim: string)
      requires Valid()
      modifies this`live, this`shownLive, this`lastFinal, this`history, this`log
      ensures live == final + interim && shownLive == live
      ensures lastFinal == AfterCommit(old(lastFinal), final)
      ensures history == old(history) + ChunkEntry(old(lastFinal), final)
      ensures log == LogAfter(old(log), old(lastFinal), final)
      ensures Valid()
    {
      live := final + interim;
      shownLive := live;
      Commit(final);
    }

    /** The commit step of `onresult`. */
    method Commit(final: string)
      requires Valid()
      modifies this`lastFinal, this`history, this`log
      ensures lastFinal == AfterCommit(old(lastFinal), final)
      ensures history == old(history) + ChunkEntry(old(lastFinal), final)
      ensures log == LogAfter(old(log), old(lastFinal), final)
      ensures Valid()
    {
      var chunk := NewFinalChunk(lastFinal, final);
      if chunk.Some? {
        history := history + [chunk.value];
        log := AppendLine(log, chunk.value);
        lastFinal := final;
      }
    }

    /** The gate step of `onresult`, given what the keyword search found. */
    method Activate(d: Option<Detection>, final: string, interim: string) returns (fired: bool)
      requires Valid()
      modifies this`status, this`aiResponse, this`speech, this`responding, this`requests
      ensures fired <==> TempAppFires(old(responding), d, final, interim)
      ensures !fired ==> (status == old(status) && aiResponse == old(aiResponse) && speech == old(speech) &&
                          responding == old(responding) && requests == old(requests))
      ensures fired ==> status == Thinking
      ensures fired && apiKey == [] ==> (aiResponse == MissingKeyMessage &&
                                         speech == old(speech) + [MissingKeyMessage] && !responding && requests == old(requests))
      ensures fired && apiKey != [] ==> (aiResponse == old(aiResponse) && speech == old(speech) && responding &&
                                         requests == old(requests) + [BuildPrompt(contextHistory, d.value.command)])
      ensures Valid()
      ensures old(SingleFlight()) ==> SingleFlight()
    {
      fired := TempAppFires(responding, d, final, interim);
      if fired {
        responding := true;
        GetAiResponse(d.value.command);
      }
    }

    /** A pending request settles (requests may settle in any order): the
        network's answers go through `fetchWithBackoff`, the reply text or the
        apology is spoken, and a reply is added to the history. As written,
        a failure releases the guard at once, while the apology is still to
        be spoken. */
    method CompleteRequest(i: nat, network: seq<Outcome<Body>>) returns (r: FetchResult<Body>, attempts: nat, waits: seq<nat>)
      requires Valid()
      requires i < |requests| && |network| >= MaxAttempts
      modifies this`requests, this`aiResponse, this`speech, this`history, this`responding
      ensures requests == old(requests[..i] + requests[i + 1..])
      ensures 1 <= attempts <= MaxAttempts && forall k :: 0 <= k < attempts - 1 ==> !IsOk(network[k])
      ensures r.Fetched? <==> IsOk(network[attempts - 1])
      ensures r.Fetched? ==> r.body == network[attempts - 1].body && waits == Waits(attempts - 1)
      ensures r.GaveUp? ==> attempts == MaxAttempts && waits == Waits(MaxAttempts)
      ensures Answered(AnswerFor(r), old(speech), old(history), old(responding), true)
      ensures Valid()
    {
      r, attempts, waits := FetchWithBackoff(network);
      var answer := AnswerFor(r);
      requests := requests[..i] + requests[i + 1..];
      Speak(answer.spoken);
      if answer.succeeded {
        history := history + [AiPrefix + answer.spoken];
      } else {
        responding := false;
      }
    }

    /** The state after an answer: it is shown and queued for speech, a
        successful reply is added to the history, and a failure releases the
        guard when `releaseOnFailure` holds and keeps it otherwise. */
    ghost predicate Answered(a: Answer, speechBefore: seq<string>, historyBefore: seq<string>,
                             respondingBefore: bool, releaseOnFailure: bool)
      reads this
    {
      aiResponse == a.spoken && speech == speechBefore + [a.spoken] &&
      history == historyBefore + (if a.succeeded then [AiPrefix + a.spoken] else []) &&
      responding == (if !a.succeeded && releaseOnFailure then false else respondingBefore)
    }

    /** The settlement the guard needs (and the second draft has): a failure
        keeps the guard, which only the end of the apology releases. It keeps
        a single request in flight. */
    method CompleteRequestHeld(i: nat, network: seq<Outcome<Body>>) returns (r: FetchResult<Body>, attempts: nat, waits: seq<nat>)
      requires Valid()
      requires i < |requests| && |network| >= MaxAttempts
      modifies this`requests, this`aiResponse, this`speech, this`history, this`responding
      ensures requests == old(requests[..i] + requests[i + 1..])
      ensures 1 <= attempts <= MaxAttempts && forall k :: 0 <= k < attempts - 1 ==> !IsOk(network[k])
      ensures r.Fetched? <==> IsOk(network[attempts - 1])
      ensures r.Fetched? ==> r.body == network[attempts - 1].body && waits == Waits(attempts - 1)
      ensures r.GaveUp? ==> attempts == MaxAttempts && waits == Waits(MaxAttempts)
      ensures Answered(AnswerFor(r), old(speech), old(history), old(responding), false)
      ensures Valid()
      ensures old(SingleFlight()) ==> SingleFlight()
    {
      r, attempts, waits := FetchWithBackoff(network);
      var answer := AnswerFor(r);
      requests := requests[..i] + requests[i + 1..];
      Speak(answer.spoken);
      if answer.succeeded {
        history := history + [AiPrefix + answer.spoken];
      }
    }

    /** The first queued utterance starts. */
    method OnSpeechStart()
      requires speech != []
      modifies this`status
      ensures status == Speaking
    {
      status := Speaking;
    }

    /** Half a second after the first queued utterance ends: the guard is
        released, whoever holds it, and the status reads the captured
        `isListening`, which is false. */
    method OnSpeechSettled()
      requires Valid()
      requires speech != []
      modifies this`speech, this`responding, this`status
      ensures speech == old(speech[1..]) && !responding && status == Inactive
      ensures Valid()
      ensures old(SingleFlight()) ==> SingleFlight()
    {
      speech := speech[1..];
      responding := false;
      var capturedListening := false;
      status := if capturedListening then ListeningForKeyword else Inactive;
    }

    /** `loadAndSetVoice`: an empty list keeps the voice; otherwise the voice
        chosen is the preferred one. */
    method LoadVoice(voices: seq<Voice>)
      modifies this`voice
      ensures voices == [] ==> voice == old(voice)
      ensures voices != [] ==> voice == PreferredVoice(voices) && voice.Some? && voice.value in voices
    {
      if |voices| == 0 {
        return;
      }
      voice := ChooseVoice(voices);
      ChooseVoiceIsPreferred(voices);
    }
  }

  /** The restart the handler skips: after starting and a natural end of
      recognition the user is still listening but nothing is recognised. */
  method EndWithoutRestart() returns (a: Assistant)
    ensures a.isListening && !a.recognizing && !a.KeepsListening()
  {
    a := new Assistant(true, "key");
    var started := a.StartListening(true);
    var restarted := a.OnEnd();
  }

  /** With `onend` reading the current `isListening`, the same start and
      natural end leave recognition running. */
  method EndWithRestart() returns (a: Assistant)
    ensures a.isListening && a.recognizing && a.KeepsListening()
  {
    a := new Assistant(true, "key");
    var started := a.StartListening(true);
    var restarted := a.OnEndRestarting();
  }

  /** An event holding one final slot: the spoken request to the assistant. */
  const HeyEvent: Event := [Slot(HeyAssistant, true)]

  /** The event's texts, and the activation it causes on an idle guard. */
  lemma HeyEventFires()
    ensures FinalText(HeyEvent) == HeyAssistant && InterimText(HeyEvent) == []
    ensures FinalText(HeyEvent) + InterimText(HeyEvent) == HeyAssistant
    ensures TempAppFires(false, Detect(HeyAssistant, DefaultKeyword), HeyAssistant, [])
    ensures Detect(HeyAssistant, DefaultKeyword).value.command == "what time is it"
    ensures Activates(HeyEvent)
  {
    HeyEventTexts();
    HeyAssistantDetected();
    var d := Detect(HeyAssistant, DefaultKeyword);
    assert |d.value.command| == 15;
  }

  lemma HeyEventTexts()
    ensures FinalText(HeyEvent) == HeyAssistant && InterimText(HeyEvent) == []
    ensures FinalText(HeyEvent) + InterimText(HeyEvent) == HeyAssistant
  {
    assert HeyEvent[..0] == [];
    assert FinalText(HeyEvent) == FinalText([]) + HeyAssistant;
    assert InterimText(HeyEvent) == InterimText([]) + [];
  }

  /** The activation an event causes on an idle guard, when the handlers
      look for the default keyword and nothing interim is pending. */
  ghost predicate Activates(ev: Event)
  {
    TempAppFires(false, Detect(FinalText(ev) + InterimText(ev), DefaultKeyword), FinalText(ev), InterimText(ev))
  }

  /** One delivery of an activating event to a listening assistant whose
      guard is free: the guard is taken and a request goes out. */
  method DeliverActivating(a: Assistant, ev: Event)
    requires a.Valid() && a.apiKey != [] && !a.responding && a.sessionKeyword == DefaultKeyword
    requires Activates(ev)
    modifies a`live, a`shownLive, a`lastFinal, a`history, a`log
    modifies a`status, a`aiResponse, a`speech, a`responding, a`requests
    ensures a.Valid() && a.responding
    ensures |a.requests| == |old(a.requests)| + 1 && a.speech == old(a.speech)
  {
    var fired := a.OnResult(ev);
  }

  /** The first pending request fails on every attempt. */
  method FailFirstRequest(a: Assistant)
    requires a.Valid() && a.requests != []
    modifies a`requests, a`aiResponse, a`speech, a`history, a`responding
    ensures a.Valid() && !a.responding
    ensures |a.requests| == |old(a.requests)| - 1 && a.speech == old(a.speech) + [Apology]
  {
    var down: Outcome<Body> := NetworkError;
    var network := [down, down, down, down, down];
    assert forall k :: 0 <= k < |network| ==> !IsOk(network[k]);
    var r, attempts, waits := a.CompleteRequest(0, network);
  }

  /** Two requests in flight, for any event that activates the assistant
      (such as `HeyEvent`): a failed request releases the guard while its
      apology is queued; the same utterance, still in the live text, fires
      again; the apology's end then releases the guard the second request
      holds, and the utterance fires a third time. */
  method GuardRace(ev: Event) returns (a: Assistant)
    requires Activates(ev)
    ensures |a.requests| == 2 && !a.SingleFlight()
  {
    a := new Assistant(true, "key");
    var started := a.StartListening(true);
    DeliverActivating(a, ev);
    FailFirstRequest(a);
    DeliverActivating(a, ev);
    assert |a.requests| == 1 && a.speech == [Apology];
    a.OnSpeechSettled();
    DeliverActivating(a, ev);
  }

  /** The first pending request fails on every attempt, settled as the
      guard needs: the guard stays taken. */
  method FailFirstRequestHeld(a: Assistant)
    requires a.Valid() && a.requests != []
    modifies a`requests, a`aiResponse, a`speech, a`history, a`responding
    ensures a.Valid() && a.responding == old(a.responding)
    ensures |a.requests| == |old(a.requests)| - 1 && a.speech == old(a.speech) + [Apology]
    ensures old(a.SingleFlight()) ==> a.SingleFlight()
  {
    var down: Outcome<Body> := NetworkError;
    var network := [down, down, down, down, down];
    assert forall k :: 0 <= k < |network| ==> !IsOk(network[k]);
    var r, attempts, waits := a.CompleteRequestHeld(0, network);
  }

  /** The race closed: when a failure keeps the guard, the utterance still
      in the live text does not fire again while the apology is queued, and
      one request or reply at a time is under way. */
  method NoRaceWhenHeld(ev: Event) returns (a: Assistant, refired: bool)
    requires Activates(ev)
    ensures !refired && a.requests == [] && a.speech == [Apology] && a.responding && a.SingleFlight()
  {
    a := new Assistant(true, "key");
    var started := a.StartListening(true);
    DeliverActivating(a, ev);
    FailFirstRequestHeld(a);
    refired := a.OnResult(ev);
  }
}
