/** The second draft of the assistant (`src/`): the state lives in `App`
    and is handed to two components, `SpeechRecognitionComponent` (the
    recogniser, its handlers and the listening button) and
    `AIResponseHandler` (the voice, the request and the spoken reply). They
    share the responding guard `isRespondingRef`. The model keeps all of it
    in one object, as `App` does, with each component's handlers as methods.

    The recognition handlers are installed again whenever `isListening` or
    the keyword changes, so they read the current values. Nothing in this
    draft calls `getAiResponse` (and `App` does not render the handler), so
    the guard that `onresult` takes is never released. */
module SrcApp {
  import opened JsString
  import opened Options
  import opened Recognition
  import opened Keyword
  import opened Backoff
  import opened Gemini
  import opened Voices
  import opened Ui

  /** The history entry of one event: the whole final text, trimmed, as soon
      as there is any final text, even when it is blank. */
  function FinalEntry(final: string): (r: seq<string>)
    ensures |r| <= 1 && (r == [] <==> final == [])
    ensures r != [] ==> (r[0] == [] <==> AllSpace(final)) && |r[0]| <= |final|
  {
    if final == [] then [] else [Trim(final)]
  }

  /** The log after one event: the trimmed final text on a line of its own. */
  function LogWith(log: string, final: string): string
  {
    if final == [] then log else AppendLine(log, Trim(final))
  }

  class Assistant {
    /** Whether the browser has a speech recogniser, so that the effect set `recognitionRef.current`. */
    const supported: bool
    /** `VITE_GEMINI_API_KEY`, empty when not configured. */
    const apiKey: string

    /** `activationKeyword`, exactly as typed into the input. */
    var keyword: string
    var isListening: bool
    /** Whether the recogniser is running and delivering events. */
    var recognizing: bool
    /** Whether `audioStreamRef.current` holds a microphone stream. */
    var streamHeld: bool
    /** `isRespondingRef.current`, shared by both components. */
    var responding: bool
    /** `interimTranscript`: final plus interim text of the last event. */
    var shownLive: string
    /** `finalTranscript`, the conversation log. */
    var log: string
    /** `conversationHistory`. */
    var history: seq<string>
    /** `aiResponse`. */
    var aiResponse: string
    var status: Status
    var voice: Option<Voice>

    /** The prompts of the requests whose `fetchWithBackoff` has not settled. */
    var requests: seq<string>
    /** The utterances handed to the synthesiser whose end has not yet been handled. */
    var speech: seq<string>

    /** What holds in every reachable state: listening needs a recogniser
        and a microphone stream. */
    ghost predicate Valid()
      reads this`isListening, this`recognizing, this`streamHeld
    {
      (isListening ==> supported && streamHeld) && (recognizing ==> supported)
    }

    /** Recognition runs for as long as the user has not stopped listening. */
    ghost predicate KeepsListening()
      reads this`isListening, this`recognizing
    {
      isListening ==> recognizing
    }

    /** What the guard is for: at most one request or reply under way, and
        the guard held while there is one. */
    ghost predicate SingleFlight()
      reads this`requests, this`speech, this`responding
    {
      |requests| + |speech| <= 1 && (requests != [] || speech != [] ==> responding)
    }

    constructor (supported: bool, apiKey: string)
      ensures this.supported == supported && this.apiKey == apiKey
      ensures keyword == DefaultKeyword
      ensures !isListening && !recognizing && !streamHeld && !responding
      ensures shownLive == [] && log == [] && history == [] && aiResponse == []
      ensures requests == [] && speech == [] && status == Inactive && voice == None
      ensures Valid() && KeepsListening() && SingleFlight()
    {
      this.supported, this.apiKey := supported, apiKey;
      keyword := DefaultKeyword;
      isListening, recognizing, streamHeld, responding := false, false, false, false;
      shownLive, log, history, aiResponse := [], [], [], [];
      requests, speech := [], [];
      status, voice := Inactive, None;
    }

    /** The keyword input's change handler: the text is taken as typed, and
        the input stays enabled while listening. */
    method SetKeyword(raw: string)
      modifies this`keyword
      ensures keyword == raw
    {
      keyword := raw;
    }

    // -------------------------------------------------------------------
    // SpeechRecognitionComponent

    /** `startListening`: nothing while already listening or without a
        recogniser; nothing but an alert when the microphone is refused;
        otherwise the stream is held, the status says listening and the
        recogniser is started. */
    method StartListening(micGranted: bool) returns (started: bool)
      requires Valid()
      modifies this`isListening, this`recognizing, this`streamHeld, this`status
      ensures started <==> !old(isListening) && supported && micGranted
      ensures started ==> isListening && recognizing && streamHeld && status == ListeningForKeyword
      ensures !started ==> (isListening == old(isListening) && recognizing == old(recognizing) &&
                            streamHeld == old(streamHeld) && status == old(status))
      ensures Valid() && (old(KeepsListening()) ==> KeepsListening())
    {
      if isListening || !supported {
        return false;
      }
      if !micGranted {
        // the alert of the catch block
        return false;
      }
      streamHeld := true;
      isListening := true;
      status := ListeningForKeyword;
      recognizing := true;
      started := true;
    }

    /** `stopListening`: nothing unless listening; otherwise recognition is
        stopped, the stream released and the status reset. */
    method StopListening()
      requires Valid()
      modifies this`isListening, this`recognizing, this`streamHeld, this`status
      ensures old(isListening) ==> !isListening && !recognizing && !streamHeld && status == Inactive
      ensures !old(isListening) ==> (isListening == old(isListening) && recognizing == old(recognizing) &&
                                     streamHeld == old(streamHeld) && status == old(status))
      ensures Valid() && KeepsListening()
    {
      if !isListening || !supported {
        return;
      }
      isListening := false;
      recognizing := false;
      streamHeld := false;
      status := Inactive;
    }

    /** `onend`: recognition is restarted exactly when the user is still listening. */
    method OnEnd() returns (restarted: bool)
      requires Valid()
      modifies this`recognizing
      ensures restarted <==> isListening
      ensures recognizing == isListening
      ensures Valid() && KeepsListening()
    {
      restarted := isListening;
      recognizing := restarted;
    }

    /** `onerror`: a refused microphone sets listening off and the status to
        inactive, without stopping the stream, which stays held. */
    method OnError(error: string)
      requires Valid()
      modifies this`isListening, this`status
      ensures error == NotAllowed ==> !isListening && status == Inactive
      ensures error != NotAllowed ==> isListening == old(isListening) && status == old(status)
      ensures Valid()
    {
      if error == NotAllowed {
        isListening := false;
        status := Inactive;
      }
    }

    /** `onresult`: the slots are split into final and interim text; any
        final text, trimmed, is appended to the history and the log; then the
        keyword is looked for in the live text and, if the gate opens, the
        guard is taken and the status says thinking. No request is made. */
    method OnResult(ev: Event) returns (fired: bool)
      modifies this`shownLive, this`history, this`log, this`responding, this`status
      ensures shownLive == FinalText(ev) + InterimText(ev)
      ensures history == old(history) + FinalEntry(FinalText(ev))
      ensures log == LogWith(old(log), FinalText(ev))
      ensures fired <==> SrcFires(old(responding), Detect(shownLive, keyword))
      ensures responding == (old(responding) || fired)
      ensures status == if fired then Thinking else old(status)
    {
      var final, interim := SplitSlots(ev);
      Record(final, interim);
      fired := Gate(Detect(final + interim, keyword));
    }

    /** The display and history step of `onresult`. */
    method Record(final: string, interim: string)
      modifies this`shownLive, this`history, this`log
      ensures shownLive == final + interim
      ensures history == old(history) + FinalEntry(final)
      ensures log == LogWith(old(log), final)
    {
      shownLive := final + interim;
      if final != [] {
        history := history + [Trim(final)];
        log := AppendLine(log, Trim(final));
      }
    }

    /** The gate step of `onresult`, given what the keyword search found. */
    method Gate(d: Option<Detection>) returns (fired: bool)
      modifies this`responding, this`status
      ensures fired <==> SrcFires(old(responding), d)
      ensures responding == (old(responding) || fired)
      ensures status == if fired then Thinking else old(status)
    {
      fired := SrcFires(responding, d);
      if fired {
        responding := true;
        status := Thinking;
      }
    }

    // -------------------------------------------------------------------
    // AIResponseHandler

    /** `loadVoice`: an empty list keeps the voice; otherwise the voice
        chosen is the preferred one. */
    method LoadVoice(voices: seq<Voice>)
      modifies this`voice
      ensures voices == [] ==> voice == old(voice)
      ensures voices != [] ==> voice == PreferredVoice(voices) && voice.Some? && voice.value in voices
    {
      if |voices| == 0 {
        return;
      }
      voice := ChooseVoice(voices);
      ChooseVoiceIsPreferred(voices);
    }

    /** `getAiResponse` up to its first `await`: without a key the error
        message is shown (not spoken) and the guard released; otherwise the
        status says thinking and the request with the current history goes out. */
    method GetAiResponse(query: string)
      modifies this`aiResponse, this`responding, this`status, this`requests
      ensures apiKey == [] ==> (aiResponse == MissingKeyMessage && !responding &&
                                status == old(status) && requests == old(requests))
      ensures apiKey != [] ==> (aiResponse == old(aiResponse) && responding == old(responding) &&
                                status == Thinking && requests == old(requests) + [BuildPrompt(history, query)])
      ensures old(responding) && old(requests) == [] && old(speech) == [] ==> SingleFlight()
    {
      if apiKey == [] {
        aiResponse := MissingKeyMessage;
        responding := false;
        return;
      }
      status := Thinking;
      requests := requests + [BuildPrompt(history, query)];
    }

    /** `speakResponse` up to `speak`: the text is shown and queued for speech. */
    method Speak(text: string)
      modifies this`aiResponse, this`speech
      ensures aiResponse == text && speech == old(speech) + [text]
    {
      aiResponse := text;
      speech := speech + [text];
    }

    /** A pending request settles: the network's answers go through
        `fetchWithBackoff` and the reply text or the apology is spoken. The
        guard and the history are left alone. */
    method CompleteRequest(i: nat, network: seq<Outcome<Body>>) returns (r: FetchResult<Body>, attempts: nat, waits: seq<nat>)
      requires i < |requests| && |network| >= MaxAttempts
      modifies this`requests, this`aiResponse, this`speech
      ensures requests == old(requests[..i] + requests[i + 1..])
      ensures 1 <= attempts <= MaxAttempts && forall k :: 0 <= k < attempts - 1 ==> !IsOk(network[k])
      ensures r.Fetched? <==> IsOk(network[attempts - 1])
      ensures r.Fetched? ==> r.body == network[attempts - 1].body && waits == Waits(attempts - 1)
      ensures r.GaveUp? ==> attempts == MaxAttempts && waits == Waits(MaxAttempts)
      ensures aiResponse == AnswerFor(r).spoken && speech == old(speech) + [AnswerFor(r).spoken]
      ensures old(SingleFlight()) ==> SingleFlight()
    {
      r, attempts, waits := FetchWithBackoff(network);
      requests := requests[..i] + requests[i + 1..];
      Speak(AnswerFor(r).spoken);
    }

    /** The first queued utterance starts. */
    method OnSpeechStart()
      requires speech != []
      modifies this`status
      ensures status == Speaking
    {
      status := Speaking;
    }

    /** Half a second after the first queued utterance ends: the guard is
        released and the status says listening. */
    method OnSpeechSettled()
      requires speech != []
      modifies this`speech, this`responding, this`status
      ensures speech == old(speech[1..]) && !responding && status == ListeningForKeyword
      ensures old(SingleFlight()) ==> SingleFlight()
    {
      speech := speech[1..];
      responding := false;
      status := ListeningForKeyword;
    }
  }

  /** The activation an event causes on a free guard when the keyword is the default one. */
  ghost predicate Activates(ev: Event)
  {
    SrcFires(false, Detect(FinalText(ev) + InterimText(ev), DefaultKeyword))
  }

  /** "hey assistant what time is it", heard as one final slot, activates this draft. */
  lemma HeyActivates()
    ensures Activates([Slot(HeyAssistant, true)])
  {
    var ev := [Slot(HeyAssistant, true)];
    assert ev[..0] == [];
    assert FinalText(ev) == FinalText([]) + HeyAssistant;
    assert InterimText(ev) == InterimText([]) + [];
    assert FinalText(ev) + InterimText(ev) == HeyAssistant;
    HeyAssistantDetected();
  }

  /** Nothing in this draft releases the guard the first activation takes,
      so the same utterance, delivered again, is ignored. */
  method OnlyFirstActivation(ev: Event) returns (a: Assistant, first: bool, second: bool)
    requires Activates(ev)
    ensures first && !second && a.responding && a.status == Thinking
  {
    a := new Assistant(true, "key");
    var started := a.StartListening(true);
    first := a.OnResult(ev);
    assert Detect(a.shownLive, a.keyword) == Detect(FinalText(ev) + InterimText(ev), DefaultKeyword);
    second := a.OnResult(ev);
  }

  /** A redelivered event records its final text twice: the history grows
      by one entry per event with final text, repeated or not. */
  method RedeliveryRecordedTwice(ev: Event) returns (a: Assistant)
    requires FinalText(ev) != []
    ensures a.history == [Trim(FinalText(ev)), Trim(FinalText(ev))]
  {
    a := new Assistant(true, "key");
    var first := a.OnResult(ev);
    var second := a.OnResult(ev);
  }

  /** Were the handler wired to `onresult`, a failed request would keep the
      guard through its apology: the utterance delivered again is ignored,
      and only the end of the apology frees the guard. */
  method GuardHeldThroughFailure(ev: Event) returns (a: Assistant, refired: bool)
    requires Activates(ev)
    ensures !refired && a.SingleFlight() && a.speech == [Apology] && a.responding
  {
    a := new Assistant(true, "key");
    var started := a.StartListening(true);
    DeliverAndAsk(a, ev);
    FailRequest(a);
    refired := a.OnResult(ev);
  }

  /** An activating event on a free guard, followed by the request the
      handler would make for its command. */
  method DeliverAndAsk(a: Assistant, ev: Event)
    requires a.apiKey != [] && a.keyword == DefaultKeyword
    requires !a.responding && a.requests == [] && a.speech == []
    requires Activates(ev)
    modifies a`shownLive, a`history, a`log, a`responding, a`status, a`aiResponse, a`requests
    ensures a.responding && |a.requests| == 1 && a.speech == [] && a.SingleFlight()
  {
    var fired := a.OnResult(ev);
    assert fired by {
      assert Detect(a.shownLive, a.keyword) == Detect(FinalText(ev) + InterimText(ev), DefaultKeyword);
    }
    a.GetAiResponse(Detect(a.shownLive, a.keyword).value.command);
  }

  /** The one pending request fails on every attempt. */
  method FailRequest(a: Assistant)
    requires |a.requests| == 1 && a.SingleFlight()
    modifies a`requests, a`aiResponse, a`speech
    ensures a.requests == [] && a.speech == old(a.speech) + [Apology] && a.SingleFlight()
  {
    var down: Outcome<Body> := NetworkError;
    var network := [down, down, down, down, down];
    assert forall k :: 0 <= k < |network| ==> !IsOk(network[k]);
    var r, attempts, waits := a.CompleteRequest(0, network);
  }
}
