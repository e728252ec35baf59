/** The request to and the reply from the text-generation service, as
    `getAiResponse` builds and reads them in both drafts. */
module Gemini {
  import opened JsString
  import opened Options
  import opened Backoff

  /** How many history entries the prompt carries (`slice(-10)`). */
  const ContextSize := 10

  const ContextHeader := "Conversation Context:\n"
  const QueryHeader := "\n\nUser Query: "

  /** Shown (and, in the temp-app draft, spoken) when no API key is configured. */
  const MissingKeyMessage := "API key not configured. Please set VITE_GEMINI_API_KEY in your environment variables."

  /** Spoken when the request or the reply fails. */
  const Apology := "Sorry, I had trouble processing that. Please try again."

  /** Prefix of the history entry recording a reply (temp-app draft). */
  const AiPrefix := "AI: "

  /** `history.slice(-10)`: the newest entries, at most ten of them, in order. */
  function RecentEntries(history: seq<string>): (r: seq<string>)
    ensures |r| == if |history| < ContextSize then |history| else ContextSize
    ensures r == history[|history| - |r|..]
  {
    if |history| < ContextSize then history else history[|history| - ContextSize..]
  }

  /** The user prompt: the recent history joined by newlines, then the query. */
  function BuildPrompt(history: seq<string>, query: string): (p: string)
    ensures StartsWith(p, ContextHeader)
    ensures |p| >= |ContextHeader| + |QueryHeader| + |query|
    ensures p[|p| - |query|..] == query
  {
    ContextHeader + Join(RecentEntries(history), "\n") + QueryHeader + query
  }

  /** The context part of a prompt: what lies between the two headers. */
  function ContextOf(p: string, query: string): string
    requires |p| >= |ContextHeader| + |QueryHeader| + |query|
  {
    p[|ContextHeader|..|p| - |QueryHeader| - |query|]
  }

  /** The context of the prompt is exactly the recent entries: splitting it
      at newlines gives back the last (at most ten) entries, in order,
      provided there is at least one and none contains a newline. */
  lemma PromptCarriesRecentEntries(history: seq<string>, query: string)
    requires history != []
    requires forall i :: 0 <= i < |history| ==> '\n' !in history[i]
    ensures Split(ContextOf(BuildPrompt(history, query), query), '\n') == RecentEntries(history)
  {
    var recent := RecentEntries(history);
    PromptContext(history, query);
    forall i | 0 <= i < |recent| ensures '\n' !in recent[i] {
      assert recent[i] == history[|history| - |recent| + i];
    }
    SplitJoin(recent, '\n');
  }

  /** For every history, empty or not, the context part of the prompt is
      the recent entries joined by newlines; an empty history gives an
      empty context. */
  lemma PromptContext(history: seq<string>, query: string)
    ensures ContextOf(BuildPrompt(history, query), query) == Join(RecentEntries(history), "\n")
    ensures history == [] ==> ContextOf(BuildPrompt(history, query), query) == []
  {
    var joined := Join(RecentEntries(history), "\n");
    assert BuildPrompt(history, query) == ContextHeader + joined + (QueryHeader + query);
    SliceMiddle(ContextHeader, joined, QueryHeader + query);
  }

  /** Dropping a known prefix and suffix gives back what lay between them. */
  lemma SliceMiddle(a: string, b: string, c: string)
    ensures (a + b + c)[|a|..|a + b + c| - |c|] == b
  {
    assert (a + b + c)[|a|..|a| + |b|] == b;
  }

  // ---------------------------------------------------------------------
  // The reply: `candidates[0].content.parts[0].text`, where every step of
  // the path may be missing.

  datatype Part = Part(text: Option<string>)
  datatype Content = Content(parts: Option<seq<Part>>)
  datatype Candidate = Candidate(content: Option<Content>)
  datatype Reply = Reply(candidates: Option<seq<Candidate>>)

  /** What `response.json()` gives: a parsed reply, or a rejection. */
  datatype Body = Json(reply: Reply) | NotJson

  /** The path `candidates[0].content.parts[0].text` exists in `body` and holds `t`. */
  ghost predicate TextAt(body: Body, t: string) {
    body.Json? && body.reply.candidates.Some? && |body.reply.candidates.value| > 0 &&
    body.reply.candidates.value[0].content.Some? &&
    body.reply.candidates.value[0].content.value.parts.Some? &&
    |body.reply.candidates.value[0].content.value.parts.value| > 0 &&
    body.reply.candidates.value[0].content.value.parts.value[0].text == Some(t)
  }

  /** The reply text if `candidates[0].content.parts[0].text` exists and is
      non-empty (JavaScript truthiness), otherwise nothing. */
  function ReplyText(body: Body): (r: Option<string>)
    ensures r.Some? ==> TextAt(body, r.value) && r.value != []
    ensures r.None? ==> forall t :: TextAt(body, t) ==> t == []
  {
    if body.NotJson? || body.reply.candidates.None? || |body.reply.candidates.value| == 0 then None
    else
      var candidate := body.reply.candidates.value[0];
      if candidate.content.None? || candidate.content.value.parts.None? || |candidate.content.value.parts.value| == 0 then None
      else
        var part := candidate.content.value.parts.value[0];
        if part.text.None? || part.text.value == [] then None else Some(part.text.value)
  }

  /** The body the service sends for one answer. */
  function BodyWith(text: string): Body
  {
    Json(Reply(Some([Candidate(Some(Content(Some([Part(Some(text))]))))])))
  }

  /** Reading back what the service sends gives the text, unless it is empty. */
  lemma ReplyTextOfBody(text: string)
    ensures ReplyText(BodyWith(text)) == if text == [] then None else Some(text)
  {
  }

  /** A missing step anywhere on the path, or an empty text, gives no reply text. */
  lemma ReplyTextMissingStep(more: seq<Candidate>, parts: seq<Part>)
    ensures ReplyText(NotJson) == None
    ensures ReplyText(Json(Reply(None))) == None
    ensures ReplyText(Json(Reply(Some([])))) == None
    ensures ReplyText(Json(Reply(Some([Candidate(None)] + more)))) == None
    ensures ReplyText(Json(Reply(Some([Candidate(Some(Content(None)))] + more)))) == None
    ensures ReplyText(Json(Reply(Some([Candidate(Some(Content(Some([]))))] + more)))) == None
    ensures ReplyText(Json(Reply(Some([Candidate(Some(Content(Some([Part(None)] + parts))))] + more)))) == None
    ensures ReplyText(Json(Reply(Some([Candidate(Some(Content(Some([Part(Some([]))] + parts))))] + more)))) == None
  {
  }

  /** Only the first candidate and its first part are read. */
  lemma ReplyTextReadsFirstOnly(c: Candidate, more: seq<Candidate>, p: Part, parts: seq<Part>)
    ensures ReplyText(Json(Reply(Some([c] + more)))) == ReplyText(Json(Reply(Some([c]))))
    ensures ReplyText(Json(Reply(Some([Candidate(Some(Content(Some([p] + parts))))])))) ==
            ReplyText(Json(Reply(Some([Candidate(Some(Content(Some([p]))))]))))
  {
  }

  /** What `getAiResponse` speaks once `fetchWithBackoff` has settled, and
      whether the reply was usable. */
  datatype Answer = Answer(spoken: string, succeeded: bool)

  function AnswerFor(fetch: FetchResult<Body>): (a: Answer)
    ensures a.succeeded <==> fetch.Fetched? && ReplyText(fetch.body).Some?
    ensures a.succeeded ==> a.spoken == ReplyText(fetch.body).value && a.spoken != []
    ensures !a.succeeded ==> a.spoken == Apology
  {
    if fetch.Fetched? && ReplyText(fetch.body).Some? then Answer(ReplyText(fetch.body).value, true)
    else Answer(Apology, false)
  }
}
