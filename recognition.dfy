/** What both drafts' `onresult` handlers do with one recognition event
    before they look for the keyword: split the result slots into final and
    interim text, and decide what part of the final text is new. */
module Recognition {
  import opened JsString
  import opened Options

  /** One result slot of a recognition event: the transcript of its first
      alternative and whether the recogniser has finalised it. */
  datatype Slot = Slot(transcript: string, isFinal: bool)

  /** The error code of a refused microphone, which both `onerror` handlers treat specially. */
  const NotAllowed := "not-allowed"

  /** The slots of one `onresult` event, in slot order. */
  type Event = seq<Slot>

  /** All final chunks of `ev`, concatenated in slot order. */
  function FinalText(ev: Event): string
  {
    if ev == [] then []
    else FinalText(ev[..|ev| - 1]) + (if ev[|ev| - 1].isFinal then ev[|ev| - 1].transcript else [])
  }

  /** All interim chunks of `ev`, concatenated in slot order. */
  function InterimText(ev: Event): string
  {
    if ev == [] then []
    else InterimText(ev[..|ev| - 1]) + (if ev[|ev| - 1].isFinal then [] else ev[|ev| - 1].transcript)
  }

  /** The loop at the top of both `onresult` handlers: walks the slots once,
      appending each chunk to the final or the interim text. */
  method SplitSlots(ev: Event) returns (final: string, interim: string)
    ensures final == FinalText(ev) && interim == InterimText(ev)
  {
    final, interim := "", "";
    var i := 0;
    while i < |ev|
      invariant 0 <= i <= |ev|
      invariant final == FinalText(ev[..i]) && interim == InterimText(ev[..i])
    {
      assert ev[..i + 1][..i] == ev[..i];
      var chunk := ev[i].transcript;
      if ev[i].isFinal {
        final := final + chunk;
      } else {
        interim := interim + chunk;
      }
      i := i + 1;
    }
    assert ev[..|ev|] == ev;
  }

  /**
    * Every character of an event lands in exactly one of the two texts:
    * together they hold the same characters, as often, as all the chunks
    * of the event read in slot order, and so are exactly as long.
    */
  lemma {:induction false} SplitKeepsEverything(ev: Event)
    ensures multiset(FinalText(ev) + InterimText(ev)) == multiset(AllText(ev))
    ensures |FinalText(ev)| + |InterimText(ev)| == |AllText(ev)|
  {
    if ev != [] {
      var init := ev[..|ev| - 1];
      SplitKeepsEverything(init);
      assert multiset(FinalText(ev) + InterimText(ev))
          == multiset(FinalText(init) + InterimText(init)) + multiset(ev[|ev| - 1].transcript);
    }
  }

  /** All the chunks of an event, in slot order, whether final or not. */
  function AllText(ev: Event): string
  {
    if ev == [] then [] else AllText(ev[..|ev| - 1]) + ev[|ev| - 1].transcript
  }

  /** When every slot is final the live text is the final text and nothing is interim. */
  lemma {:induction false} AllFinal(ev: Event)
    requires forall k :: 0 <= k < |ev| ==> ev[k].isFinal
    ensures InterimText(ev) == [] && FinalText(ev) + InterimText(ev) == FinalText(ev)
  {
    if ev != [] {
      AllFinal(ev[..|ev| - 1]);
    }
  }

  /** The recogniser re-sends a growing list of slots; when a later event
      only appends slots to an earlier one, its final text extends the earlier
      final text. */
  lemma {:induction false} FinalTextGrows(ev: Event, more: Event)
    ensures FinalText(ev) <= FinalText(ev + more)
    decreases |more|
  {
    if more != [] {
      var shorter := more[..|more| - 1];
      assert (ev + more)[..|ev + more| - 1] == ev + shorter;
      var last := more[|more| - 1];
      assert FinalText(ev + more) == FinalText(ev + shorter) + (if last.isFinal then last.transcript else []);
      FinalTextGrows(ev, shorter);
    } else {
      assert ev + more == ev;
    }
  }

  // ---------------------------------------------------------------------
  // Committing final text (temp-app draft): only the part beyond the final
  // text committed last time is new.

  /** The trimmed new part of `final` beyond the length of `lastFinal`, if
      `final` is longer and that part is not blank. */
  function NewFinalChunk(lastFinal: string, final: string): (r: Option<string>)
    ensures r.Some? <==> |final| > |lastFinal| && !AllSpace(final[|lastFinal|..])
    ensures r.Some? ==> r.value != [] && |r.value| <= |final| - |lastFinal|
  {
    if |final| > |lastFinal| then
      var chunk := Trim(final[|lastFinal|..]);
      if chunk != [] then Some(chunk) else None
    else None
  }

  /** `lastFinalTranscriptRef` after an event: advanced to `final` exactly when a chunk is committed. */
  function AfterCommit(lastFinal: string, final: string): string
  {
    if NewFinalChunk(lastFinal, final).Some? then final else lastFinal
  }

  /** Redelivering the same final text commits nothing the second time. */
  lemma CommitOnce(lastFinal: string, final: string)
    ensures NewFinalChunk(AfterCommit(lastFinal, final), final) == None
    ensures AfterCommit(AfterCommit(lastFinal, final), final) == AfterCommit(lastFinal, final)
  {
  }

  /** Appends one line to the displayed log, with a newline only after a non-empty log. */
  function AppendLine(log: string, line: string): (r: string)
    ensures |r| == |log| + |line| + (if log == [] then 0 else 1)
    ensures log <= r && r[|r| - |line|..] == line
    ensures log != [] ==> r[|log|] == '\n'
  {
    log + (if log == [] then [] else "\n") + line
  }

  /** The commits of a run of events, given their final texts in arrival
      order: the last committed final text, the raw new parts committed and
      their trimmed versions (the history entries). */
  datatype Commits = Commits(lastFinal: string, spans: seq<string>, chunks: seq<string>)

  function CommitRun(lastFinal: string, finals: seq<string>): (r: Commits)
    ensures |r.spans| == |r.chunks|
    decreases |finals|
  {
    if finals == [] then Commits(lastFinal, [], [])
    else
      var f := finals[0];
      var rest := CommitRun(AfterCommit(lastFinal, f), finals[1..]);
      match NewFinalChunk(lastFinal, f)
      case Some(chunk) => Commits(rest.lastFinal, [f[|lastFinal|..]] + rest.spans, [chunk] + rest.chunks)
      case None => rest
  }

  /** The strings of `xs` one after another: `xs.join("")`. */
  function Concat(xs: seq<string>): string
  {
    if xs == [] then [] else xs[0] + Concat(xs[1..])
  }

  /** `Concat` is `Join` with the empty separator. */
  lemma {:induction false} ConcatIsJoin(xs: seq<string>)
    ensures Concat(xs) == Join(xs, "")
  {
    if |xs| > 1 {
      ConcatIsJoin(xs[1..]);
      assert xs[0] + "" == xs[0];
    } else if |xs| == 1 {
      assert Concat(xs) == xs[0] + Concat(xs[1..]);
      assert xs[0] + [] == xs[0];
    }
  }

  /** The final texts of successive events extend one another (the recogniser
      only appends to and finalises its hypothesis within one session). */
  ghost predicate Extends(lastFinal: string, finals: seq<string>) {
    (|finals| > 0 ==> lastFinal <= finals[0]) &&
    forall k :: 0 <= k < |finals| - 1 ==> finals[k] <= finals[k + 1]
  }

  /** Each history entry of a run is the trimmed raw part it came from, and is not blank. */
  lemma {:induction false} CommitRunChunks(lastFinal: string, finals: seq<string>)
    ensures forall k :: 0 <= k < |CommitRun(lastFinal, finals).chunks| ==>
      CommitRun(lastFinal, finals).chunks[k] == Trim(CommitRun(lastFinal, finals).spans[k]) && CommitRun(lastFinal, finals).chunks[k] != []
    decreases |finals|
  {
    if finals != [] {
      var f := finals[0];
      var rest := CommitRun(AfterCommit(lastFinal, f), finals[1..]);
      CommitRunChunks(AfterCommit(lastFinal, f), finals[1..]);
      var r := CommitRun(lastFinal, finals);
      if NewFinalChunk(lastFinal, f).Some? {
        var chunk := NewFinalChunk(lastFinal, f).value;
        assert chunk == Trim(f[|lastFinal|..]);
        assert r.spans == [f[|lastFinal|..]] + rest.spans && r.chunks == [chunk] + rest.chunks;
        forall k | 0 <= k < |r.chunks| ensures r.chunks[k] == Trim(r.spans[k]) && r.chunks[k] != [] {
          if k > 0 {
            assert r.chunks[k] == rest.chunks[k - 1] && r.spans[k] == rest.spans[k - 1];
          }
        }
      } else {
        assert r == rest;
      }
    }
  }

  /** Over a run of growing final texts, the committed raw parts are
      consecutive, disjoint pieces of the final text: starting from the last
      committed text they spell the newly committed one, each piece exactly
      once, and the newly committed text is a prefix of the latest final text. */
  lemma CommitRunSpellsFinal(lastFinal: string, finals: seq<string>)
    requires Extends(lastFinal, finals)
    ensures lastFinal + Concat(CommitRun(lastFinal, finals).spans) == CommitRun(lastFinal, finals).lastFinal
    ensures finals != [] ==> CommitRun(lastFinal, finals).lastFinal <= finals[|finals| - 1]
  {
    CommitRunSpells(lastFinal, finals);
    if finals != [] {
      CommitRunWithinLatest(lastFinal, finals);
    }
  }

  /** One event of a run: its raw part, if committed, comes first. */
  lemma CommitRunUnfold(lastFinal: string, finals: seq<string>)
    requires finals != []
    ensures CommitRun(lastFinal, finals).lastFinal == CommitRun(AfterCommit(lastFinal, finals[0]), finals[1..]).lastFinal
    ensures NewFinalChunk(lastFinal, finals[0]).Some? ==>
      CommitRun(lastFinal, finals).spans == [finals[0][|lastFinal|..]] + CommitRun(finals[0], finals[1..]).spans
    ensures NewFinalChunk(lastFinal, finals[0]).None? ==>
      CommitRun(lastFinal, finals).spans == CommitRun(lastFinal, finals[1..]).spans
  {
  }

  /** After the first event of a growing run, the rest of the run still grows
      from what is committed, which is within the first final text. */
  lemma ExtendsTail(lastFinal: string, finals: seq<string>)
    requires Extends(lastFinal, finals) && finals != []
    ensures AfterCommit(lastFinal, finals[0]) <= finals[0]
    ensures Extends(AfterCommit(lastFinal, finals[0]), finals[1..])
  {
    if |finals| > 1 {
      assert finals[0] <= finals[1];
    }
  }

  lemma ConcatCons(x: string, xs: seq<string>)
    ensures Concat([x] + xs) == x + Concat(xs)
  {
    assert ([x] + xs)[1..] == xs;
  }

  /** Committing the part of `f` beyond `lastFinal` in front of parts that
      spell `target` after `f` spells `target` after `lastFinal`. */
  lemma SpellsAfterCommit(lastFinal: string, f: string, rest: seq<string>, target: string)
    requires lastFinal <= f && f + Concat(rest) == target
    ensures lastFinal + Concat([f[|lastFinal|..]] + rest) == target
  {
    ConcatCons(f[|lastFinal|..], rest);
    assert lastFinal + f[|lastFinal|..] == f;
  }

  /** The committed raw parts spell the newly committed text after the old one. */
  lemma {:induction false} CommitRunSpells(lastFinal: string, finals: seq<string>)
    requires Extends(lastFinal, finals)
    ensures lastFinal + Concat(CommitRun(lastFinal, finals).spans) == CommitRun(lastFinal, finals).lastFinal
    decreases |finals|
  {
    if finals != [] {
      ExtendsTail(lastFinal, finals);
      CommitRunSpells(AfterCommit(lastFinal, finals[0]), finals[1..]);
      CommitRunUnfold(lastFinal, finals);
      if NewFinalChunk(lastFinal, finals[0]).Some? {
        SpellsAfterCommit(lastFinal, finals[0], CommitRun(finals[0], finals[1..]).spans, CommitRun(finals[0], finals[1..]).lastFinal);
      }
    }
  }

  /** The newly committed text is within the latest final text. */
  lemma {:induction false} CommitRunWithinLatest(lastFinal: string, finals: seq<string>)
    requires Extends(lastFinal, finals) && finals != []
    ensures CommitRun(lastFinal, finals).lastFinal <= finals[|finals| - 1]
    decreases |finals|
  {
    var next := AfterCommit(lastFinal, finals[0]);
    ExtendsTail(lastFinal, finals);
    CommitRunUnfold(lastFinal, finals);
    if |finals| == 1 {
      assert finals[1..] == [];
    } else {
      CommitRunWithinLatest(next, finals[1..]);
      assert finals[1..][|finals[1..]| - 1] == finals[|finals| - 1];
    }
  }

  /** A redelivered event (the same final text twice in a row) adds no history entry. */
  lemma {:induction false} RedeliveryCommitsNothing(lastFinal: string, before: seq<string>, f: string, after: seq<string>)
    ensures CommitRun(lastFinal, before + [f, f] + after).chunks == CommitRun(lastFinal, before + [f] + after).chunks
    decreases |before|
  {
    if before == [] {
      assert ([f, f] + after)[1..] == [f] + after;
      var next := AfterCommit(lastFinal, f);
      CommitOnce(lastFinal, f);
      assert ([f] + after)[1..] == after;
      assert CommitRun(next, [f] + after) == CommitRun(next, after);
    } else {
      assert (before + [f, f] + after)[1..] == before[1..] + [f, f] + after;
      assert (before + [f] + after)[1..] == before[1..] + [f] + after;
      RedeliveryCommitsNothing(AfterCommit(lastFinal, before[0]), before[1..], f, after);
    }
  }
}
