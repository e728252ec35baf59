/** Keyword spotting shared by both drafts' `onresult` handlers: the last
    occurrence of the activation keyword in the lower-cased live text, the
    command after it, and the gates that decide whether it activates. */
module Keyword {
  import opened JsString
  import opened Options

  /** The keyword used when the input is left blank. */
  const DefaultKeyword := "assistant"

  /** The keyword input's change handler in the temp-app draft: trimmed,
      lower-cased, and the default when nothing is left. */
  function NormaliseKeyword(raw: string): (k: string)
    ensures k != []
    ensures ToLower(k) == k && Trim(k) == k
    ensures k == DefaultKeyword || k == ToLower(Trim(raw))
    ensures AllSpace(raw) <==> k == DefaultKeyword && ToLower(Trim(raw)) != DefaultKeyword
  {
    var t := ToLower(Trim(raw));
    TrimmedIsTrimmed(raw);
    ToLowerFacts(Trim(raw));
    assert TrimmedAt(DefaultKeyword, 0, |DefaultKeyword|) by {
      assert DefaultKeyword[..0] == [] && DefaultKeyword[|DefaultKeyword|..] == [];
    }
    if t == [] then DefaultKeyword else t
  }

  /** A trimmed string has no white space at either end, and lower-casing keeps it so. */
  lemma TrimmedIsTrimmed(raw: string)
    ensures Trim(ToLower(Trim(raw))) == ToLower(Trim(raw))
  {
    var t := Trim(raw);
    var i, j := TrimBounds(raw);
    ToLowerFacts(t);
    var lt := ToLower(t);
    assert TrimmedAt(lt, 0, |lt|) by {
      assert lt[..0] == [] && lt[|lt|..] == [];
    }
  }

  /** A keyword occurrence: where it starts and the command after it. */
  datatype Detection = Detection(at: nat, command: string)

  /** Both drafts: `lastIndexOf` of the keyword in the lower-cased live text,
      and the trimmed text after that occurrence; `None` when the keyword
      does not occur. `DetectSpec` states what an occurrence it reports is. */
  function Detect(live: string, keyword: string): Option<Detection>
  {
    var i := LastIndexOf(ToLower(live), keyword);
    if i == -1 then None
    else
      Some(Detection(i, Trim(live[i + |keyword|..])))
  }

  /** There is a detection exactly when the keyword occurs in the lower-cased
      text, and it is at the last occurrence. `DetectAt` gives the command. */
  lemma DetectSpec(live: string, keyword: string)
    ensures Detect(live, keyword).None? <==> Absent(ToLower(live), keyword)
    ensures Detect(live, keyword).Some? ==> LastOccurrence(ToLower(live), keyword, Detect(live, keyword).value.at)
  {
    var i := LastIndexOf(ToLower(live), keyword);
    if i != -1 {
      DetectUnfold(live, keyword, i);
    }
  }

  /** At the last occurrence of the keyword in the lower-cased text, the
      detection is that occurrence with the trimmed rest of the text as its command. */
  lemma DetectAt(live: string, keyword: string, at: int)
    requires LastOccurrence(ToLower(live), keyword, at)
    ensures 0 <= at && at + |keyword| <= |live|
    ensures Detect(live, keyword) == Some(Detection(at, Trim(live[at + |keyword|..])))
  {
    assert !Absent(ToLower(live), keyword) by {
      assert Occurs(ToLower(live), keyword, at);
    }
    LastOccurrenceUnique(ToLower(live), keyword, at, LastIndexOf(ToLower(live), keyword));
    DetectUnfold(live, keyword, at);
  }

  /** `Detect` once the index is known. */
  lemma DetectUnfold(live: string, keyword: string, i: int)
    requires i == LastIndexOf(ToLower(live), keyword) && i != -1
    ensures 0 <= i && i + |keyword| <= |live|
    ensures Detect(live, keyword) == Some(Detection(i, Trim(live[i + |keyword|..])))
  {
    assert Occurs(ToLower(live), keyword, i);
    assert live[LastIndexOf(ToLower(live), keyword) + |keyword|..] == live[i + |keyword|..];
  }

  /** The command after the last occurrence does not itself contain the keyword
      (compared case-insensitively): a keyword repeated mid-utterance supersedes
      the earlier one. */
  lemma CommandAfterLastOccurrence(live: string, keyword: string)
    requires keyword != []
    requires Detect(live, keyword).Some?
    ensures !Includes(ToLower(Detect(live, keyword).value.command), keyword)
  {
    var i := LastIndexOf(ToLower(live), keyword);
    DetectUnfold(live, keyword, i);
    NothingAfterLast(live, keyword, i);
  }

  /** Nothing after the last occurrence of the keyword contains it. */
  lemma NothingAfterLast(live: string, keyword: string, i: int)
    requires keyword != []
    requires LastOccurrence(ToLower(live), keyword, i)
    ensures !Includes(ToLower(Trim(live[i + |keyword|..])), keyword)
  {
    assert Occurs(ToLower(live), keyword, i);
    var x, y := TrimSuffix(live, i + |keyword|);
    NotInSliceAfterLast(live, keyword, i, x, y, Trim(live[i + |keyword|..]));
  }

  /** No slice `c` of `s` lying wholly after the last occurrence contains the keyword. */
  lemma NotInSliceAfterLast(s: string, k: string, i: int, x: nat, y: nat, c: string)
    requires LastOccurrence(ToLower(s), k, i)
    requires i < x <= y <= |s| && c == s[x..y]
    ensures !Includes(ToLower(c), k)
  {
    if p :| Occurs(ToLower(c), k, p) {
      OccursInSlice(s, x, y, c, k, p);
      assert false;
    }
  }

  /** An occurrence in the lower-cased slice `c == s[x..y]` is an occurrence in the lower-cased `s`. */
  lemma OccursInSlice(s: string, x: nat, y: nat, c: string, k: string, p: int)
    requires x <= y <= |s| && c == s[x..y]
    requires Occurs(ToLower(c), k, p)
    ensures Occurs(ToLower(s), k, x + p)
  {
    var low := ToLower(s);
    var sub := ToLower(c);
    forall q | 0 <= q < |k| ensures low[x + p + q] == k[q] {
      assert sub[p..p + |k|][q] == k[q];
      assert c[p + q] == s[x + p + q];
    }
    assert low[x + p..x + p + |k|] == k;
  }

  /** The text is lower-cased before the search but the keyword is not, so
      a keyword with an upper-case letter is never found (the second draft
      uses the keyword as typed). */
  lemma UppercaseKeywordNeverDetected(live: string, keyword: string, j: int)
    requires 0 <= j < |keyword| && 'A' <= keyword[j] <= 'Z'
    ensures Detect(live, keyword) == None
  {
    var low := ToLower(live);
    forall p ensures !Occurs(low, keyword, p) {
      if Occurs(low, keyword, p) {
        assert low[p..p + |keyword|][j] == keyword[j];
        LowerCharFacts(live[p + j]);
      }
    }
    DetectSpec(live, keyword);
  }

  /** An empty keyword is found at the very end of the text (`lastIndexOf("")`
      is the length), leaving an empty command. */
  lemma EmptyKeywordDetectedAtEnd(live: string)
    ensures Detect(live, []) == Some(Detection(|live|, []))
  {
    var low := ToLower(live);
    assert Occurs(low, [], |live|);
    assert LastOccurrence(low, [], |live|);
    DetectAt(live, [], |live|);
    assert live[|live|..] == [];
  }

  /** The temp-app activation gate: not already responding, a command longer
      than two characters, and either no interim text or a command found in the final text. */
  predicate TempAppFires(responding: bool, d: Option<Detection>, final: string, interim: string)
  {
    d.Some? && !responding && |d.value.command| > 2 &&
    (|interim| == 0 || Includes(final, d.value.command))
  }

  /** The gate of the second draft: not already responding and a command longer than two characters. */
  predicate SrcFires(responding: bool, d: Option<Detection>)
  {
    d.Some? && !responding && |d.value.command| > 2
  }

  /** The temp-app gate is the second draft's gate plus the finality test,
      and the two agree once nothing is interim. */
  lemma GatesCompared(responding: bool, d: Option<Detection>, final: string, interim: string)
    ensures TempAppFires(responding, d, final, interim) ==> SrcFires(responding, d)
    ensures interim == [] ==> (TempAppFires(responding, d, final, interim) <==> SrcFires(responding, d))
    ensures d.Some? && !responding && |d.value.command| > 2 && !Includes(final, d.value.command) && interim != [] ==>
      SrcFires(responding, d) && !TempAppFires(responding, d, final, interim)
  {
  }

  /** The keyword said alone ("assistant") leaves an empty command, so
      neither draft activates: there is no default command. */
  lemma KeywordAloneDoesNotActivate(responding: bool)
    ensures Detect(DefaultKeyword, DefaultKeyword) == Some(Detection(0, []))
    ensures !SrcFires(responding, Detect(DefaultKeyword, DefaultKeyword))
    ensures !TempAppFires(responding, Detect(DefaultKeyword, DefaultKeyword), DefaultKeyword, [])
  {
    var k := DefaultKeyword;
    assert ToLower(k) == k;
    assert Occurs(ToLower(k), k, 0);
    assert k[|k|..] == [];
  }

  const HeyAssistant := "hey assistant what time is it"

  /** Addressing the assistant mid-sentence: the keyword is found after
      "hey " and the command is the rest of the utterance. */
  lemma HeyAssistantDetected()
    ensures Detect(HeyAssistant, DefaultKeyword) == Some(Detection(4, "what time is it"))
    ensures SrcFires(false, Detect(HeyAssistant, DefaultKeyword))
  {
    HeyAssistantLower();
    HeyAssistantOccurs();
    HeyAssistantLast();
    HeyAssistantCommand();
    assert LastOccurrence(ToLower(HeyAssistant), DefaultKeyword, 4);
    DetectAt(HeyAssistant, DefaultKeyword, 4);
  }

  lemma HeyAssistantLower()
    ensures ToLower(HeyAssistant) == HeyAssistant
  {
    var s := HeyAssistant;
    forall q | 0 <= q < |s| ensures LowerChar(s[q]) == s[q] {
      assert !('A' <= s[q] <= 'Z');
    }
  }

  lemma HeyAssistantOccurs()
    ensures Occurs(HeyAssistant, DefaultKeyword, 4)
  {
    var s, k := HeyAssistant, DefaultKeyword;
    assert s == "hey " + k + " what time is it";
    assert s[4..13] == k;
  }

  lemma HeyAssistantLast()
    ensures forall p :: Occurs(HeyAssistant, DefaultKeyword, p) ==> p <= 4
  {
    var s, k := HeyAssistant, DefaultKeyword;
    HeyAssistantLetters();
    forall p | Occurs(s, k, p) ensures p <= 4 {
      assert s[p..p + |k|][0] == s[p] && s[p..p + |k|][1] == s[p + 1];
    }
  }

  /** Past the keyword's start, no `a` in the utterance is followed by an `s`. */
  lemma HeyAssistantLetters()
    ensures forall p :: 4 < p <= |HeyAssistant| - |DefaultKeyword| ==>
      HeyAssistant[p] != 'a' || HeyAssistant[p + 1] != 's'
  {
    var s := HeyAssistant;
    var t := " what time is it";
    assert s == "hey assistant" + t;
    assert s[10] == 'a' && s[11] == 'n';
    assert s[16] == 'a' && s[17] == 't';
    forall p | 4 < p <= 20 && p != 10 && p != 16 ensures s[p] != 'a' {
      if p < 13 {
        assert s[p] == "hey assistant"[p];
      } else {
        assert s[p] == t[p - 13];
      }
    }
  }

  lemma HeyAssistantCommand()
    ensures Trim(HeyAssistant[13..]) == "what time is it"
  {
    var w := "what time is it";
    var t := " " + w;
    assert HeyAssistant[13..] == t;
    assert t[1..|t|] == w;
    assert t[..1] == " " && t[|t|..] == [];
    assert t[1] == 'w' && t[|t| - 1] == 't';
    assert TrimmedAt(t, 1, |t|);
  }
}
