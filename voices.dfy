/** The voice choice of `loadAndSetVoice` (temp-app draft) and `loadVoice`
    (second draft), written the same way in both: a filter for US-English
    voices that look female, a `find` for Google's voice among them, and
    fallbacks to the first US-English voice and the first voice. */
module Voices {
  import opened JsString
  import opened Options

  /** A synthesis voice as the browser lists it. */
  datatype Voice = Voice(name: string, lang: string)

  predicate IsUsEnglish(v: Voice) {
    StartsWith(v.lang, "en-US")
  }

  predicate IsGoogle(v: Voice) {
    Includes(v.name, "Google US English")
  }

  /** "female" in any case, or "Zira" as written. */
  predicate IsFemaleOrZira(v: Voice) {
    Includes(ToLower(v.name), "female") || Includes(v.name, "Zira")
  }

  /** The filter's test: US English, and female, Google's or Zira. */
  predicate IsFemaleCandidate(v: Voice) {
    IsUsEnglish(v) && (IsFemaleOrZira(v) || IsGoogle(v))
  }

  /** `Array.prototype.filter`. */
  function Filter(vs: seq<Voice>, p: Voice -> bool): (r: seq<Voice>)
    ensures |r| <= |vs|
    ensures forall k :: 0 <= k < |r| ==> r[k] in vs && p(r[k])
    ensures forall k :: 0 <= k < |vs| && p(vs[k]) ==> vs[k] in r
  {
    if vs == [] then []
    else
      var rest := Filter(vs[1..], p);
      assert forall k :: 1 <= k < |vs| ==> vs[k] == vs[1..][k - 1];
      (if p(vs[0]) then [vs[0]] else []) + rest
  }

  /** Filtering keeps list order: filtering a concatenation is
      concatenating the filtered parts. */
  lemma {:induction false} FilterAppend(a: seq<Voice>, b: seq<Voice>, p: Voice -> bool)
    ensures Filter(a + b, p) == Filter(a, p) + Filter(b, p)
  {
    if a != [] {
      assert (a + b)[1..] == a[1..] + b;
      FilterAppend(a[1..], b, p);
    } else {
      assert a + b == b;
    }
  }

  /** `Array.prototype.find`: the first voice passing `p`. */
  function Find(vs: seq<Voice>, p: Voice -> bool): (r: Option<Voice>)
    ensures r.None? <==> forall k :: 0 <= k < |vs| ==> !p(vs[k])
    ensures r.Some? ==> exists k :: 0 <= k < |vs| && vs[k] == r.value && p(vs[k]) && forall j :: 0 <= j < k ==> !p(vs[j])
  {
    if vs == [] then None
    else if p(vs[0]) then Some(vs[0])
    else
      var r := Find(vs[1..], p);
      assert r.Some? ==> exists k :: 0 <= k < |vs| && vs[k] == r.value && p(vs[k]) && forall j :: 0 <= j < k ==> !p(vs[j]) by {
        if r.Some? {
          var k :| 0 <= k < |vs| - 1 && vs[1..][k] == r.value && p(vs[1..][k]) && forall j :: 0 <= j < k ==> !p(vs[1..][j]);
          assert vs[k + 1] == r.value && forall j :: 0 <= j < k + 1 ==> !p(vs[j]) by {
            forall j | 0 < j < k + 1 ensures !p(vs[j]) { assert vs[j] == vs[1..][j - 1]; }
          }
        }
      }
      r
  }

  /** The choice as the source writes it; `None` for an empty list, where
      the source returns early and keeps whatever voice it had. */
  function ChooseVoice(voices: seq<Voice>): (r: Option<Voice>)
    ensures r.None? <==> voices == []
    ensures r.Some? ==> r.value in voices
  {
    if |voices| == 0 then None
    else
      var candidates := Filter(voices, IsFemaleCandidate);
      if |candidates| > 0 then
        match Find(candidates, IsGoogle)
        case Some(google) =>
          assert google in candidates;
          Some(google)
        case None => Some(candidates[0])
      else
        var us := Filter(voices, IsUsEnglish);
        Some(if |us| > 0 then us[0] else voices[0])
  }

  predicate IsUsGoogle(v: Voice) { IsUsEnglish(v) && IsGoogle(v) }
  predicate IsUsFemaleOrZira(v: Voice) { IsUsEnglish(v) && IsFemaleOrZira(v) }

  /** The preference order, stated directly: the first US-English Google
      voice; else the first US-English voice called female (any case) or
      Zira; else the first US-English voice; else the first voice. */
  function PreferredVoice(voices: seq<Voice>): Option<Voice>
  {
    if voices == [] then None
    else if Find(voices, IsUsGoogle).Some? then Find(voices, IsUsGoogle)
    else if Find(voices, IsUsFemaleOrZira).Some? then Find(voices, IsUsFemaleOrZira)
    else if Find(voices, IsUsEnglish).Some? then Find(voices, IsUsEnglish)
    else Some(voices[0])
  }

  /** The filter-then-find code makes exactly the preference-order choice. */
  lemma ChooseVoiceIsPreferred(voices: seq<Voice>)
    ensures ChooseVoice(voices) == PreferredVoice(voices)
  {
    if voices != [] {
      var candidates := Filter(voices, IsFemaleCandidate);
      FindAfterFilter(voices, IsFemaleCandidate, IsGoogle, IsUsGoogle);
      FirstOfFilter(voices, IsFemaleCandidate);
      FirstOfFilter(voices, IsUsEnglish);
      if Find(voices, IsUsGoogle).None? {
        FindSame(voices, IsFemaleCandidate, IsUsFemaleOrZira);
      }
    }
  }

  /** Finding in a filtered list is finding with both tests. */
  lemma {:induction false} FindAfterFilter(vs: seq<Voice>, p: Voice -> bool, q: Voice -> bool, pq: Voice -> bool)
    requires forall v :: pq(v) == (p(v) && q(v))
    ensures Find(Filter(vs, p), q) == Find(vs, pq)
  {
    if vs != [] {
      FindAfterFilter(vs[1..], p, q, pq);
      var rest := Filter(vs[1..], p);
      if p(vs[0]) {
        assert Filter(vs, p) == [vs[0]] + rest;
        assert ([vs[0]] + rest)[1..] == rest;
      } else {
        assert Filter(vs, p) == rest;
      }
    }
  }

  /** The head of a filtered list is the first element passing the filter. */
  lemma {:induction false} FirstOfFilter(vs: seq<Voice>, p: Voice -> bool)
    ensures |Filter(vs, p)| > 0 <==> Find(vs, p).Some?
    ensures |Filter(vs, p)| > 0 ==> Filter(vs, p)[0] == Find(vs, p).value
  {
    if vs != [] {
      FirstOfFilter(vs[1..], p);
    }
  }

  /** Two tests that agree on every voice in the list find the same voice. */
  lemma {:induction false} FindSame(vs: seq<Voice>, p: Voice -> bool, q: Voice -> bool)
    requires forall k :: 0 <= k < |vs| ==> p(vs[k]) == q(vs[k])
    ensures Find(vs, p) == Find(vs, q)
  {
    if vs != [] {
      FindSame(vs[1..], p, q);
    }
  }
}
