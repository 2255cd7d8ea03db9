/**
 * `cleanJSON`, the helper that strips a Markdown code fence from a language-model
 * reply before it is parsed as JSON. The same function is written twice in the
 * application (the revision section and the topic quiz); it is modelled once here.
 */
module JsonFences {
  import opened JsBuiltins

  const OpeningFence := "```json"
  const ClosingFence := "```"

  /** No white space at either end, as `trim` leaves a text. */
  predicate NoOuterWhitespace(s: string) {
    s == [] || (!IsWhitespace(s[0]) && !IsWhitespace(s[|s| - 1]))
  }

  /** `cleaned.replace(/^```json\s*\/, "")` when the text starts with "```json":
      the label and all white space after it go; what remains is a suffix. */
  function StripOpeningFence(text: string): (r: string)
    ensures |r| <= |text| && r == text[|text| - |r|..]
    ensures !StartsWith(text, OpeningFence) ==> r == text
  {
    if StartsWith(text, OpeningFence) then TrimStart(text[|OpeningFence|..]) else text
  }

  /** `cleaned.replace(/\s*```$/, "")` when the text ends with "```": the leftmost
      match starts where the white-space run before the final fence starts, so the
      fence and that run go; what remains is a prefix. */
  function StripClosingFence(text: string): (r: string)
    ensures |r| <= |text| && r == text[..|r|]
    ensures !EndsWith(text, ClosingFence) ==> r == text
  {
    if EndsWith(text, ClosingFence) then TrimEnd(text[..|text| - |ClosingFence|]) else text
  }

  /** Stripping the opening fence from a trimmed text leaves a trimmed text. */
  lemma OpeningKeepsTrimmed(text: string)
    requires NoOuterWhitespace(text)
    ensures NoOuterWhitespace(StripOpeningFence(text))
  {
    if StartsWith(text, OpeningFence) {
      var rest := text[|OpeningFence|..];
      var r := TrimStart(rest);
      assert r != [] ==> r[|r| - 1] == rest[|rest| - 1] == text[|text| - 1];
    }
  }

  /** Stripping the closing fence from a trimmed text leaves a trimmed text. */
  lemma ClosingKeepsTrimmed(text: string)
    requires NoOuterWhitespace(text)
    ensures NoOuterWhitespace(StripClosingFence(text))
  {
    if EndsWith(text, ClosingFence) {
      var rest := text[..|text| - |ClosingFence|];
      var r := TrimEnd(rest);
      assert r != [] ==> r[0] == rest[0] == text[0];
    }
  }

  /** Trim the reply, then strip an opening "```json" fence, then a closing fence. */
  function CleanJson(response: string): (r: string)
    ensures |r| <= |response|
  {
    StripClosingFence(StripOpeningFence(Trim(response)))
  }

  /** The cleaned text, which is what `JSON.parse` receives, has no white space at
      either end. */
  lemma CleanJsonTrimmed(response: string)
    ensures NoOuterWhitespace(CleanJson(response))
  {
    OpeningKeepsTrimmed(Trim(response));
    ClosingKeepsTrimmed(StripOpeningFence(Trim(response)));
  }

  /** `piece` occurs in `s` starting at index `i`. */
  predicate IsSliceAt(s: string, piece: string, i: nat) {
    i + |piece| <= |s| && piece == s[i..i + |piece|]
  }

  /** A suffix of a slice is a slice. */
  lemma SuffixOfSlice(s: string, k: nat, t: string, o: string) returns (j: nat)
    requires IsSliceAt(s, t, k)
    requires |o| <= |t| && o == t[|t| - |o|..]
    ensures IsSliceAt(s, o, j)
  {
    j := k + |t| - |o|;
    forall x | 0 <= x < |o| ensures o[x] == s[j + x] {
      assert o[x] == t[|t| - |o| + x];
    }
  }

  /** A prefix of a slice is a slice. */
  lemma PrefixOfSlice(s: string, j: nat, o: string, r: string)
    requires IsSliceAt(s, o, j)
    requires |r| <= |o| && r == o[..|r|]
    ensures IsSliceAt(s, r, j)
  {
    forall x | 0 <= x < |r| ensures r[x] == s[j + x] {
      assert r[x] == o[x];
    }
  }

  /** The trimmed reply without its opening fence is a slice of the reply. */
  lemma OpenedIsSlice(response: string) returns (j: nat)
    ensures IsSliceAt(response, StripOpeningFence(Trim(response)), j)
  {
    var t := Trim(response);
    var k := TrimSlice(response);
    j := SuffixOfSlice(response, k, t, StripOpeningFence(t));
  }

  /** The cleaned text is a contiguous piece of the reply, so it is never longer. */
  lemma CleanJsonIsSlice(response: string) returns (i: nat)
    ensures IsSliceAt(response, CleanJson(response), i) && |CleanJson(response)| <= |response|
  {
    var o := StripOpeningFence(Trim(response));
    i := OpenedIsSlice(response);
    PrefixOfSlice(response, i, o, StripClosingFence(o));
  }

  /** With no fence at either end the reply is only trimmed. */
  lemma CleanJsonWithoutFences(response: string)
    requires !StartsWith(Trim(response), OpeningFence)
    requires !EndsWith(Trim(response), ClosingFence)
    ensures CleanJson(response) == Trim(response)
  {
  }

  /** Only "```json" opens a fence: without it the beginning of the trimmed reply is
      kept, so a bare leading "```" stays in place. */
  lemma CleanJsonKeepsUnlabelledStart(response: string)
    requires !StartsWith(Trim(response), OpeningFence)
    ensures StartsWith(Trim(response), CleanJson(response))
  {
    var t := Trim(response);
    assert StripOpeningFence(t) == t;
    var r := StripClosingFence(t);
    assert r == t[..|r|];
    assert CleanJson(response) == r;
  }

  /** After the "```json" label, the white space that follows it goes too. */
  lemma OpeningFenceStripped(rest: string)
    ensures StripOpeningFence(OpeningFence + rest) == TrimStart(rest)
  {
    var text := OpeningFence + rest;
    assert text[..7] == OpeningFence;
    assert text[7..] == rest;
  }

  /** Before the closing "```", the white space that precedes it goes too. */
  lemma ClosingFenceStripped(rest: string, gap: string)
    requires AllWhitespace(gap)
    requires rest == [] || !IsWhitespace(rest[|rest| - 1])
    ensures StripClosingFence(rest + gap + ClosingFence) == rest
  {
    var text := rest + gap + ClosingFence;
    var cut := |text| - 3;
    assert text[cut..] == ClosingFence;
    assert text[..cut] == rest + gap;
    TrimEndBeforeWhitespace(rest, gap);
  }

  lemma ConcatAssoc(a: string, b: string, c: string)
    ensures a + (b + c) == a + b + c
  {
  }

  lemma ConcatEmptyLeft(a: string, b: string, c: string)
    requires a == []
    ensures a + b + c == b + c
  {
  }

  lemma WhitespaceConcat(a: string, b: string)
    requires AllWhitespace(a) && AllWhitespace(b)
    ensures AllWhitespace(a + b)
  {
    var w := a + b;
    forall i | 0 <= i < |w| ensures IsWhitespace(w[i]) {
      if i >= |a| { assert w[i] == b[i - |a|]; }
    }
  }

  /** An empty body between the fences: only white space is left after the label,
      and it goes with the closing fence. */
  lemma EmptyFencedBody(gap1: string, gap2: string)
    requires AllWhitespace(gap1) && AllWhitespace(gap2)
    ensures StripClosingFence(TrimStart(gap1 + ([] + gap2 + ClosingFence))) == []
  {
    ConcatEmptyLeft([], gap2, ClosingFence);
    WhitespaceConcat(gap1, gap2);
    ConcatAssoc(gap1, gap2, ClosingFence);
    TrimStartAfterWhitespace(gap1 + gap2, ClosingFence);
    ClosingFenceStripped([], []);
    assert [] + [] + ClosingFence == ClosingFence;
  }

  /** A body that does not start or end with white space: the gap after the label
      and the gap before the closing fence both go. */
  lemma NonEmptyFencedBody(gap1: string, body: string, gap2: string)
    requires AllWhitespace(gap1) && AllWhitespace(gap2)
    requires body != [] && !IsWhitespace(body[0]) && !IsWhitespace(body[|body| - 1])
    ensures StripClosingFence(TrimStart(gap1 + (body + gap2 + ClosingFence))) == body
  {
    TrimStartAfterWhitespace(gap1, body + gap2 + ClosingFence);
    ClosingFenceStripped(body, gap2);
  }

  /** The part of the round trip after trimming: the fenced text cleans to the body. */
  lemma FencesStripped(gap1: string, body: string, gap2: string)
    requires AllWhitespace(gap1) && AllWhitespace(gap2)
    requires body == [] || (!IsWhitespace(body[0]) && !IsWhitespace(body[|body| - 1]))
    ensures StripClosingFence(StripOpeningFence(OpeningFence + (gap1 + (body + gap2 + ClosingFence)))) == body
  {
    OpeningFenceStripped(gap1 + (body + gap2 + ClosingFence));
    if body == [] {
      EmptyFencedBody(gap1, gap2);
    } else {
      NonEmptyFencedBody(gap1, body, gap2);
    }
  }

  /** A reply made of an opening "```json" fence, the body and a closing "```" fence,
      with any white space around and between them, cleans to exactly the body, as
      long as the body itself neither starts nor ends with white space. */
  lemma CleanJsonFencedRoundTrip(lead: string, gap1: string, body: string, gap2: string, trail: string)
    requires AllWhitespace(lead) && AllWhitespace(gap1) && AllWhitespace(gap2) && AllWhitespace(trail)
    requires body == [] || (!IsWhitespace(body[0]) && !IsWhitespace(body[|body| - 1]))
    ensures CleanJson(lead + OpeningFence + gap1 + body + gap2 + ClosingFence + trail) == body
  {
    var core := OpeningFence + (gap1 + (body + gap2 + ClosingFence));
    assert lead + OpeningFence + gap1 + body + gap2 + ClosingFence + trail == lead + core + trail;
    assert core[0] == '`' && core[|core| - 1] == '`';
    TrimAround(lead, core, trail);
    FencesStripped(gap1, body, gap2);
  }
}
