/** `AIProcessor` (utils/ai-processor.js): text operations that ask the
    on-device model when it is ready and otherwise fall back to local
    rewrites, with one cached model session. */
module AiProcessor {
  import opened Wrappers
  import opened Text
  import opened Seqs
  import opened LanguageModel

  // ------------------------------------------------------ fallback summary

  predicate IsTerminator(c: char) {
    c == '.' || c == '!' || c == '?'
  }

  /** The end of the run of characters from `i` on that do (`term`) or do not
      (`!term`) end a sentence. */
  function RunEnd(s: string, i: nat, term: bool): (e: nat)
    requires i <= |s|
    ensures i <= e <= |s|
    ensures forall k :: i <= k < e ==> IsTerminator(s[k]) == term
    ensures e < |s| ==> IsTerminator(s[e]) != term
    decreases |s| - i
  {
    if i < |s| && IsTerminator(s[i]) == term then RunEnd(s, i + 1, term) else i
  }

  /** `m[..c]` is a non-empty run of other characters and `m[c..]` a
      non-empty run of terminators. */
  ghost predicate SplitsAt(m: string, c: nat) {
    0 < c < |m| && (forall k :: 0 <= k < c ==> !IsTerminator(m[k])) && (forall k :: c <= k < |m| ==> IsTerminator(m[k]))
  }

  /** A match of `/[^.!?]+[.!?]+/`. */
  ghost predicate IsSentence(m: string) {
    exists c: nat :: SplitsAt(m, c)
  }

  /** `s.match(/[^.!?]+[.!?]+/g)` from position `p` on, as the global search
      finds the matches: a terminator cannot start one, and a run of other
      characters that reaches the end of the text is no match. Both runs are
      taken greedily. */
  function Sentences(s: string, p: nat): (r: seq<string>)
    requires p <= |s|
    decreases |s| - p
  {
    if p == |s| then []
    else if IsTerminator(s[p]) then Sentences(s, p + 1)
    else
      var q := RunEnd(s, p, false);
      if q == |s| then []
      else
        var e := RunEnd(s, q, true);
        [s[p..e]] + Sentences(s, e)
  }

  /** The two runs the search takes from `p` make a sentence of the text. */
  lemma RunsMakeSentence(s: string, p: nat, q: nat, e: nat)
    requires p < q < e <= |s|
    requires forall k :: p <= k < q ==> !IsTerminator(s[k])
    requires forall k :: q <= k < e ==> IsTerminator(s[k])
    ensures IsSentence(s[p..e]) && OccursAt(s, s[p..e], p)
  {
    var m := s[p..e];
    assert forall k :: 0 <= k < |m| ==> m[k] == s[p + k];
    assert SplitsAt(m, q - p);
  }

  /** Every match is a sentence found in the text. */
  lemma {:induction false} SentencesShape(s: string, p: nat)
    requires p <= |s|
    ensures forall m :: m in Sentences(s, p) ==> IsSentence(m) && Contains(s, m)
    decreases |s| - p
  {
    if p < |s| {
      if IsTerminator(s[p]) {
        SentencesShape(s, p + 1);
      } else {
        var q := RunEnd(s, p, false);
        if q < |s| {
          var e := RunEnd(s, q, true);
          SentencesShape(s, e);
          RunsMakeSentence(s, p, q, e);
          assert Contains(s, s[p..e]);
        }
      }
    }
  }

  /** Somewhere from `p` on a character that is not a terminator comes
      before a terminator. */
  predicate HasSentenceFrom(s: string, p: nat) {
    exists i, j :: p <= i < j < |s| && !IsTerminator(s[i]) && IsTerminator(s[j])
  }

  /** The search finds nothing exactly when no sentence can start. */
  lemma {:induction false} SentencesNone(s: string, p: nat)
    requires p <= |s|
    ensures Sentences(s, p) == [] <==> !HasSentenceFrom(s, p)
    decreases |s| - p
  {
    if p < |s| {
      if IsTerminator(s[p]) {
        SentencesNone(s, p + 1);
        if HasSentenceFrom(s, p) {
          var i, j :| p <= i < j < |s| && !IsTerminator(s[i]) && IsTerminator(s[j]);
          assert p + 1 <= i;
        }
      } else {
        var q := RunEnd(s, p, false);
        if q < |s| {
          assert p < q && !IsTerminator(s[p]) && IsTerminator(s[q]);
        } else {
          assert forall k :: p <= k < |s| ==> !IsTerminator(s[k]);
        }
      }
    }
  }

  /** `parts.join(sep)`. */
  function Join(parts: seq<string>, sep: string): string
    decreases |parts|
  {
    if parts == [] then ""
    else if |parts| == 1 then parts[0]
    else parts[0] + sep + Join(parts[1..], sep)
  }

  /** `summary.length > 300 ? summary.substring(0, 297) + '...' : summary`. */
  function Shorten(summary: string): (r: string)
    ensures |r| <= 300
    ensures |summary| <= 300 ==> r == summary
    ensures |summary| > 300 ==> |r| == 300 && r[..297] == summary[..297] && r[297..] == "..."
  {
    if |summary| > 300 then summary[..297] + "..." else summary
  }

  /** The sentences the fallback summary is made of: the matches, or the
      whole text when there is none. */
  function SummarySentences(text: string): seq<string> {
    var found := Sentences(text, 0);
    if found == [] then [text] else found
  }

  /** `fallbackSummarize`: the first three sentences, joined by spaces, cut
      to 300 characters. */
  function FallbackSummarize(text: string): (r: string)
    ensures |r| <= 300
  {
    var sentences := SummarySentences(text);
    Shorten(Join(sentences[..if |sentences| < 3 then |sentences| else 3], " "))
  }

  /** A text with no sentence is summarised by itself, cut to 300
      characters. */
  lemma FallbackWithoutSentence(text: string)
    requires !HasSentenceFrom(text, 0)
    ensures FallbackSummarize(text) == Shorten(text)
  {
    SentencesNone(text, 0);
    assert [text][..1] == [text];
  }

  /** Otherwise the summary is made of sentences of the text, at most three. */
  lemma FallbackFromSentences(text: string)
    requires HasSentenceFrom(text, 0)
    ensures var ss := SummarySentences(text);
      && 1 <= |ss|
      && (forall m :: m in ss ==> IsSentence(m) && Contains(text, m))
      && FallbackSummarize(text) == Shorten(Join(ss[..if |ss| < 3 then |ss| else 3], " "))
  {
    SentencesNone(text, 0);
    SentencesShape(text, 0);
  }

  // ----------------------------------------------------------- cleanText

  /** `replace(/\s+/g, ' ')`: every maximal whitespace run becomes one space. */
  function CollapseWhitespace(s: string): (r: string)
    decreases |s|
  {
    if s == [] then []
    else if IsWhitespace(s[0]) then
      var n := WhitespaceRun(s);
      assert n > 0;
      " " + CollapseWhitespace(s[n..])
    else [s[0]] + CollapseWhitespace(s[1..])
  }

  /** The only whitespace is single spaces. */
  predicate Collapsed(s: string) {
    && (forall k :: 0 <= k < |s| && IsWhitespace(s[k]) ==> s[k] == ' ')
    && (forall k :: 0 < k < |s| && IsWhitespace(s[k]) ==> !IsWhitespace(s[k - 1]))
  }

  function IsText(c: char): bool {
    !IsWhitespace(c)
  }

  /** The characters of `s` other than whitespace, in order. */
  function Visible(s: string): string {
    Filter(s, IsText)
  }

  lemma {:induction false} CollapseFacts(s: string)
    ensures var r := CollapseWhitespace(s);
      && Collapsed(r)
      && (s != [] && !IsWhitespace(s[0]) ==> r != [] && r[0] == s[0])
      && (s != [] && IsWhitespace(s[0]) ==> r != [] && r[0] == ' ')
    decreases |s|
  {
    if s != [] {
      if IsWhitespace(s[0]) {
        var n := WhitespaceRun(s);
        var t := s[n..];
        CollapseFacts(t);
        var r := " " + CollapseWhitespace(t);
        assert t != [] ==> !IsWhitespace(t[0]);
        forall k | 0 < k < |r| && IsWhitespace(r[k]) ensures !IsWhitespace(r[k - 1]) {
          assert r[k] == CollapseWhitespace(t)[k - 1];
          if k > 1 {
            assert r[k - 1] == CollapseWhitespace(t)[k - 2];
          }
        }
        forall k | 0 <= k < |r| && IsWhitespace(r[k]) ensures r[k] == ' ' {
          if k > 0 {
            assert r[k] == CollapseWhitespace(t)[k - 1];
          }
        }
      } else {
        var t := s[1..];
        CollapseFacts(t);
        var r := [s[0]] + CollapseWhitespace(t);
        forall k | 0 < k < |r| && IsWhitespace(r[k]) ensures !IsWhitespace(r[k - 1]) {
          assert r[k] == CollapseWhitespace(t)[k - 1];
          if k > 1 {
            assert r[k - 1] == CollapseWhitespace(t)[k - 2];
          }
        }
        forall k | 0 <= k < |r| && IsWhitespace(r[k]) ensures r[k] == ' ' {
          assert r[k] == CollapseWhitespace(t)[k - 1];
        }
      }
    }
  }

  /** Collapsing changes only whitespace. */
  lemma {:induction false} CollapseKeepsText(s: string)
    ensures Visible(CollapseWhitespace(s)) == Visible(s)
    decreases |s|
  {
    if s != [] {
      if IsWhitespace(s[0]) {
        var n := WhitespaceRun(s);
        CollapseKeepsText(s[n..]);
        FilterAppend(" ", CollapseWhitespace(s[n..]), IsText);
        FilterAppend(s[..n], s[n..], IsText);
        FilterEmpty(s[..n], IsText);
        FilterEmpty(" ", IsText);
        assert s[..n] + s[n..] == s;
      } else {
        CollapseKeepsText(s[1..]);
        FilterAppend([s[0]], CollapseWhitespace(s[1..]), IsText);
        FilterAppend([s[0]], s[1..], IsText);
        assert [s[0]] + s[1..] == s;
      }
    }
  }

  /** A collapsed string is its own collapse. */
  lemma {:induction false} CollapseOfCollapsed(s: string)
    requires Collapsed(s)
    ensures CollapseWhitespace(s) == s
    decreases |s|
  {
    if s != [] {
      var t := s[1..];
      assert Collapsed(t) by {
        forall k | 0 < k < |t| && IsWhitespace(t[k]) ensures !IsWhitespace(t[k - 1]) {
          assert t[k] == s[k + 1] && t[k - 1] == s[k];
        }
        forall k | 0 <= k < |t| && IsWhitespace(t[k]) ensures t[k] == ' ' {
          assert t[k] == s[k + 1];
        }
      }
      CollapseOfCollapsed(t);
      if IsWhitespace(s[0]) {
        assert |s| > 1 ==> !IsWhitespace(s[1]);
        assert WhitespaceRun(s) == 1;
        assert [s[0]] == " ";
      }
      assert s == [s[0]] + t;
    }
  }

  /** The last newline of `t[..m]`, if any. */
  function LastNewline(t: string, m: nat): (r: Option<nat>)
    requires m <= |t|
    ensures r.Some? ==> r.value < m && t[r.value] == '\n' && forall i :: r.value < i < m ==> t[i] != '\n'
    ensures r.None? ==> forall i :: 0 <= i < m ==> t[i] != '\n'
  {
    if m == 0 then None
    else if t[m - 1] == '\n' then Some(m - 1)
    else LastNewline(t, m - 1)
  }

  /** `replace(/\n\s*\n/g, '\n')`: from a newline, `\s*` takes the whitespace
      after it and gives back up to the last newline among it; the match
      becomes one newline. */
  function MergeBlankLines(s: string): string
    decreases |s|
  {
    if s == [] then []
    else if s[0] == '\n' then
      var t := s[1..];
      match LastNewline(t, WhitespaceRun(t))
      case Some(j) => "\n" + MergeBlankLines(t[j + 1..])
      case None => [s[0]] + MergeBlankLines(t)
    else [s[0]] + MergeBlankLines(s[1..])
  }

  /** A text without newlines is left as it is. */
  lemma {:induction false} MergeWithoutNewline(s: string)
    requires forall k :: 0 <= k < |s| ==> s[k] != '\n'
    ensures MergeBlankLines(s) == s
    decreases |s|
  {
    if s != [] {
      assert forall k :: 0 <= k < |s[1..]| ==> s[1..][k] == s[k + 1];
      MergeWithoutNewline(s[1..]);
      assert s == [s[0]] + s[1..];
    }
  }

  /** `cleanText`. */
  function CleanText(text: string): string {
    Trim(MergeBlankLines(CollapseWhitespace(text)))
  }

  /** After collapsing no newline is left, so the second replacement never
      applies. */
  lemma MergeIsNoOp(text: string)
    ensures MergeBlankLines(CollapseWhitespace(text)) == CollapseWhitespace(text)
  {
    var c := CollapseWhitespace(text);
    CollapseFacts(text);
    assert forall k :: 0 <= k < |c| ==> c[k] != '\n' by {
      forall k | 0 <= k < |c| ensures c[k] != '\n' {
        if IsWhitespace(c[k]) {
          assert c[k] == ' ';
        }
      }
    }
    MergeWithoutNewline(c);
  }

  /** A trimmed slice of a collapsed string is collapsed. */
  lemma CollapsedSlice(s: string, a: nat, b: nat)
    requires Collapsed(s) && a <= b <= |s|
    ensures Collapsed(s[a..b])
  {
    var t := s[a..b];
    assert forall k :: 0 <= k < |t| ==> t[k] == s[a + k];
  }

  /** Dropping whitespace-only ends keeps the text. */
  lemma SliceKeepsText(c: string, a: nat, b: nat)
    requires a <= b <= |c|
    requires forall k :: 0 <= k < a ==> IsWhitespace(c[k])
    requires forall k :: b <= k < |c| ==> IsWhitespace(c[k])
    ensures Visible(c[a..b]) == Visible(c)
  {
    var head, mid, tail := c[..a], c[a..b], c[b..];
    assert c == head + mid + tail;
    FilterAppend(head + mid, tail, IsText);
    FilterAppend(head, mid, IsText);
    assert forall k :: 0 <= k < |head| ==> head[k] == c[k];
    assert forall k :: 0 <= k < |tail| ==> tail[k] == c[b + k];
    FilterEmpty(head, IsText);
    FilterEmpty(tail, IsText);
  }

  /** Trimming drops whitespace only. */
  lemma TrimKeepsText(c: string)
    ensures Visible(Trim(c)) == Visible(c)
  {
    TrimFacts(c);
    var a := SkipSpace(c, 0);
    SliceKeepsText(c, a, SkipSpaceBack(c, a, |c|));
  }

  /** Trimming a collapsed string leaves it collapsed. */
  lemma TrimCollapsed(c: string)
    requires Collapsed(c)
    ensures Collapsed(Trim(c))
  {
    TrimFacts(c);
    var a := SkipSpace(c, 0);
    CollapsedSlice(c, a, SkipSpaceBack(c, a, |c|));
  }

  /** What `cleanText` returns: no whitespace at either end, no whitespace
      but single spaces, and the same characters otherwise. */
  lemma CleanTextShape(text: string)
    ensures var r := CleanText(text);
      && Collapsed(r)
      && (r != [] ==> !IsWhitespace(r[0]) && !IsWhitespace(r[|r| - 1]))
      && Visible(r) == Visible(text)
  {
    var c := CollapseWhitespace(text);
    MergeIsNoOp(text);
    CollapseFacts(text);
    TrimFacts(c);
    TrimCollapsed(c);
    CollapseKeepsText(text);
    TrimKeepsText(c);
  }

  /** Cleaning twice is cleaning once. */
  lemma CleanTextIdempotent(text: string)
    ensures CleanText(CleanText(text)) == CleanText(text)
  {
    var r := CleanText(text);
    CleanTextShape(text);
    CollapseOfCollapsed(r);
    MergeIsNoOp(r);
    TrimFacts(r);
    assert SkipSpace(r, 0) == 0;
    assert SkipSpaceBack(r, 0, |r|) == |r|;
    assert r[0..|r|] == r;
  }

  // ------------------------------------------------------------ languages

  /** The codes `translate` knows a language name for. */
  const KnownCodes: set<string> := {"en", "es", "ja", "fr", "de", "it", "pt", "zh", "ar", "hi"}

  /** The `langNames` table of `translate`; any other code is used as it is. */
  function LanguageName(code: string): (r: string)
    ensures code !in KnownCodes ==> r == code
    ensures code in KnownCodes ==> r != code && |r| > 2
  {
    match code
    case "en" => "English"
    case "es" => "Spanish"
    case "ja" => "Japanese"
    case "fr" => "French"
    case "de" => "German"
    case "it" => "Italian"
    case "pt" => "Portuguese"
    case "zh" => "Chinese"
    case "ar" => "Arabic"
    case "hi" => "Hindi"
    case _ => code
  }

  // ------------------------------------------------------------- prompts

  /** How much of the text each prompt quotes before `...` is added. */
  const SummaryExcerpt: nat := 1000
  const RephraseExcerpt: nat := 800
  const ProofreadExcerpt: nat := 800
  const TranslateExcerpt: nat := 600

  function SummarizePrompt(text: string): Prompt {
    BriefSummary(Truncate(text, SummaryExcerpt))
  }

  function RephrasePrompt(text: string): Prompt {
    RephraseText(Truncate(text, RephraseExcerpt))
  }

  function ProofreadPrompt(text: string): Prompt {
    FixErrors(Truncate(text, ProofreadExcerpt))
  }

  function TranslatePrompt(text: string, targetLang: string): Prompt {
    TranslateTo(LanguageName(targetLang), Truncate(text, TranslateExcerpt))
  }

  /** The four prompts quote the same text only up to their limit: texts that
      agree on their first `n` characters, both longer, get the same prompt. */
  lemma PromptSeesPrefix(t1: string, t2: string, lang: string)
    requires |t1| > SummaryExcerpt && |t2| > SummaryExcerpt && t1[..SummaryExcerpt] == t2[..SummaryExcerpt]
    ensures SummarizePrompt(t1) == SummarizePrompt(t2)
    ensures RephrasePrompt(t1) == RephrasePrompt(t2) && ProofreadPrompt(t1) == ProofreadPrompt(t2)
    ensures TranslatePrompt(t1, lang) == TranslatePrompt(t2, lang)
  {
    assert t1[..RephraseExcerpt] == t1[..SummaryExcerpt][..RephraseExcerpt];
    assert t2[..RephraseExcerpt] == t2[..SummaryExcerpt][..RephraseExcerpt];
    assert t1[..TranslateExcerpt] == t1[..SummaryExcerpt][..TranslateExcerpt];
    assert t2[..TranslateExcerpt] == t2[..SummaryExcerpt][..TranslateExcerpt];
    forall t, n: nat | t in {t1, t2} && n in {SummaryExcerpt, RephraseExcerpt, TranslateExcerpt}
      ensures Truncate(t, n) == t[..n] + "..."
    {
      var r := Truncate(t, n);
      assert r == r[..n] + r[n..];
    }
  }

  /** `result.trim()` when the model answered, the local rewrite otherwise. */
  function Reply(answer: Option<string>, fallback: string): (r: string)
    ensures answer.None? ==> r == fallback
    ensures answer.Some? ==> r == Trim(answer.value)
  {
    match answer
    case Some(a) => Trim(a)
    case None => fallback
  }

  /** A reply is the fallback or an answer with no whitespace at either end. */
  lemma ReplyShape(answer: Option<string>, fallback: string)
    ensures var r := Reply(answer, fallback);
      r == fallback || (r != [] ==> !IsWhitespace(r[0]) && !IsWhitespace(r[|r| - 1]))
  {
    if answer.Some? {
      TrimFacts(answer.value);
    }
  }

  /** Without the model, `rephrase` and `proofread` return the cleaned
      text, and cleaning what they return changes nothing. */
  lemma OfflineRewriteStable(text: string)
    ensures Reply(None, CleanText(text)) == CleanText(text)
    ensures CleanText(Reply(None, CleanText(text))) == Reply(None, CleanText(text))
  {
    CleanTextIdempotent(text);
  }

  // ------------------------------------------------------------- the class

  /** `AIProcessor`. A session stands for the `k`-th session
      `LanguageModel.create` made, so `sessions` counts the calls that
      succeeded; `createOk` says whether the next call succeeds, and the
      oracle `model` gives a session's answers. `live` holds the sessions
      made and not destroyed. */
  class Processor {
    var isReady: bool
    var languageModel: bool
    var cachedSession: Option<nat>
    var sessions: nat
    ghost var live: set<nat>

    /** At most one session is alive, the cached one, and the model is ready
        exactly when the capability is recorded. */
    ghost predicate Valid()
      reads this
    {
      && isReady == languageModel
      && (cachedSession.Some? ==> cachedSession.value < sessions)
      && live == if cachedSession.Some? then {cachedSession.value} else {}
    }

    constructor()
      ensures Valid()
      ensures !isReady && !languageModel && cachedSession == None && sessions == 0
    {
      isReady := false;
      languageModel := false;
      cachedSession := None;
      sessions := 0;
      live := {};
    }

    /** `getSession`: the cached session, or a new one that is then cached;
        `None` when `LanguageModel.create` fails. */
    method GetSession(createOk: bool) returns (r: Option<nat>)
      requires Valid()
      modifies this
      ensures Valid()
      ensures isReady == old(isReady) && languageModel == old(languageModel)
      ensures old(cachedSession).Some? ==> r == old(cachedSession) && cachedSession == r && sessions == old(sessions)
      ensures old(cachedSession).None? && createOk ==> r == Some(old(sessions)) && cachedSession == r && sessions == old(sessions) + 1
      ensures old(cachedSession).None? && !createOk ==> r == None && cachedSession == None && sessions == old(sessions)
      ensures r.Some? <==> old(cachedSession).Some? || createOk
    {
      if cachedSession.None? {
        if !createOk {
          return None;
        }
        cachedSession := Some(sessions);
        live := {sessions};
        sessions := sessions + 1;
      }
      r := cachedSession;
    }

    /** `destroySession`: the cached session is destroyed and forgotten, and
        the call succeeds. When `destroy()` throws the call rejects and
        `this.cachedSession = null` is skipped, so the cache is kept. */
    method DestroySession(destroyOk: bool) returns (ok: bool)
      requires Valid()
      modifies this
      ensures Valid()
      ensures ok <==> old(cachedSession).None? || destroyOk
      ensures ok ==> cachedSession == None && live == {}
      ensures !ok ==> cachedSession == old(cachedSession) && live == old(live)
      ensures isReady == old(isReady) && languageModel == old(languageModel) && sessions == old(sessions)
    {
      if cachedSession.Some? {
        if !destroyOk {
          return false;
        }
        live := live - {cachedSession.value};
        cachedSession := None;
      }
      ok := true;
    }

    /** `initialize`: a ready model is recorded and a session cached; a
        failure to create it is swallowed. Any other availability, or no
        `LanguageModel` at all, changes nothing. */
    method Initialize(availability: Availability, createOk: bool)
      requires Valid()
      modifies this
      ensures Valid()
      ensures IsReady(availability) ==> isReady && languageModel
      ensures IsReady(availability) ==> (cachedSession.Some? <==> old(cachedSession).Some? || createOk)
      ensures !IsReady(availability) ==> isReady == old(isReady) && cachedSession == old(cachedSession) && sessions == old(sessions)
    {
      if IsReady(availability) {
        languageModel := true;
        isReady := true;
        var _ := GetSession(createOk);
      }
    }

    /** The common path of the four operations: a session, then the model's
        answer to `prompt`; `None` when either fails. */
    method Ask(prompt: Prompt, createOk: bool, model: Oracle) returns (answer: Option<string>)
      requires Valid() && isReady
      modifies this
      ensures Valid() && isReady
      ensures answer == if old(cachedSession).Some? || createOk then model(prompt) else None
      ensures old(cachedSession).Some? ==> cachedSession == old(cachedSession) && sessions == old(sessions)
      ensures old(cachedSession).None? ==>
        cachedSession == (if createOk then Some(old(sessions)) else None)
        && sessions == (if createOk then old(sessions) + 1 else old(sessions))
    {
      var session := GetSession(createOk);
      if session.None? {
        return None;
      }
      answer := model(prompt);
    }

    /** `summarize`: the model's trimmed answer, or the fallback summary
        when the model is not ready or fails. */
    method Summarize(text: string, createOk: bool, model: Oracle) returns (r: string)
      requires Valid()
      modifies this
      ensures Valid() && isReady == old(isReady)
      ensures old(isReady) && old(cachedSession).Some? ==> cachedSession == old(cachedSession) && sessions == old(sessions)
      ensures old(isReady) && old(cachedSession).None? ==>
        cachedSession == (if createOk then Some(old(sessions)) else None)
        && sessions == (if createOk then old(sessions) + 1 else old(sessions))
      ensures !old(isReady) ==> cachedSession == old(cachedSession) && sessions == old(sessions)
      ensures r == if old(isReady) && (old(cachedSession).Some? || createOk)
        then Reply(model(SummarizePrompt(text)), FallbackSummarize(text))
        else FallbackSummarize(text)
    {
      if !isReady {
        return FallbackSummarize(text);
      }
      var answer := Ask(SummarizePrompt(text), createOk, model);
      r := Reply(answer, FallbackSummarize(text));
    }

    /** `rephrase`: the model's trimmed answer, or the cleaned text. */
    method Rephrase(text: string, createOk: bool, model: Oracle) returns (r: string)
      requires Valid()
      modifies this
      ensures Valid() && isReady == old(isReady)
      ensures old(isReady) && old(cachedSession).Some? ==> cachedSession == old(cachedSession) && sessions == old(sessions)
      ensures old(isReady) && old(cachedSession).None? ==>
        cachedSession == (if createOk then Some(old(sessions)) else None)
        && sessions == (if createOk then old(sessions) + 1 else old(sessions))
      ensures !old(isReady) ==> cachedSession == old(cachedSession) && sessions == old(sessions)
      ensures r == if old(isReady) && (old(cachedSession).Some? || createOk)
        then Reply(model(RephrasePrompt(text)), CleanText(text))
        else CleanText(text)
    {
      if !isReady {
        return CleanText(text);
      }
      var answer := Ask(RephrasePrompt(text), createOk, model);
      r := Reply(answer, CleanText(text));
    }

    /** `proofread`: the model's trimmed answer, or the cleaned text. */
    method Proofread(text: string, createOk: bool, model: Oracle) returns (r: string)
      requires Valid()
      modifies this
      ensures Valid() && isReady == old(isReady)
      ensures old(isReady) && old(cachedSession).Some? ==> cachedSession == old(cachedSession) && sessions == old(sessions)
      ensures old(isReady) && old(cachedSession).None? ==>
        cachedSession == (if createOk then Some(old(sessions)) else None)
        && sessions == (if createOk then old(sessions) + 1 else old(sessions))
      ensures !old(isReady) ==> cachedSession == old(cachedSession) && sessions == old(sessions)
      ensures r == if old(isReady) && (old(cachedSession).Some? || createOk)
        then Reply(model(ProofreadPrompt(text)), CleanText(text))
        else CleanText(text)
    {
      if !isReady {
        return CleanText(text);
      }
      var answer := Ask(ProofreadPrompt(text), createOk, model);
      r := Reply(answer, CleanText(text));
    }

    /** `translate`: there is no local fallback, so a model that is not
        ready, or a session or answer that fails, is an error. */
    method Translate(text: string, createOk: bool, model: Oracle, targetLang: string := "es") returns (r: Result<string>)
      requires Valid()
      modifies this
      ensures Valid() && isReady == old(isReady)
      ensures old(isReady) && old(cachedSession).Some? ==> cachedSession == old(cachedSession) && sessions == old(sessions)
      ensures old(isReady) && old(cachedSession).None? ==>
        cachedSession == (if createOk then Some(old(sessions)) else None)
        && sessions == (if createOk then old(sessions) + 1 else old(sessions))
      ensures !old(isReady) ==> cachedSession == old(cachedSession) && sessions == old(sessions)
      ensures !old(isReady) ==> r == Err("Translation requires AI model")
      ensures old(isReady) ==> r == TranslateOutcome(if old(cachedSession).Some? || createOk then model(TranslatePrompt(text, targetLang)) else None, targetLang)
    {
      if !isReady {
        return Err("Translation requires AI model");
      }
      var answer := Ask(TranslatePrompt(text, targetLang), createOk, model);
      r := TranslateOutcome(answer, targetLang);
    }
  }

  /** What `translate` makes of the model's answer. */
  function TranslateOutcome(answer: Option<string>, targetLang: string): (r: Result<string>)
    ensures r.Ok? <==> answer.Some?
    ensures r.Ok? ==> r.value == Trim(answer.value)
    ensures r.Err? ==> r.message == "Translation to " + targetLang + " failed. Try a different language."
  {
    match answer
    case Some(a) => Ok(Trim(a))
    case None => Err("Translation to " + targetLang + " failed. Try a different language.")
  }
}
