/** `ContextManager` (utils/context-manager.js): the page contexts under the
    'smartcopy_contexts' key, at most one per URL when written through here,
    newest first and bounded by `MaxContexts`. */
module Contexts {
  import opened Wrappers
  import opened Text
  import opened Seqs
  import opened Records
  import opened LanguageModel

  function UrlIs(url: string): PageContext -> bool {
    (c: PageContext) => c.url == url
  }

  function ContextIdIs(id: string): PageContext -> bool {
    (c: PageContext) => c.id == id
  }

  /** `extractPageSnippet`: the first 500 characters of the page text, trimmed. */
  function PageSnippet(pageText: string): (r: string)
    ensures |r| <= 500
  {
    Trim(Take(pageText, 500))
  }

  /** The prompt of `generateSummary`. */
  function SummaryPrompt(snippet: string): Prompt {
    PageSummary(snippet)
  }

  /** The context's summary: asked for only when the model reports exactly
      'available'. A failing `LanguageModel.create`, prompt or
      `session.destroy` is caught by `generateSummary` and leaves it `null`. */
  function Summary(availability: Availability, model: Oracle, createOk: bool, destroyOk: bool,
                   snippet: string): (r: Option<string>)
    ensures r.Some? <==>
      availability == Some("available") && createOk && destroyOk && model(SummaryPrompt(snippet)).Some?
    ensures r.Some? ==> r == Some(Trim(model(SummaryPrompt(snippet)).value))
  {
    if availability != Some("available") || !createOk then None
    else match model(SummaryPrompt(snippet))
      case None => None
      case Some(answer) => if destroyOk then Some(Trim(answer)) else None
  }

  /** The record `capturePageContext(text, manual)` builds. A manual capture is
      saved for good; an automatic one expires three days after `now`. */
  function NewContext(now: nat, url: string, title: string, hostname: string, text: string,
                      pageText: string, manual: bool, summary: Option<string>): (c: PageContext)
    ensures c.id == NatToString(now) && c.timestamp == now && c.url == url
    ensures c.snippet == if text != "" then text else PageSnippet(pageText)
    ensures manual ==> c.saved && c.expiresAt.None?
    ensures !manual ==> !c.saved && c.expiresAt == Some(now + ThreeDays)
  {
    PageContext(NatToString(now), url, title, Some(hostname), now,
      if text != "" then text else PageSnippet(pageText),
      summary, manual, if manual then None else Some(now + ThreeDays))
  }

  /** The list after `saveContext(c)`: the first entry with the same URL is
      replaced in place, otherwise `c` is prepended; then it is cut to
      `MaxContexts`. */
  function Upsert(contexts: seq<PageContext>, c: PageContext): (r: seq<PageContext>)
    ensures |r| <= MaxContexts
  {
    var placed := match FirstIndex(contexts, UrlIs(c.url))
      case Some(k) => contexts[k := c]
      case None => [c] + contexts;
    Cap(placed, MaxContexts)
  }

  /** A known URL is replaced where it stands; the length does not change. */
  lemma UpsertExisting(contexts: seq<PageContext>, c: PageContext)
    requires |contexts| <= MaxContexts
    requires FirstIndex(contexts, UrlIs(c.url)).Some?
    ensures var k := FirstIndex(contexts, UrlIs(c.url)).value;
      Upsert(contexts, c) == contexts[k := c]
  {
  }

  /** A new URL comes first, followed by the old list less its oldest entry
      when the list was full. */
  lemma UpsertNew(contexts: seq<PageContext>, c: PageContext)
    requires FirstIndex(contexts, UrlIs(c.url)).None?
    ensures Upsert(contexts, c)[0] == c
    ensures Upsert(contexts, c)[1..] <= contexts
    ensures |Upsert(contexts, c)| == if |contexts| < MaxContexts then |contexts| + 1 else MaxContexts
  {
    PrependCapped(contexts, c, MaxContexts);
  }

  /** Reading a URL back just after saving a context for it yields that
      context, whenever the list respected its bound. */
  lemma {:induction false} UpsertThenFind(contexts: seq<PageContext>, c: PageContext)
    requires |contexts| <= MaxContexts
    ensures Find(Upsert(contexts, c), UrlIs(c.url)) == Some(c)
  {
    var r := Upsert(contexts, c);
    match FirstIndex(contexts, UrlIs(c.url))
    case Some(k) =>
      assert r == contexts[k := c];
      assert UrlIs(c.url)(r[k]);
      forall j | 0 <= j < k ensures !UrlIs(c.url)(r[j]) {
        assert r[j] == contexts[j];
      }
      FirstIndexIs(r, UrlIs(c.url), k);
    case None =>
      PrependCapped(contexts, c, MaxContexts);
      assert UrlIs(c.url)(r[0]);
      FirstIndexIs(r, UrlIs(c.url), 0);
  }

  function AsSaved(c: PageContext): PageContext {
    c.(saved := true, expiresAt := None)
  }

  /** The list after `markContextAsSaved(id)`: only the first entry with the
      id changes, and it no longer expires. */
  function MarkSaved(contexts: seq<PageContext>, id: string): (r: seq<PageContext>)
    ensures |r| == |contexts|
    ensures FirstIndex(contexts, ContextIdIs(id)).None? ==> r == contexts
    ensures forall k :: 0 <= k < |contexts| && Some(k) != FirstIndex(contexts, ContextIdIs(id)) ==> r[k] == contexts[k]
    ensures forall k :: 0 <= k < |contexts| && Some(k) == FirstIndex(contexts, ContextIdIs(id)) ==>
      r[k] == AsSaved(contexts[k]) && r[k].saved && r[k].expiresAt.None?
  {
    match FirstIndex(contexts, ContextIdIs(id))
    case None => contexts
    case Some(k) => contexts[k := AsSaved(contexts[k])]
  }

  /** A context survives cleanup when it is saved, never expires, or expires
      after `now`. */
  predicate IsActive(c: PageContext, now: nat) {
    c.saved || c.expiresAt.None? || c.expiresAt.value > now
  }

  function ActiveAt(now: nat): PageContext -> bool {
    (c: PageContext) => IsActive(c, now)
  }

  /** The cleanup keeps exactly the active contexts, in order, and a second
      cleanup at the same time removes nothing. */
  lemma CleanupEffect(contexts: seq<PageContext>, now: nat)
    ensures forall k :: 0 <= k < |Filter(contexts, ActiveAt(now))| ==> IsActive(Filter(contexts, ActiveAt(now))[k], now)
    ensures forall k :: 0 <= k < |contexts| && IsActive(contexts[k], now) ==> contexts[k] in Filter(contexts, ActiveAt(now))
    ensures Subsequence(Filter(contexts, ActiveAt(now)), contexts)
    ensures Filter(Filter(contexts, ActiveAt(now)), ActiveAt(now)) == Filter(contexts, ActiveAt(now))
  {
    FilterIsSubsequence(contexts, ActiveAt(now));
    FilterIdempotent(contexts, ActiveAt(now));
  }

  class ContextManager {
    const store: LocalStore
    var currentPageContext: Option<PageContext>

    constructor (store: LocalStore)
      ensures this.store == store && currentPageContext.None?
    {
      this.store := store;
      currentPageContext := None;
    }

    /** Builds the record, saves it and remembers it as the current context. */
    method CapturePageContext(now: nat, url: string, title: string, hostname: string, pageText: string,
                              availability: Availability, model: Oracle, createOk: bool, destroyOk: bool,
                              text: string := "", manual: bool := false)
      returns (c: PageContext)
      modifies this, store
      ensures var snippet := if text != "" then text else PageSnippet(pageText);
        c == NewContext(now, url, title, hostname, text, pageText, manual, Summary(availability, model, createOk, destroyOk, snippet))
      ensures currentPageContext == Some(c)
      ensures store.contexts == Upsert(old(store.contexts), c)
      ensures store.writes == old(store.writes) + 1
      ensures store.items == old(store.items) && store.sessions == old(store.sessions)
    {
      var snippet := if text != "" then text else PageSnippet(pageText);
      c := NewContext(now, url, title, hostname, text, pageText, manual, Summary(availability, model, createOk, destroyOk, snippet));
      SaveContext(c);
      currentPageContext := Some(c);
    }

    method SaveContext(c: PageContext)
      modifies store
      ensures store.contexts == Upsert(old(store.contexts), c)
      ensures store.writes == old(store.writes) + 1
      ensures store.items == old(store.items) && store.sessions == old(store.sessions)
    {
      var contexts := store.contexts;
      var existing := FirstIndex(contexts, UrlIs(c.url));
      if existing.Some? {
        contexts := contexts[existing.value := c];
      } else {
        contexts := [c] + contexts;
      }
      if |contexts| > MaxContexts {
        contexts := contexts[..MaxContexts];
      }
      store.SetContexts(contexts);
    }

    /** The first context saved for the URL, if any. */
    method GetContextForUrl(url: string) returns (r: Option<PageContext>)
      ensures r.Some? ==> r.value in store.contexts && r.value.url == url
      ensures r.None? <==> forall k :: 0 <= k < |store.contexts| ==> store.contexts[k].url != url
      ensures r == Find(store.contexts, UrlIs(url))
    {
      r := Find(store.contexts, UrlIs(url));
    }

    method MarkContextAsSaved(id: string)
      modifies store
      ensures store.contexts == MarkSaved(old(store.contexts), id)
      ensures store.writes == old(store.writes) + (if FirstIndex(old(store.contexts), ContextIdIs(id)).Some? then 1 else 0)
      ensures store.items == old(store.items) && store.sessions == old(store.sessions)
    {
      var contexts := store.contexts;
      var found := FirstIndex(contexts, ContextIdIs(id));
      if found.Some? {
        var k := found.value;
        store.SetContexts(contexts[k := AsSaved(contexts[k])]);
      }
    }

    /** Drops the expired contexts, writing only when some were dropped, and
        returns how many remain. */
    method CleanupExpiredContexts(now: nat) returns (kept: nat)
      modifies store
      ensures store.contexts == Filter(old(store.contexts), ActiveAt(now))
      ensures kept == |store.contexts|
      ensures store.writes == old(store.writes) + (if kept == |old(store.contexts)| then 0 else 1)
      ensures store.items == old(store.items) && store.sessions == old(store.sessions)
    {
      var contexts := store.contexts;
      var active := Filter(contexts, ActiveAt(now));
      if |active| != |contexts| {
        store.SetContexts(active);
      } else {
        FilterKeepsAllIdentity(contexts, ActiveAt(now));
      }
      kept := |active|;
    }
  }
}
