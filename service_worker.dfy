/** The background service worker (background/service-worker.js): the
    message handlers that record copies, highlights and page contexts, and
    the hourly cleanup of expired entries. Time is `now` in milliseconds, and
    an entry's id is `now` in decimal. */
module ServiceWorker {
  import opened Wrappers
  import opened Text
  import opened Seqs
  import opened Records
  import opened Storage
  import opened Contexts

  /** The tab a message came from (`sender.tab`), reduced to what the
      handlers read. */
  datatype SenderTab = SenderTab(url: Option<string>, title: Option<string>)

  /** `message.data` of a copy or highlight: the text (absent or not a
      string is `None`) and the highlight colour. */
  datatype TextData = TextData(text: Option<string>, color: Option<string>)

  /** `message.data` of `captureContext`. */
  datatype CaptureData = CaptureData(url: string, title: string, snippet: string)

  /** The messages `handleMessage` receives, by `action`. */
  datatype Message =
    | CopyText(data: TextData)
    | HighlightText(data: TextData)
    | CaptureContext(capture: CaptureData)
    | GetClipboardItems
    | Other(action: string)  // an `action` that is none of the four above

  /** The four actions `handleMessage` routes to a handler. */
  predicate KnownAction(action: string) {
    action == "copyText" || action == "highlightText" || action == "captureContext" || action == "getClipboardItems"
  }

  /** The reply passed to `sendResponse`. */
  datatype Response = Response(success: bool, error: Option<string>, data: Option<seq<ClipItem>>)

  /** `tab?.url || 'unknown'`. */
  function SourceUrl(tab: Option<SenderTab>): string {
    if tab.Some? then OrElse(tab.value.url, "unknown") else "unknown"
  }

  /** `tab?.title || 'Untitled'`. */
  function SourceTitle(tab: Option<SenderTab>): string {
    if tab.Some? then OrElse(tab.value.title, "Untitled") else "Untitled"
  }

  /** The text test of both handlers: present and not only whitespace. */
  predicate HasText(data: TextData) {
    data.text.Some? && Trim(data.text.value) != ""
  }

  /** The record `handleCopyText` stores, or `None` when it throws. */
  function CopyItem(data: TextData, tab: Option<SenderTab>, now: nat): (r: Option<ClipItem>)
    ensures r.None? <==> !HasText(data)
    ensures r.Some? ==>
      && r.value.id == NatToString(now) && r.value.timestamp == now
      && r.value.text == Trim(data.text.value) && r.value.text != ""
      && r.value.kind == "copy" && !r.value.highlighted && r.value.color.None?
      && !r.value.saved && r.value.expiresAt == Some(now + ThreeDays)
      && r.value.sourceUrl == Some(SourceUrl(tab)) && r.value.sourceTitle == Some(SourceTitle(tab))
  {
    if !HasText(data) then None
    else Some(ClipItem(NatToString(now), Trim(data.text.value), Some(SourceUrl(tab)), Some(SourceTitle(tab)),
                       now, false, "copy", None, false, Some(now + ThreeDays)))
  }

  /** The record `handleHighlightText` stores, or `None` when it throws. It
      differs from a copy only in its kind, its highlight flag and its colour,
      yellow unless the message names one. */
  function HighlightItem(data: TextData, tab: Option<SenderTab>, now: nat): (r: Option<ClipItem>)
    ensures r.None? <==> !HasText(data)
    ensures r.Some? ==>
      && r.value.kind == "highlight" && r.value.highlighted
      && r.value.color == Some(OrElse(data.color, "#ffff00"))
      && r.value.(kind := "copy", highlighted := false, color := None) == CopyItem(data, tab, now).value
  {
    match CopyItem(data, tab, now)
    case None => None
    case Some(copy) => Some(copy.(kind := "highlight", highlighted := true, color := Some(OrElse(data.color, "#ffff00"))))
  }

  /** The record `handleCaptureContext` stores: unsaved, expiring in three
      days, with neither a domain nor a summary. */
  function CapturedContext(capture: CaptureData, now: nat): (c: PageContext)
    ensures c.id == NatToString(now) && c.timestamp == now
    ensures c.url == capture.url && c.title == capture.title && c.snippet == capture.snippet
    ensures !c.saved && c.expiresAt == Some(now + ThreeDays) && c.domain.None? && c.summary.None?
  {
    PageContext(NatToString(now), capture.url, capture.title, None, now, capture.snippet, None, false, Some(now + ThreeDays))
  }

  // ------------------------------------------------------------- cleanup

  /** The filter callback's write: an unsaved item without an expiry is given
      one three days after it was stamped. */
  function Backfill(i: ClipItem): (r: ClipItem)
    ensures r.(expiresAt := i.expiresAt) == i
    ensures i.saved || i.expiresAt.Some? ==> r == i
    ensures !i.saved && i.expiresAt.None? ==> r.expiresAt == Some(i.timestamp + ThreeDays)
  {
    if !i.saved && i.expiresAt.None? then i.(expiresAt := Some(i.timestamp + ThreeDays)) else i
  }

  /** The filter callback's verdict on a backfilled item. */
  predicate IsLive(i: ClipItem, now: nat) {
    i.saved || (i.expiresAt.Some? && i.expiresAt.value > now)
  }

  function LiveAt(now: nat): ClipItem -> bool {
    (i: ClipItem) => IsLive(i, now)
  }

  /** The items after every callback has run. */
  function Backfilled(items: seq<ClipItem>): (r: seq<ClipItem>)
    ensures |r| == |items| && forall k :: 0 <= k < |items| ==> r[k] == Backfill(items[k])
  {
    seq(|items|, k requires 0 <= k < |items| => Backfill(items[k]))
  }

  /** `active` as the loop of `CleanupExpiredItems` builds it. */
  function ActiveItems(items: seq<ClipItem>, now: nat): seq<ClipItem>
    decreases |items|
  {
    if items == [] then []
    else
      var last := Backfill(items[|items| - 1]);
      ActiveItems(items[..|items| - 1], now) + if IsLive(last, now) then [last] else []
  }

  /** `active` is the live part of the backfilled items. */
  lemma {:induction false} ActiveItemsIsFilter(items: seq<ClipItem>, now: nat)
    ensures ActiveItems(items, now) == Filter(Backfilled(items), LiveAt(now))
    decreases |items|
  {
    if items != [] {
      var init := items[..|items| - 1];
      var last := Backfill(items[|items| - 1]);
      ActiveItemsIsFilter(init, now);
      assert Backfilled(items) == Backfilled(init) + [last];
      FilterAppend(Backfilled(init), [last], LiveAt(now));
      FilterSingleton(last, LiveAt(now));
    }
  }

  /** Backfilling changes nothing once every unsaved item has an expiry. */
  lemma BackfilledStable(items: seq<ClipItem>)
    requires forall k :: 0 <= k < |items| ==> items[k].saved || items[k].expiresAt.Some?
    ensures Backfilled(items) == items
  {
  }

  /** What the cleanup keeps: only live items, every saved item as it is,
      every unsaved item whose (backfilled) expiry is after `now`, in their
      original order. */
  lemma CleanupItemsEffect(items: seq<ClipItem>, now: nat)
    ensures var r := ActiveItems(items, now);
      && (forall k :: 0 <= k < |r| ==> IsLive(r[k], now))
      && (forall k :: 0 <= k < |items| && items[k].saved ==> items[k] in r)
      && (forall k :: 0 <= k < |items| && IsLive(Backfill(items[k]), now) ==> Backfill(items[k]) in r)
      && Subsequence(r, Backfilled(items))
  {
    ActiveItemsIsFilter(items, now);
    FilterIsSubsequence(Backfilled(items), LiveAt(now));
  }

  /** A second cleanup at the same time removes nothing more. */
  lemma CleanupItemsIdempotent(items: seq<ClipItem>, now: nat)
    ensures ActiveItems(ActiveItems(items, now), now) == ActiveItems(items, now)
  {
    var r := ActiveItems(items, now);
    ActiveItemsIsFilter(items, now);
    ActiveItemsIsFilter(r, now);
    BackfilledStable(r);
    FilterIdempotent(Backfilled(items), LiveAt(now));
  }

  /** The worker, over the extension's storage. */
  class Worker {
    const store: LocalStore

    constructor (store: LocalStore)
      ensures this.store == store
    {
      this.store := store;
    }

    /** `addClipboardItem`: prepends a valid item as it is and keeps the newest
        `MaxItems`; an invalid one is refused and nothing is written. */
    method AddClipboardItem(item: Option<ClipItem>) returns (r: Result<ClipItem>)
      modifies store
      ensures !IsValidNewItem(item) ==> r == Err("Invalid clipboard item") && unchanged(store)
      ensures IsValidNewItem(item) ==>
        && r == Ok(item.value)
        && store.items == Cap([item.value] + old(store.items), MaxItems)
        && store.writes == old(store.writes) + 1
      ensures store.contexts == old(store.contexts) && store.sessions == old(store.sessions)
    {
      if !IsValidNewItem(item) {
        return Err("Invalid clipboard item");
      }
      var items := [item.value] + store.items;
      if |items| > MaxItems {
        items := items[..MaxItems];
      }
      store.SetItems(items);
      r := Ok(item.value);
    }

    /** `handleCopyText`; the error is the message it throws. */
    method HandleCopyText(data: TextData, tab: Option<SenderTab>, now: nat) returns (r: Result<ClipItem>)
      modifies store
      ensures CopyItem(data, tab, now).None? ==> r == Err("Empty text cannot be copied") && unchanged(store)
      ensures CopyItem(data, tab, now).Some? ==>
        && r == Ok(CopyItem(data, tab, now).value)
        && store.items == Cap([r.value] + old(store.items), MaxItems)
        && store.writes == old(store.writes) + 1
      ensures store.contexts == old(store.contexts) && store.sessions == old(store.sessions)
    {
      var item := CopyItem(data, tab, now);
      if item.None? {
        return Err("Empty text cannot be copied");
      }
      r := AddClipboardItem(item);
    }

    /** `handleHighlightText`. */
    method HandleHighlightText(data: TextData, tab: Option<SenderTab>, now: nat) returns (r: Result<ClipItem>)
      modifies store
      ensures HighlightItem(data, tab, now).None? ==> r == Err("Empty text cannot be highlighted") && unchanged(store)
      ensures HighlightItem(data, tab, now).Some? ==>
        && r == Ok(HighlightItem(data, tab, now).value)
        && store.items == Cap([r.value] + old(store.items), MaxItems)
        && store.writes == old(store.writes) + 1
      ensures store.contexts == old(store.contexts) && store.sessions == old(store.sessions)
    {
      var item := HighlightItem(data, tab, now);
      if item.None? {
        return Err("Empty text cannot be highlighted");
      }
      r := AddClipboardItem(item);
    }

    /** `handleCaptureContext`: always prepends (no URL matching) and keeps
        the newest `MaxContexts`. */
    method HandleCaptureContext(capture: CaptureData, now: nat)
      modifies store
      ensures store.contexts == Cap([CapturedContext(capture, now)] + old(store.contexts), MaxContexts)
      ensures store.writes == old(store.writes) + 1
      ensures store.items == old(store.items) && store.sessions == old(store.sessions)
    {
      var contextList := [CapturedContext(capture, now)] + store.contexts;
      if |contextList| > MaxContexts {
        contextList := contextList[..MaxContexts];
      }
      store.SetContexts(contextList);
    }

    /** `handleMessage`: every handler error becomes a failed reply carrying
        its message. */
    method HandleMessage(message: Message, tab: Option<SenderTab>, now: nat) returns (reply: Response)
      requires message.Other? ==> !KnownAction(message.action)
      modifies store
      ensures message.Other? ==> reply == Response(false, Some("Unknown action"), None) && unchanged(store)
      ensures message.GetClipboardItems? ==> reply == Response(true, None, Some(store.items)) && unchanged(store)
      ensures message.CaptureContext? ==> reply == Response(true, None, None)
      ensures message.CopyText? ==>
        reply == if HasText(message.data) then Response(true, None, None)
                 else Response(false, Some("Empty text cannot be copied"), None)
      ensures message.HighlightText? ==>
        reply == if HasText(message.data) then Response(true, None, None)
                 else Response(false, Some("Empty text cannot be highlighted"), None)
      ensures (message.CopyText? || message.HighlightText?) && !HasText(message.data) ==> unchanged(store)
      ensures message.CopyText? && HasText(message.data) ==>
        && store.items == Cap([CopyItem(message.data, tab, now).value] + old(store.items), MaxItems)
        && store.writes == old(store.writes) + 1
      ensures message.HighlightText? && HasText(message.data) ==>
        && store.items == Cap([HighlightItem(message.data, tab, now).value] + old(store.items), MaxItems)
        && store.writes == old(store.writes) + 1
      ensures message.CaptureContext? ==>
        && store.contexts == Cap([CapturedContext(message.capture, now)] + old(store.contexts), MaxContexts)
        && store.writes == old(store.writes) + 1
        && store.items == old(store.items)
      ensures !message.CaptureContext? ==> store.contexts == old(store.contexts)
      ensures store.sessions == old(store.sessions)
    {
      match message
      case CopyText(data) =>
        var r := HandleCopyText(data, tab, now);
        reply := if r.Ok? then Response(true, None, None) else Response(false, Some(r.message), None);
      case HighlightText(data) =>
        var r := HandleHighlightText(data, tab, now);
        reply := if r.Ok? then Response(true, None, None) else Response(false, Some(r.message), None);
      case CaptureContext(capture) =>
        HandleCaptureContext(capture, now);
        reply := Response(true, None, None);
      case GetClipboardItems =>
        reply := Response(true, None, Some(store.items));
      case Other(_) =>
        reply := Response(false, Some("Unknown action"), None);
    }

    /** `cleanupExpiredItems`. The backfilled expiries live in the items the
        callback saw; they reach storage only when some item expired, since
        only then is the list written. */
    method CleanupExpiredItems(now: nat)
      modifies store
      ensures store.items == if |ActiveItems(old(store.items), now)| != |old(store.items)|
                             then ActiveItems(old(store.items), now) else old(store.items)
      ensures store.writes == old(store.writes) + (if |ActiveItems(old(store.items), now)| != |old(store.items)| then 1 else 0)
      ensures store.contexts == old(store.contexts) && store.sessions == old(store.sessions)
    {
      var items := store.items;
      var active: seq<ClipItem> := [];
      for k := 0 to |items|
        invariant active == ActiveItems(items[..k], now)
      {
        assert items[..k + 1][..k] == items[..k];
        var item := items[k];
        if item.saved {
          active := active + [item];
          continue;
        }
        if item.expiresAt.None? {
          item := item.(expiresAt := Some(item.timestamp + ThreeDays));
        }
        if item.expiresAt.value > now {
          active := active + [item];
        }
      }
      assert items[..|items|] == items;
      if |active| != |items| {
        store.SetItems(active);
      }
    }

    /** `cleanupExpiredContexts` of the worker: the same test as
        `ContextManager`'s, a context stays when it is saved, has no expiry or
        expires after `now`. */
    method CleanupExpiredContexts(now: nat)
      modifies store
      ensures store.contexts == Filter(old(store.contexts), ActiveAt(now))
      ensures store.writes == old(store.writes) + (if |Filter(old(store.contexts), ActiveAt(now))| != |old(store.contexts)| then 1 else 0)
      ensures store.items == old(store.items) && store.sessions == old(store.sessions)
    {
      var contexts := store.contexts;
      var active := Filter(contexts, ActiveAt(now));
      if |active| != |contexts| {
        store.SetContexts(active);
      } else {
        FilterKeepsAllIdentity(contexts, ActiveAt(now));
      }
    }
  }
}
