/** The records the extension keeps in `chrome.storage.local`, and the store
    itself: one sequence-valued field per storage key. Timestamps are integer
    milliseconds; an ISO date string of the source is its millisecond value here. */
module Records {
  import opened Wrappers

  /** `MAX_ITEMS` / `StorageManager.maxItems`: the clipboard history bound. */
  const MaxItems: nat := 100

  /** The bound on the saved page contexts. */
  const MaxContexts: nat := 100

  /** One calendar day, and the three days of `setDate(getDate() + 3)`. */
  const OneDay: nat := 24 * 60 * 60 * 1000
  const ThreeDays: nat := 3 * OneDay

  /** A clipboard or highlight entry. `kind` is the source's `type` field
      ('copy' or 'highlight'); `expiresAt == None` is the source's `null`. */
  datatype ClipItem = ClipItem(
    id: string,
    text: string,
    sourceUrl: Option<string>,
    sourceTitle: Option<string>,
    timestamp: nat,
    highlighted: bool,
    kind: string,
    color: Option<string>,
    saved: bool,
    expiresAt: Option<nat>)

  /** A captured page context. The service worker's records carry no `domain`
      and no `summary`; both are `None` there. */
  datatype PageContext = PageContext(
    id: string,
    url: string,
    title: string,
    domain: Option<string>,
    timestamp: nat,
    snippet: string,
    summary: Option<string>,
    saved: bool,
    expiresAt: Option<nat>)

  /** `{...item, addedToSessionAt}` and `{...context, addedToSessionAt}`. */
  datatype SessionItem = SessionItem(item: ClipItem, addedToSessionAt: nat)
  datatype SessionContext = SessionContext(context: PageContext, addedToSessionAt: nat)

  datatype Session = Session(
    id: string,
    name: string,
    description: string,
    createdAt: nat,
    updatedAt: nat,
    items: seq<SessionItem>,
    contexts: seq<SessionContext>,
    tags: seq<string>)

  /** `chrome.storage.local`, with a missing key read as the empty list (the
      `result[key] || []` of every reader). `writes` counts the `set` calls. */
  class LocalStore {
    var items: seq<ClipItem>        // 'smartcopy_items'
    var contexts: seq<PageContext>  // 'smartcopy_contexts'
    var sessions: seq<Session>      // 'smartcopy_sessions'
    var writes: nat

    constructor ()
      ensures items == [] && contexts == [] && sessions == [] && writes == 0
    {
      items, contexts, sessions, writes := [], [], [], 0;
    }

    method SetItems(v: seq<ClipItem>)
      modifies this
      ensures items == v && writes == old(writes) + 1
      ensures contexts == old(contexts) && sessions == old(sessions)
    {
      items, writes := v, writes + 1;
    }

    method SetContexts(v: seq<PageContext>)
      modifies this
      ensures contexts == v && writes == old(writes) + 1
      ensures items == old(items) && sessions == old(sessions)
    {
      contexts, writes := v, writes + 1;
    }

    method SetSessions(v: seq<Session>)
      modifies this
      ensures sessions == v && writes == old(writes) + 1
      ensures items == old(items) && contexts == old(contexts)
    {
      sessions, writes := v, writes + 1;
    }
  }
}
