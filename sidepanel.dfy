/** `SidePanelManager` (sidepanel/sidepanel.js): the clipboard history the
    side panel lists, filtered by kind and by a search query, and the small
    formatting helpers its entries are shown with. Rendering is left out; the
    panel's state is its fields. Its `cleanText` and `getLanguageName` are
    the same code as `AIProcessor`'s and are `AiProcessor.CleanText` and
    `AiProcessor.LanguageName` here. */
module SidePanel {
  import opened Wrappers
  import opened Text
  import opened Seqs
  import opened Records
  import opened Storage

  // ------------------------------------------------------------ filtering

  /** The filter that shows every kind of item. */
  const AllKinds: string := "all"

  /** `field?.toLowerCase().includes(query)`: an absent field never matches. */
  predicate FieldMatches(field: Option<string>, query: string) {
    field.Some? && Contains(Lower(field.value), query)
  }

  /** The search test of `applyFilters`: the text, the source title or the
      source URL contains the query, all lower-cased. */
  predicate MatchesQuery(item: ClipItem, query: string) {
    Contains(Lower(item.text), query) || FieldMatches(item.sourceTitle, query) || FieldMatches(item.sourceUrl, query)
  }

  function KindIs(filter: string): ClipItem -> bool {
    (item: ClipItem) => item.kind == filter
  }

  function QueryIn(query: string): ClipItem -> bool {
    (item: ClipItem) => MatchesQuery(item, query)
  }

  /** Whether an item is listed under `filter` and `query`. */
  predicate Listed(item: ClipItem, filter: string, query: string) {
    (filter == AllKinds || item.kind == filter) && (query == "" || MatchesQuery(item, query))
  }

  function ListedUnder(filter: string, query: string): ClipItem -> bool {
    (item: ClipItem) => Listed(item, filter, query)
  }

  /** The items the panel lists: those of `items` that are listed, in order. */
  function Filtered(items: seq<ClipItem>, filter: string, query: string): (r: seq<ClipItem>)
    ensures |r| <= |items|
  {
    Filter(items, ListedUnder(filter, query))
  }

  /** The list keeps the order of the history and only drops items. */
  lemma FilteredIsSubsequence(items: seq<ClipItem>, filter: string, query: string)
    ensures Subsequence(Filtered(items, filter, query), items)
  {
    FilterIsSubsequence(items, ListedUnder(filter, query));
  }

  /** An item is listed exactly when it is in the history, of the chosen
      kind (any kind under "all") and, with a query, matches it. */
  lemma FilteredMembers(items: seq<ClipItem>, filter: string, query: string, x: ClipItem)
    ensures x in Filtered(items, filter, query) <==>
      x in items && (filter == AllKinds || x.kind == filter) && (query == "" || MatchesQuery(x, query))
  {
    var r := Filtered(items, filter, query);
    if x in r {
      var k :| 0 <= k < |r| && r[k] == x;
    }
    if x in items && Listed(x, filter, query) {
      var k :| 0 <= k < |items| && items[k] == x;
    }
  }

  /** Under "all" and no query the whole history is listed, and under any
      other filter only items of that kind. */
  lemma FilteredKinds(items: seq<ClipItem>, filter: string, query: string)
    ensures Filtered(items, AllKinds, "") == items
    ensures filter != AllKinds ==> forall k :: 0 <= k < |Filtered(items, filter, query)| ==> Filtered(items, filter, query)[k].kind == filter
  {
    FilterKeepsAll(items, ListedUnder(AllKinds, ""));
    FilterKeepsAllIdentity(items, ListedUnder(AllKinds, ""));
  }

  /** The list depends on the query only through what it matches: a query
      that every item matches lists the same as no query. */
  lemma QueryMatchingAll(items: seq<ClipItem>, filter: string, query: string)
    requires forall k :: 0 <= k < |items| ==> MatchesQuery(items[k], query)
    ensures Filtered(items, filter, query) == Filtered(items, filter, "")
  {
    FilteredPointwise(items, ListedUnder(filter, query), ListedUnder(filter, ""));
  }

  lemma {:induction false} FilteredPointwise(items: seq<ClipItem>, p: ClipItem -> bool, q: ClipItem -> bool)
    requires forall k :: 0 <= k < |items| ==> p(items[k]) == q(items[k])
    ensures Filter(items, p) == Filter(items, q)
  {
    if items != [] {
      FilteredPointwise(items[1..], p, q);
    }
  }

  /** The reverse of `s`. */
  function Reversed<T>(s: seq<T>): (r: seq<T>)
    ensures |r| == |s|
    ensures forall k :: 0 <= k < |s| ==> r[k] == s[|s| - 1 - k]
  {
    seq(|s|, k requires 0 <= k < |s| => s[|s| - 1 - k])
  }

  /** Reversing twice gives back the history. */
  lemma ReversedTwice<T>(s: seq<T>)
    ensures Reversed(Reversed(s)) == s
  {
  }

  // --------------------------------------------------------------- panel

  /** The panel's history state. `currentItem` is the item shown at the top;
      `storage` is where `loadHistory` and `deleteItem` go. */
  class Panel {
    const storage: StorageManager
    var allItems: seq<ClipItem>
    var filteredItems: seq<ClipItem>
    var currentFilter: string
    var searchQuery: string
    var currentItem: Option<ClipItem>

    /** The listed items are the filtered history. */
    ghost predicate Shown()
      reads this
    {
      filteredItems == Filtered(allItems, currentFilter, searchQuery)
    }

    constructor(storage: StorageManager)
      ensures this.storage == storage
      ensures allItems == [] && filteredItems == [] && currentFilter == AllKinds && searchQuery == "" && currentItem == None
      ensures Shown()
    {
      this.storage := storage;
      allItems := [];
      filteredItems := [];
      currentFilter := AllKinds;
      searchQuery := "";
      currentItem := None;
    }

    /** `applyFilters`: by kind unless the filter is "all", then by query
        unless it is empty. */
    method ApplyFilters()
      modifies this
      ensures filteredItems == Filtered(allItems, currentFilter, searchQuery)
      ensures allItems == old(allItems) && currentFilter == old(currentFilter) && searchQuery == old(searchQuery)
      ensures currentItem == old(currentItem)
    {
      var filtered := allItems;
      if currentFilter != AllKinds {
        filtered := Filter(filtered, KindIs(currentFilter));
      }
      if searchQuery != "" {
        filtered := Filter(filtered, QueryIn(searchQuery));
      }
      ghost var both := ListedUnder(currentFilter, searchQuery);
      if currentFilter != AllKinds && searchQuery != "" {
        FilterThenFilter(allItems, KindIs(currentFilter), QueryIn(searchQuery), both);
      } else if currentFilter != AllKinds {
        FilteredPointwise(allItems, KindIs(currentFilter), both);
      } else if searchQuery != "" {
        FilteredPointwise(allItems, QueryIn(searchQuery), both);
      } else {
        FilterKeepsAll(allItems, both);
        FilterKeepsAllIdentity(allItems, both);
      }
      filteredItems := filtered;
    }

    /** `setFilter`. */
    method SetFilter(filter: string)
      modifies this
      ensures currentFilter == filter && Shown()
      ensures allItems == old(allItems) && searchQuery == old(searchQuery) && currentItem == old(currentItem)
    {
      currentFilter := filter;
      ApplyFilters();
    }

    /** The search box's `input` handler: the query is kept lower-cased. */
    method SetSearchQuery(value: string)
      modifies this
      ensures searchQuery == Lower(value) && Shown()
      ensures allItems == old(allItems) && currentFilter == old(currentFilter) && currentItem == old(currentItem)
    {
      searchQuery := Lower(value);
      ApplyFilters();
    }

    /** The clear-search button. */
    method ClearSearch()
      modifies this
      ensures searchQuery == "" && Shown()
      ensures allItems == old(allItems) && currentFilter == old(currentFilter) && currentItem == old(currentItem)
    {
      searchQuery := "";
      ApplyFilters();
    }

    /** `loadHistory`: the stored list, reversed. */
    method LoadHistory()
      modifies this
      ensures allItems == Reversed(storage.store.items) && Shown()
      ensures currentFilter == old(currentFilter) && searchQuery == old(searchQuery) && currentItem == old(currentItem)
    {
      allItems := Reversed(storage.store.items);
      ApplyFilters();
    }

    /** The `clipboardUpdated` message: the new item goes first and is shown
        at the top. */
    method OnClipboardUpdated(item: ClipItem)
      modifies this
      ensures allItems == [item] + old(allItems) && currentItem == Some(item) && Shown()
      ensures currentFilter == old(currentFilter) && searchQuery == old(searchQuery)
    {
      allItems := [item] + allItems;
      ApplyFilters();
      currentItem := Some(item);
    }

    /** `deleteItem`: the item goes from storage and from the panel, and
        stops being the current item if it was. */
    method DeleteItem(id: string)
      modifies this, storage.store
      ensures storage.store.items == Filter(old(storage.store.items), ItemIdIsNot(id))
      ensures storage.store.contexts == old(storage.store.contexts) && storage.store.sessions == old(storage.store.sessions)
      ensures allItems == Filter(old(allItems), ItemIdIsNot(id)) && Shown()
      ensures currentItem == if old(currentItem).Some? && old(currentItem).value.id == id then None else old(currentItem)
      ensures currentFilter == old(currentFilter) && searchQuery == old(searchQuery)
    {
      var _ := storage.DeleteItem(id);
      allItems := Filter(allItems, ItemIdIsNot(id));
      ApplyFilters();
      if currentItem.Some? && currentItem.value.id == id {
        currentItem := None;
      }
    }

    /** `clearAllItems`: nothing happens unless the user confirms; then the
        stored items, the panel's lists and the current item are cleared. */
    method ClearAllItems(confirmed: bool)
      modifies this, storage.store
      ensures !confirmed ==>
        allItems == old(allItems) && filteredItems == old(filteredItems) && currentItem == old(currentItem)
        && storage.store.items == old(storage.store.items)
      ensures confirmed ==> allItems == [] && filteredItems == [] && currentItem == None && storage.store.items == []
      ensures storage.store.contexts == old(storage.store.contexts) && storage.store.sessions == old(storage.store.sessions)
      ensures currentFilter == old(currentFilter) && searchQuery == old(searchQuery)
    {
      if !confirmed {
        return;
      }
      var _ := storage.ClearAll();
      allItems := [];
      filteredItems := [];
      currentItem := None;
    }
  }

  /** A newly copied item is listed exactly when it passes the current
      filter and query, and it then comes first. */
  lemma NewItemListed(items: seq<ClipItem>, item: ClipItem, filter: string, query: string)
    ensures var r := Filtered([item] + items, filter, query);
      && (Listed(item, filter, query) ==> r == [item] + Filtered(items, filter, query))
      && (!Listed(item, filter, query) ==> r == Filtered(items, filter, query))
  {
    FilterAppend([item], items, ListedUnder(filter, query));
    FilterSingleton(item, ListedUnder(filter, query));
  }

  /** After a deletion no listed item has the deleted id. */
  lemma DeletedNotListed(items: seq<ClipItem>, id: string, filter: string, query: string)
    ensures forall k :: 0 <= k < |Filtered(Filter(items, ItemIdIsNot(id)), filter, query)| ==>
      Filtered(Filter(items, ItemIdIsNot(id)), filter, query)[k].id != id
  {
    var rest := Filter(items, ItemIdIsNot(id));
    var r := Filtered(rest, filter, query);
    forall k | 0 <= k < |r| ensures r[k].id != id {
      assert r[k] in rest;
      var j :| 0 <= j < |rest| && rest[j] == r[k];
    }
  }

  // -------------------------------------------------------------- helpers

  /** `capitalize`: the first character upper-cased, the rest kept. */
  function Capitalize(s: string): (r: string)
    ensures |r| == |s|
    ensures s != [] ==> r[0] == UpperChar(s[0]) && r[1..] == s[1..]
  {
    if s == [] then [] else [UpperChar(s[0])] + s[1..]
  }

  /** Capitalising twice is capitalising once. */
  lemma CapitalizeIdempotent(s: string)
    ensures Capitalize(Capitalize(s)) == Capitalize(s)
  {
    if s != [] {
      assert UpperChar(UpperChar(s[0])) == UpperChar(s[0]);
    }
  }

  const MinuteMs: nat := 60000

  /** How long ago a timestamp was, as `formatTime` rounds it. */
  datatype Elapsed = JustNow | MinutesAgo(minutes: nat) | HoursAgo(hours: nat) | DaysAgo(days: nat) | Earlier

  /** `formatTime`'s buckets. The elapsed time `now - timestamp` (which is
      negative for a timestamp in the future) is floored to minutes, the
      minutes to hours and the hours to days; Dafny's division is the floor
      for a positive divisor. */
  function ElapsedSince(timestamp: int, now: int): (b: Elapsed)
    ensures b == JustNow <==> now - timestamp < MinuteMs
    ensures b.MinutesAgo? ==> 1 <= b.minutes < 60 && b.minutes * MinuteMs <= now - timestamp < (b.minutes + 1) * MinuteMs
    ensures b.HoursAgo? ==> 1 <= b.hours < 24 && b.hours * 60 * MinuteMs <= now - timestamp < (b.hours + 1) * 60 * MinuteMs
    ensures b.DaysAgo? ==> 1 <= b.days < 7 && b.days * 24 * 60 * MinuteMs <= now - timestamp < (b.days + 1) * 24 * 60 * MinuteMs
    ensures b == Earlier <==> now - timestamp >= 7 * 24 * 60 * MinuteMs
  {
    var diffMins := (now - timestamp) / MinuteMs;
    if diffMins < 1 then JustNow
    else if diffMins < 60 then MinutesAgo(diffMins)
    else
      var diffHours := diffMins / 60;
      if diffHours < 24 then HoursAgo(diffHours)
      else
        var diffDays := diffHours / 24;
        if diffDays < 7 then DaysAgo(diffDays) else Earlier
  }

  /** `formatTime(timestamp)` at time `now`; `localeDate` is
      `date.toLocaleDateString()`. */
  function FormatTime(timestamp: int, now: int, localeDate: string): (r: string)
  {
    match ElapsedSince(timestamp, now)
    case JustNow => "Just now"
    case MinutesAgo(n) => NatToString(n) + "m ago"
    case HoursAgo(n) => NatToString(n) + "h ago"
    case DaysAgo(n) => NatToString(n) + "d ago"
    case Earlier => localeDate
  }

  /** A relative label names its count in decimal, which reads back as the
      count, followed by its unit. */
  lemma FormatTimeReadsBack(timestamp: int, now: int, localeDate: string)
    ensures var b := ElapsedSince(timestamp, now);
      var r := FormatTime(timestamp, now, localeDate);
      && (b.MinutesAgo? ==> |r| > 5 && r[|r| - 5..] == "m ago" && ParseDecimal(r[..|r| - 5]) == b.minutes)
      && (b.HoursAgo? ==> |r| > 5 && r[|r| - 5..] == "h ago" && ParseDecimal(r[..|r| - 5]) == b.hours)
      && (b.DaysAgo? ==> |r| > 5 && r[|r| - 5..] == "d ago" && ParseDecimal(r[..|r| - 5]) == b.days)
      && (b == Earlier ==> r == localeDate)
  {
    var b := ElapsedSince(timestamp, now);
    var r := FormatTime(timestamp, now, localeDate);
    match b
    case MinutesAgo(n) =>
      ParseNatToString(n);
      assert r[..|r| - 5] == NatToString(n);
    case HoursAgo(n) =>
      ParseNatToString(n);
      assert r[..|r| - 5] == NatToString(n);
    case DaysAgo(n) =>
      ParseNatToString(n);
      assert r[..|r| - 5] == NatToString(n);
    case _ =>
  }

  /** Older timestamps never fall in an earlier bucket. */
  lemma ElapsedMonotone(t1: int, t2: int, now: int)
    requires t1 <= t2
    ensures Rank(ElapsedSince(t2, now)) <= Rank(ElapsedSince(t1, now))
  {
  }

  function Rank(b: Elapsed): nat {
    match b
    case JustNow => 0
    case MinutesAgo(_) => 1
    case HoursAgo(_) => 2
    case DaysAgo(_) => 3
    case Earlier => 4
  }
}
