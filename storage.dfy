/** `StorageManager` (utils/storage.js): the clipboard history kept under the
    'smartcopy_items' key, newest first and bounded by `MaxItems`. */
module Storage {
  import opened Wrappers
  import opened Seqs
  import opened Records

  function ItemIdIs(id: string): ClipItem -> bool {
    (i: ClipItem) => i.id == id
  }

  function ItemIdIsNot(id: string): ClipItem -> bool {
    (i: ClipItem) => i.id != id
  }

  /** What `addClipboardItem` accepts: an item whose text is a non-empty string. */
  predicate IsValidNewItem(item: Option<ClipItem>) {
    item.Some? && item.value.text != ""
  }

  /** An unsaved item without an expiry is given one three days after `now`;
      saved items and items that already expire are stored as they are. */
  function WithDefaultExpiry(item: ClipItem, now: nat): (r: ClipItem)
    ensures r.saved == item.saved && r.(expiresAt := item.expiresAt) == item
    ensures r.expiresAt.Some? <==> !item.saved || item.expiresAt.Some?
    ensures item.expiresAt.Some? ==> r == item
    ensures item.expiresAt.None? && !item.saved ==> r.expiresAt == Some(now + ThreeDays)
  {
    if !item.saved && item.expiresAt.None? then item.(expiresAt := Some(now + ThreeDays)) else item
  }

  /** The fields `markItemAsSaved` writes. */
  function AsSaved(i: ClipItem): ClipItem {
    i.(saved := true, expiresAt := None)
  }

  /** The list after `markItemAsSaved(id)`: the first item with that id is saved
      and no longer expires; every other position is untouched. */
  function MarkSaved(items: seq<ClipItem>, id: string): (r: seq<ClipItem>)
    ensures |r| == |items|
    ensures FirstIndex(items, ItemIdIs(id)).None? ==> r == items
    ensures forall k :: 0 <= k < |items| && Some(k) != FirstIndex(items, ItemIdIs(id)) ==> r[k] == items[k]
    ensures forall k :: 0 <= k < |items| && Some(k) == FirstIndex(items, ItemIdIs(id)) ==>
      r[k] == AsSaved(items[k]) && r[k].saved && r[k].expiresAt.None?
  {
    match FirstIndex(items, ItemIdIs(id))
    case None => items
    case Some(k) => items[k := AsSaved(items[k])]
  }

  /** Marking twice is marking once: the first match does not move. */
  lemma MarkSavedIdempotent(items: seq<ClipItem>, id: string)
    ensures MarkSaved(MarkSaved(items, id), id) == MarkSaved(items, id)
  {
    var once := MarkSaved(items, id);
    FirstIndexPointwise(items, once, ItemIdIs(id));
  }

  /** After `deleteItem(id)` no item has that id, every other item is still
      there, and the survivors keep their order. */
  lemma DeleteItemEffect(items: seq<ClipItem>, id: string)
    ensures forall k :: 0 <= k < |Filter(items, ItemIdIsNot(id))| ==> Filter(items, ItemIdIsNot(id))[k].id != id
    ensures forall k :: 0 <= k < |items| && items[k].id != id ==> items[k] in Filter(items, ItemIdIsNot(id))
    ensures Subsequence(Filter(items, ItemIdIsNot(id)), items)
  {
    FilterIsSubsequence(items, ItemIdIsNot(id));
  }

  /** `cleanupOldItems`' cutoff: `daysToKeep` days before `now`. */
  function Cutoff(now: nat, daysToKeep: nat): int {
    now - daysToKeep * OneDay
  }

  function NewerThan(cutoff: int): ClipItem -> bool {
    (i: ClipItem) => i.timestamp > cutoff
  }

  /** The cleanup keeps exactly the items stamped after the cutoff, in order. */
  lemma CleanupOldItemsEffect(items: seq<ClipItem>, cutoff: int)
    ensures forall k :: 0 <= k < |Filter(items, NewerThan(cutoff))| ==> Filter(items, NewerThan(cutoff))[k].timestamp > cutoff
    ensures forall k :: 0 <= k < |items| && items[k].timestamp > cutoff ==> items[k] in Filter(items, NewerThan(cutoff))
    ensures Subsequence(Filter(items, NewerThan(cutoff)), items)
  {
    FilterIsSubsequence(items, NewerThan(cutoff));
  }

  class StorageManager {
    const store: LocalStore

    constructor (store: LocalStore)
      ensures this.store == store
    {
      this.store := store;
    }

    /** Prepends a valid item (with its default expiry) and keeps the newest
        `MaxItems`; an invalid one is refused and nothing is written. */
    method AddClipboardItem(item: Option<ClipItem>, now: nat) returns (r: Result<ClipItem>)
      modifies store
      ensures !IsValidNewItem(item) ==> r == Err("Invalid clipboard item") && unchanged(store)
      ensures IsValidNewItem(item) ==>
        var stored := WithDefaultExpiry(item.value, now);
        && r == Ok(stored)
        && store.items == Cap([stored] + old(store.items), MaxItems)
        && store.writes == old(store.writes) + 1
      ensures store.contexts == old(store.contexts) && store.sessions == old(store.sessions)
    {
      if !IsValidNewItem(item) {
        return Err("Invalid clipboard item");
      }
      var stored := WithDefaultExpiry(item.value, now);
      var items := [stored] + store.items;
      if |items| > MaxItems {
        items := items[..MaxItems];
      }
      store.SetItems(items);
      r := Ok(stored);
    }

    /** Saves the first item with the id; writes only when there is one. */
    method MarkItemAsSaved(id: string) returns (r: Option<ClipItem>)
      modifies store
      ensures store.items == MarkSaved(old(store.items), id)
      ensures r == match FirstIndex(old(store.items), ItemIdIs(id))
        case None => None
        case Some(k) => Some(store.items[k])
      ensures store.writes == old(store.writes) + (if r.Some? then 1 else 0)
      ensures store.contexts == old(store.contexts) && store.sessions == old(store.sessions)
    {
      var items := store.items;
      var found := FirstIndex(items, ItemIdIs(id));
      if found.Some? {
        var k := found.value;
        items := items[k := AsSaved(items[k])];
        store.SetItems(items);
        r := Some(items[k]);
      } else {
        r := None;
      }
    }

    method DeleteItem(id: string) returns (ok: bool)
      modifies store
      ensures ok
      ensures store.items == Filter(old(store.items), ItemIdIsNot(id))
      ensures store.writes == old(store.writes) + 1
      ensures store.contexts == old(store.contexts) && store.sessions == old(store.sessions)
    {
      store.SetItems(Filter(store.items, ItemIdIsNot(id)));
      ok := true;
    }

    method ClearAll() returns (ok: bool)
      modifies store
      ensures ok && store.items == [] && store.writes == old(store.writes) + 1
      ensures store.contexts == old(store.contexts) && store.sessions == old(store.sessions)
    {
      store.SetItems([]);
      ok := true;
    }

    /** Drops the items older than `daysToKeep` days, writing only when some
        were dropped, and returns how many remain. */
    method CleanupOldItems(now: nat, daysToKeep: nat := 7) returns (kept: nat)
      modifies store
      ensures store.items == Filter(old(store.items), NewerThan(Cutoff(now, daysToKeep)))
      ensures kept == |store.items|
      ensures store.writes == old(store.writes) + (if kept == |old(store.items)| then 0 else 1)
      ensures store.contexts == old(store.contexts) && store.sessions == old(store.sessions)
    {
      var items := store.items;
      var filtered := Filter(items, NewerThan(Cutoff(now, daysToKeep)));
      if |filtered| != |items| {
        store.SetItems(filtered);
      } else {
        FilterKeepsAllIdentity(items, NewerThan(Cutoff(now, daysToKeep)));
      }
      kept := |filtered|;
    }
  }
}
