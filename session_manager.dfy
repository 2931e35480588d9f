/** `SessionManager` (utils/session-manager.js): named research sessions under
    the 'smartcopy_sessions' key, newest first, each holding clipboard items and
    page contexts without duplicate ids. */
module Sessions {
  import opened Wrappers
  import opened Text
  import opened Seqs
  import opened Records

  function SessionIdIs(id: string): Session -> bool {
    (s: Session) => s.id == id
  }

  function SessionIdIsNot(id: string): Session -> bool {
    (s: Session) => s.id != id
  }

  function ItemEntryIdIs(id: string): SessionItem -> bool {
    (e: SessionItem) => e.item.id == id
  }

  function ItemEntryIdIsNot(id: string): SessionItem -> bool {
    (e: SessionItem) => e.item.id != id
  }

  function ContextEntryIdIs(id: string): SessionContext -> bool {
    (e: SessionContext) => e.context.id == id
  }

  /** The record `createSession` prepends: id from the clock, trimmed name and
      description, both dates `now`, and no items, contexts or tags. */
  function NewSession(name: string, description: string, now: nat): (s: Session)
    ensures s.id == NatToString(now) && s.createdAt == now && s.updatedAt == now
    ensures s.name == Trim(name) && s.description == Trim(description)
    ensures s.items == [] && s.contexts == [] && s.tags == []
  {
    Session(NatToString(now), Trim(name), Trim(description), now, now, [], [], [])
  }

  /** `addItemToSession` on the found session: an item whose id is already
      there changes nothing; otherwise it is appended with the time it was
      added and the session's `updatedAt` moves to `now`. */
  function AddItem(s: Session, item: ClipItem, now: nat): (r: Session)
    ensures Find(s.items, ItemEntryIdIs(item.id)).Some? ==> r == s
    ensures Find(s.items, ItemEntryIdIs(item.id)).None? ==>
      r == s.(items := s.items + [SessionItem(item, now)], updatedAt := now)
  {
    if Find(s.items, ItemEntryIdIs(item.id)).Some? then s
    else s.(items := s.items + [SessionItem(item, now)], updatedAt := now)
  }

  /** Adding the same item again, at any later time, leaves the session as the
      first add left it. */
  lemma AddItemIdempotent(s: Session, item: ClipItem, now: nat, later: nat)
    ensures AddItem(AddItem(s, item, now), item, later) == AddItem(s, item, now)
  {
    var once := AddItem(s, item, now);
    if Find(s.items, ItemEntryIdIs(item.id)).None? {
      assert ItemEntryIdIs(item.id)(once.items[|once.items| - 1]);
    }
  }

  /** After an add the session holds exactly one more entry, or the same ones. */
  lemma AddItemGrowsByOne(s: Session, item: ClipItem, now: nat)
    ensures |AddItem(s, item, now).items| == |s.items| + (if Find(s.items, ItemEntryIdIs(item.id)).Some? then 0 else 1)
    ensures AddItem(s, item, now).items[..|s.items|] == s.items
    ensures Find(AddItem(s, item, now).items, ItemEntryIdIs(item.id)).Some?
  {
    var r := AddItem(s, item, now);
    if Find(s.items, ItemEntryIdIs(item.id)).None? {
      assert ItemEntryIdIs(item.id)(r.items[|r.items| - 1]);
    }
  }

  /** `addContextToSession` on the found session, with the same dedupe rule. */
  function AddContext(s: Session, context: PageContext, now: nat): (r: Session)
    ensures Find(s.contexts, ContextEntryIdIs(context.id)).Some? ==> r == s
    ensures Find(s.contexts, ContextEntryIdIs(context.id)).None? ==>
      r == s.(contexts := s.contexts + [SessionContext(context, now)], updatedAt := now)
  {
    if Find(s.contexts, ContextEntryIdIs(context.id)).Some? then s
    else s.(contexts := s.contexts + [SessionContext(context, now)], updatedAt := now)
  }

  lemma AddContextIdempotent(s: Session, context: PageContext, now: nat, later: nat)
    ensures AddContext(AddContext(s, context, now), context, later) == AddContext(s, context, now)
  {
    var once := AddContext(s, context, now);
    if Find(s.contexts, ContextEntryIdIs(context.id)).None? {
      assert ContextEntryIdIs(context.id)(once.contexts[|once.contexts| - 1]);
    }
  }

  /** `removeItemFromSession` on the found session: every entry with the id
      goes, the rest keep their order, and `updatedAt` moves to `now`. */
  function RemoveItem(s: Session, itemId: string, now: nat): Session {
    s.(items := Filter(s.items, ItemEntryIdIsNot(itemId)), updatedAt := now)
  }

  lemma RemoveItemEffect(s: Session, itemId: string, now: nat)
    ensures forall k :: 0 <= k < |RemoveItem(s, itemId, now).items| ==> RemoveItem(s, itemId, now).items[k].item.id != itemId
    ensures Subsequence(RemoveItem(s, itemId, now).items, s.items)
    ensures forall k :: 0 <= k < |s.items| && s.items[k].item.id != itemId ==> s.items[k] in RemoveItem(s, itemId, now).items
  {
    FilterIsSubsequence(s.items, ItemEntryIdIsNot(itemId));
  }

  /** The keys an `updateSession` call may carry; an absent key is `None`.
      `updatedAt` is not among them: the call always overwrites it. */
  datatype SessionUpdate = SessionUpdate(
    id: Option<string>,
    name: Option<string>,
    description: Option<string>,
    createdAt: Option<nat>,
    items: Option<seq<SessionItem>>,
    contexts: Option<seq<SessionContext>>,
    tags: Option<seq<string>>)

  /** `Object.assign(session, updates, {updatedAt})`. */
  function ApplyUpdate(s: Session, u: SessionUpdate, now: nat): (r: Session)
    ensures r.updatedAt == now
    ensures r.id == (if u.id.Some? then u.id.value else s.id)
    ensures r.name == (if u.name.Some? then u.name.value else s.name)
    ensures r.description == (if u.description.Some? then u.description.value else s.description)
    ensures r.createdAt == (if u.createdAt.Some? then u.createdAt.value else s.createdAt)
    ensures r.items == (if u.items.Some? then u.items.value else s.items)
    ensures r.contexts == (if u.contexts.Some? then u.contexts.value else s.contexts)
    ensures r.tags == (if u.tags.Some? then u.tags.value else s.tags)
  {
    Session(u.id.GetOr(s.id), u.name.GetOr(s.name), u.description.GetOr(s.description),
      u.createdAt.GetOr(s.createdAt), now, u.items.GetOr(s.items), u.contexts.GetOr(s.contexts),
      u.tags.GetOr(s.tags))
  }

  /** An update with no keys only refreshes `updatedAt`. */
  lemma EmptyUpdateOnlyTouches(s: Session, now: nat)
    ensures ApplyUpdate(s, SessionUpdate(None, None, None, None, None, None, None), now) == s.(updatedAt := now)
  {
  }

  class SessionManager {
    const store: LocalStore

    constructor (store: LocalStore)
      ensures this.store == store
    {
      this.store := store;
    }

    method CreateSession(name: string, now: nat, description: string := "") returns (s: Session)
      modifies store
      ensures s == NewSession(name, description, now)
      ensures store.sessions == [s] + old(store.sessions)
      ensures store.writes == old(store.writes) + 1
      ensures store.items == old(store.items) && store.contexts == old(store.contexts)
    {
      s := NewSession(name, description, now);
      store.SetSessions([s] + store.sessions);
    }

    /** The first session with the id, if any. */
    method GetSession(id: string) returns (r: Option<Session>)
      ensures r.Some? ==> r.value in store.sessions && r.value.id == id
      ensures r.None? <==> forall k :: 0 <= k < |store.sessions| ==> store.sessions[k].id != id
      ensures r == Find(store.sessions, SessionIdIs(id))
    {
      r := Find(store.sessions, SessionIdIs(id));
    }

    method AddItemToSession(id: string, item: ClipItem, now: nat) returns (r: Result<Session>)
      modifies store
      ensures FirstIndex(old(store.sessions), SessionIdIs(id)).None? ==>
        r == Err("Session not found") && unchanged(store)
      ensures FirstIndex(old(store.sessions), SessionIdIs(id)).Some? ==>
        var k := FirstIndex(old(store.sessions), SessionIdIs(id)).value;
        var updated := AddItem(old(store.sessions)[k], item, now);
        && r == Ok(updated)
        && store.sessions == old(store.sessions)[k := updated]
        && store.writes == old(store.writes) + (if updated == old(store.sessions)[k] then 0 else 1)
      ensures store.items == old(store.items) && store.contexts == old(store.contexts)
    {
      var sessions := store.sessions;
      var found := FirstIndex(sessions, SessionIdIs(id));
      if found.None? {
        return Err("Session not found");
      }
      var k := found.value;
      var session := sessions[k];
      if Find(session.items, ItemEntryIdIs(item.id)).None? {
        session := session.(items := session.items + [SessionItem(item, now)], updatedAt := now);
        store.SetSessions(sessions[k := session]);
      }
      r := Ok(session);
    }

    method AddContextToSession(id: string, context: PageContext, now: nat) returns (r: Result<Session>)
      modifies store
      ensures FirstIndex(old(store.sessions), SessionIdIs(id)).None? ==>
        r == Err("Session not found") && unchanged(store)
      ensures FirstIndex(old(store.sessions), SessionIdIs(id)).Some? ==>
        var k := FirstIndex(old(store.sessions), SessionIdIs(id)).value;
        var updated := AddContext(old(store.sessions)[k], context, now);
        && r == Ok(updated)
        && store.sessions == old(store.sessions)[k := updated]
        && store.writes == old(store.writes) + (if updated == old(store.sessions)[k] then 0 else 1)
      ensures store.items == old(store.items) && store.contexts == old(store.contexts)
    {
      var sessions := store.sessions;
      var found := FirstIndex(sessions, SessionIdIs(id));
      if found.None? {
        return Err("Session not found");
      }
      var k := found.value;
      var session := sessions[k];
      if Find(session.contexts, ContextEntryIdIs(context.id)).None? {
        session := session.(contexts := session.contexts + [SessionContext(context, now)], updatedAt := now);
        store.SetSessions(sessions[k := session]);
      }
      r := Ok(session);
    }

    method RemoveItemFromSession(id: string, itemId: string, now: nat) returns (r: Result<Session>)
      modifies store
      ensures FirstIndex(old(store.sessions), SessionIdIs(id)).None? ==>
        r == Err("Session not found") && unchanged(store)
      ensures FirstIndex(old(store.sessions), SessionIdIs(id)).Some? ==>
        var k := FirstIndex(old(store.sessions), SessionIdIs(id)).value;
        var updated := RemoveItem(old(store.sessions)[k], itemId, now);
        && r == Ok(updated)
        && store.sessions == old(store.sessions)[k := updated]
        && store.writes == old(store.writes) + 1
      ensures store.items == old(store.items) && store.contexts == old(store.contexts)
    {
      var sessions := store.sessions;
      var found := FirstIndex(sessions, SessionIdIs(id));
      if found.None? {
        return Err("Session not found");
      }
      var k := found.value;
      var session := sessions[k].(items := Filter(sessions[k].items, ItemEntryIdIsNot(itemId)), updatedAt := now);
      store.SetSessions(sessions[k := session]);
      r := Ok(session);
    }

    method DeleteSession(id: string) returns (ok: bool)
      modifies store
      ensures ok
      ensures store.sessions == Filter(old(store.sessions), SessionIdIsNot(id))
      ensures store.writes == old(store.writes) + 1
      ensures store.items == old(store.items) && store.contexts == old(store.contexts)
    {
      store.SetSessions(Filter(store.sessions, SessionIdIsNot(id)));
      ok := true;
    }

    method UpdateSession(id: string, updates: SessionUpdate, now: nat) returns (r: Result<Session>)
      modifies store
      ensures FirstIndex(old(store.sessions), SessionIdIs(id)).None? ==>
        r == Err("Session not found") && unchanged(store)
      ensures FirstIndex(old(store.sessions), SessionIdIs(id)).Some? ==>
        var k := FirstIndex(old(store.sessions), SessionIdIs(id)).value;
        var updated := ApplyUpdate(old(store.sessions)[k], updates, now);
        && r == Ok(updated)
        && store.sessions == old(store.sessions)[k := updated]
        && store.writes == old(store.writes) + 1
      ensures store.items == old(store.items) && store.contexts == old(store.contexts)
    {
      var sessions := store.sessions;
      var found := FirstIndex(sessions, SessionIdIs(id));
      if found.None? {
        return Err("Session not found");
      }
      var k := found.value;
      var session := ApplyUpdate(sessions[k], updates, now);
      store.SetSessions(sessions[k := session]);
      r := Ok(session);
    }
  }

  /** Deleting a session keeps every other session, in order, and leaves none
      with that id. */
  lemma DeleteSessionEffect(sessions: seq<Session>, id: string)
    ensures forall k :: 0 <= k < |Filter(sessions, SessionIdIsNot(id))| ==> Filter(sessions, SessionIdIsNot(id))[k].id != id
    ensures forall k :: 0 <= k < |sessions| && sessions[k].id != id ==> sessions[k] in Filter(sessions, SessionIdIsNot(id))
    ensures Subsequence(Filter(sessions, SessionIdIsNot(id)), sessions)
  {
    FilterIsSubsequence(sessions, SessionIdIsNot(id));
  }
}
