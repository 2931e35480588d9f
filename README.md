# whatsthecontext, modelled in Dafny

This project models the core of *whatsthecontext* ("SmartCopy"), a Chrome
extension with three jobs:

- it records what the user copies or highlights, and the pages they visit;
- it groups the open tabs by topic, using the browser's on-device language
  model;
- it offers AI rewrites of stored text.

The project verifies properties of that model.

## Modules

| module | file | what it holds |
|---|---|---|
| `Wrappers` | `wrappers.dfy` | `Option` and `Result` |
| `Text` | `text.dfy` | string helpers |
| `Seqs` | `seqs.dfy` | sequence helpers |
| `Records` | `records.dfy` | the records and the store |
| `LanguageModel` | `language_model.dfy` | the language model as an oracle |
| `Storage` | `storage.dfy` | `StorageManager` (utils/storage.js) |
| `Sessions` | `session_manager.dfy` | `SessionManager` (utils/session-manager.js) |
| `Contexts` | `context_manager.dfy` | `ContextManager` (utils/context-manager.js) |
| `ServiceWorker` | `service_worker.dfy` | the background worker (background/service-worker.js) |
| `Similarity` | `similarity.dfy` | topic similarity (utils/tab-grouper.js) |
| `Clustering` | `clustering.dfy` | the clustering partition (utils/tab-grouper.js) |
| `StableSort` | `stable_sort.dfy` | the stable sort (utils/tab-grouper.js) |
| `Tabs` | `tabs.dfy` | tab records (utils/tab-grouper.js) |
| `Fallback` | `fallback.dfy` | the domain fallback (utils/tab-grouper.js) |
| `TabGrouper` | `tab_grouper.dfy` | the tab-grouping pipeline (utils/tab-grouper.js) |
| `AiProcessor` | `ai_processor.dfy` | `AIProcessor` (utils/ai-processor.js) |
| `SidePanel` | `sidepanel.dfy` | the side panel's list logic and helpers (sidepanel/sidepanel.js) |

Helper modules:

- `Text`:
  - whitespace;
  - ASCII case mapping;
  - `trim`;
  - splitting on whitespace;
  - substring search;
  - `replace` of a first occurrence;
  - `truncate`;
  - decimal numerals.
- `Seqs`: order-preserving filter, `findIndex`/`find`, and the prepend-and-cap of a list.

## The store

`chrome.storage.local` is the class `Records.LocalStore`. It has one sequence field per key:

| key | field |
|---|---|
| `smartcopy_items` | `items` |
| `smartcopy_contexts` | `contexts` |
| `smartcopy_sessions` | `sessions` |

The store also keeps a `writes` counter, incremented by every `set`. Contracts use it to say when a method writes and when it does not.

The managers hold a reference to the store and change its fields. Their methods state:

- the whole new content of the store;
- that the other keys are unchanged.

## Time and ids

- Time is an integer count of milliseconds, `now`.
- The three-day expiry is `ThreeDays`, and one day is `OneDay`.
- A record's id is `now` in decimal (`Date.now().toString()`).
- A timestamp is stored as the number it was written from. ISO strings are not modelled.

## The language model

The language model is an oracle: `Oracle = Prompt -> Option<string>`.

- `None` is a prompt that throws or times out.
- A prompt is a value of the datatype `LanguageModel.Prompt`, one constructor per kind of prompt the code issues.
- `PromptText` gives each prompt's wording.

An oracle over prompt texts is one over `Prompt` values that factors through `PromptText`, so nothing is lost by this. It keeps long string literals out of the proofs.

Availability is `Option<string>`:

- `None` is a missing `LanguageModel` global;
- `Some("available")` and `Some("readily")` count as ready.

Whether `LanguageModel.create` and `session.destroy` succeed are the boolean parameters `createOk` and `destroyOk`.

## Other browser services

These are parameters:

- URL parsing (`new URL(u).hostname`) is `hostOf: string -> Option<string>`.
- `chrome.scripting.executeScript` on a tab is `scrape: Tab -> Extraction`.
- The user's answer to `confirm` is `confirmed`.
- `toLocaleDateString()` is `localeDate`.

## Imperative code

Operations that change state in place keep that form:

- the managers are classes with `modifies` clauses;
- the tab-grouping loops are methods with loop invariants:
  - the topic loop writes `content.topic` into an `array`;
  - the similarity sweep uses a `processed` set;
  - `fallbackGrouping` fills a map;
  - `applyTabGroups` keeps a created-count loop.

Each such method is proved equal to a specification function. The properties the code promises are lemmas about those functions:

- the partition;
- greedy seeding;
- the stable size-descending sort;
- the first-seen domain order;
- the cap of 100;
- "nothing else changes".

## Behaviour of the code worth noting

- `generateSemanticGroups` destroys its session only on the success path. A `session.destroy()` that throws sends the flow to the `catch`, which returns the domain fallback. That fallback is computed on the entries whose topics were already written in place. The session is not released there.
- `groupOpenTabs` reports "No groups were created" both when the group list is empty and when no group has a tab with an id. `applyTabGroups` throws when `createdCount` is 0.
- `capturePageContext` asks for a summary only when availability is exactly `'available'`. `'readily'` does not count there, unlike in `generateSemanticGroups` and `AIProcessor.initialize`.
- The worker's `cleanupExpiredItems` backfills a missing `expiresAt` inside its filter callback. The backfilled items reach storage only when some item was removed, because only then is the list written.
- In the side panel, history is loaded in reverse stored order (`allItems.reverse()`, oldest first), while new copies are put in front (`unshift`).
- `url.hostname.replace('www.', '')` removes the first `"www."` anywhere in the host, not only a leading one.
- The side panel's `cleanText` and `getLanguageName` are the same code as `AIProcessor.cleanText` and the language table of `AIProcessor.translate`. They are modelled once, as `AiProcessor.CleanText` and `AiProcessor.LanguageName`. The side panel's `truncate` is `Text.Truncate`.

## Model

| member | source | states |
|---|---|---|
| Text.Truncate | sidepanel/sidepanel.js:932-934 | a string no longer than the limit is returned unchanged; a longer one becomes exactly its first `n` characters followed by "..." |
| Text.TruncateBound | sidepanel/sidepanel.js:932-934 | a truncated string is at most `n + 3` long and starts with the string's first `min(n, length)` characters |
| Text.ReplaceFirstAt | utils/tab-grouper.js:281 | when the first occurrence of the pattern is at `k`, `replace` gives the text before `k`, the replacement, then the text after the occurrence |
| Text.ReplaceFirstAbsent | utils/tab-grouper.js:281 | `replace` changes nothing when the pattern does not occur |
| Text.ParseNatToString | background/service-worker.js:70 | the decimal id `Date.now().toString()` reads back as the same number |
| Text.NatToStringInjective | background/service-worker.js:70 | distinct timestamps give distinct ids |
| Seqs.PrependCapped | utils/storage.js:41-46 | after `unshift` and the cap, the new element is first, the rest is a prefix of the old list, and the length is `min(old + 1, cap)` |
| Seqs.FirstIndex | utils/context-manager.js:79 | `findIndex`: the index found satisfies the test and no earlier one does; none is found exactly when no element satisfies it |
| Seqs.Find | utils/context-manager.js:111 | `find`: the result is an element that satisfies the test; there is none exactly when no element satisfies it |
| Records.LocalStore.constructor | utils/storage.js:7-12 | storage starts with every list empty and nothing written |
| Records.LocalStore.SetItems | utils/storage.js:48 | `set` of the items key replaces the items, counts one write, and leaves the other keys alone |
| Records.LocalStore.SetContexts | utils/context-manager.js:91 | `set` of the contexts key replaces the contexts only |
| Records.LocalStore.SetSessions | utils/session-manager.js:28 | `set` of the sessions key replaces the sessions only |
| Storage.WithDefaultExpiry | utils/storage.js:35-39 | an unsaved item without an expiry gets `now + ThreeDays`; a saved item or one with an expiry is left as it is; no other field changes |
| Storage.MarkSaved | utils/storage.js:58-65 | only the first item with the id becomes saved with no expiry; every other item, and the length, are unchanged; an absent id changes nothing |
| Storage.MarkSavedIdempotent | utils/storage.js:56-72 | marking the same id saved twice is the same as once |
| Storage.DeleteItemEffect | utils/storage.js:77 | after deletion no item has the id, every other item is kept, and the order is preserved |
| Storage.CleanupOldItemsEffect | utils/storage.js:102-105 | cleanup keeps exactly the items stamped strictly after the cutoff, in order |
| Storage.StorageManager.constructor | utils/storage.js:2-5 | the manager works on the given store |
| Storage.StorageManager.AddClipboardItem | utils/storage.js:29-54 | a missing item or one with empty text is refused with "Invalid clipboard item" and nothing is written; otherwise the item, with its default expiry, is put first and the list is capped at 100, in one write |
| Storage.StorageManager.MarkItemAsSaved | utils/storage.js:56-72 | the items become `MarkSaved` of the old items; the updated item is returned when the id exists, and storage is written exactly then |
| Storage.StorageManager.DeleteItem | utils/storage.js:74-84 | every item with the id is removed, the rest keep their order, and the call reports success |
| Storage.StorageManager.ClearAll | utils/storage.js:86-94 | the item list becomes empty; contexts and sessions are untouched |
| Storage.StorageManager.CleanupOldItems | utils/storage.js:96-117 | the items stamped after `now - daysToKeep` days are kept (by default 7 days); their count is returned; storage is written only when something was removed |
| Sessions.NewSession | utils/session-manager.js:13-23 | a new session has the decimal id and both stamps of `now`, the trimmed name and description, and no items, contexts or tags |
| Sessions.AddItem | utils/session-manager.js:55-63 | an item whose id is already in the session changes nothing; otherwise exactly one entry, stamped `now`, is appended and `updatedAt` becomes `now` |
| Sessions.AddItemIdempotent | utils/session-manager.js:55-63 | adding the same item again, at any later time, changes nothing more |
| Sessions.AddItemGrowsByOne | utils/session-manager.js:55-60 | adding grows the items by one exactly when the id was absent, keeps the old items as a prefix, and leaves the id present |
| Sessions.AddContext | utils/session-manager.js:76-84 | the same dedupe-then-append rule for contexts |
| Sessions.AddContextIdempotent | utils/session-manager.js:76-84 | adding the same context twice is the same as once |
| Sessions.RemoveItemEffect | utils/session-manager.js:97-98 | after removal no entry has the item id, every other entry is kept, and the order is preserved |
| Sessions.ApplyUpdate | utils/session-manager.js:120-122 | `Object.assign` overwrites exactly the keys the update gives, keeps every other key, and sets `updatedAt` to `now` |
| Sessions.EmptyUpdateOnlyTouches | utils/session-manager.js:120-122 | an update with no keys changes only `updatedAt` |
| Sessions.SessionManager.constructor | utils/session-manager.js:2-4 | the manager works on the given store |
| Sessions.SessionManager.CreateSession | utils/session-manager.js:13-30 | the new session is put before the existing ones, which are unchanged, in one write |
| Sessions.SessionManager.GetSession | utils/session-manager.js:42-45 | returns a stored session with the id (the first), or nothing exactly when no session has the id |
| Sessions.SessionManager.AddItemToSession | utils/session-manager.js:47-66 | an unknown session gives "Session not found" and nothing is written; otherwise only the first matching session becomes `AddItem` of it, and storage is written only when it changed |
| Sessions.SessionManager.AddContextToSession | utils/session-manager.js:68-87 | the same for contexts |
| Sessions.SessionManager.RemoveItemFromSession | utils/session-manager.js:89-102 | an unknown session gives "Session not found"; otherwise only that session loses the item entries and storage is written |
| Sessions.SessionManager.DeleteSession | utils/session-manager.js:104-110 | every session with the id is dropped and the others keep their order |
| Sessions.SessionManager.UpdateSession | utils/session-manager.js:112-126 | an unknown session gives "Session not found"; otherwise only that session becomes `ApplyUpdate` of it |
| Sessions.DeleteSessionEffect | utils/session-manager.js:106 | after deletion no session has the id, every other one is kept, and the order is preserved |
| Contexts.PageSnippet | utils/context-manager.js:40-47 | the page snippet is at most 500 characters |
| Contexts.Summary | utils/context-manager.js:24-66 | there is a summary exactly when availability is exactly "available" and `LanguageModel.create`, the two-sentence prompt and `session.destroy` all succeed; it is then the model's trimmed answer |
| Contexts.NewContext | utils/context-manager.js:11-22 | the captured record has the decimal id of `now`, the page URL, and the given text or else the page snippet; a manual capture is saved with no expiry, an automatic one is unsaved and expires three days on |
| Contexts.Upsert | utils/context-manager.js:79-89 | after saving, the list holds at most 100 contexts |
| Contexts.UpsertExisting | utils/context-manager.js:79-82 | a URL already present replaces the first entry with that URL in place; nothing else moves |
| Contexts.UpsertNew | utils/context-manager.js:83-89 | a new URL is put first and the old list follows, capped at 100 |
| Contexts.UpsertThenFind | utils/context-manager.js:75-112 | after saving a context, looking up its URL finds exactly that context |
| Contexts.MarkSaved | utils/context-manager.js:116-120 | only the first context with the id becomes saved with no expiry; all others are unchanged; an absent id changes nothing |
| Contexts.CleanupEffect | utils/context-manager.js:130-136 | cleanup keeps exactly the contexts that are saved, have no expiry, or expire after `now`, in order; a second cleanup removes nothing |
| Contexts.ContextManager.constructor | utils/context-manager.js:2-5 | starts with no current page context |
| Contexts.ContextManager.CapturePageContext | utils/context-manager.js:11-38 | the context built, with its summary if any, is saved by URL and becomes the current page context |
| Contexts.ContextManager.SaveContext | utils/context-manager.js:75-97 | the contexts become the upsert of the old list, in one write |
| Contexts.ContextManager.GetContextForUrl | utils/context-manager.js:109-112 | returns a stored context with that URL (the first), or nothing exactly when none has it |
| Contexts.ContextManager.MarkContextAsSaved | utils/context-manager.js:114-123 | the contexts become `MarkSaved` of the old list; storage is written only when the id exists |
| Contexts.ContextManager.CleanupExpiredContexts | utils/context-manager.js:125-148 | keeps the active contexts, returns their count, and writes only when something was removed |
| ServiceWorker.CopyItem | background/service-worker.js:61-79 | text that is missing or only whitespace is refused; otherwise the record holds the trimmed text, kind "copy", not highlighted, unsaved, expiring three days on, with the tab's URL or "unknown" and its title or "Untitled" |
| ServiceWorker.HighlightItem | background/service-worker.js:89-109 | the same validation; the record differs from a copy only in kind "highlight", the highlight flag, and its colour ("#ffff00" unless given) |
| ServiceWorker.CapturedContext | background/service-worker.js:127-135 | the captured context is unsaved, expires three days on, and carries the message's URL, title and snippet |
| ServiceWorker.Backfill | background/service-worker.js:197-203 | an unsaved item without an expiry gets its timestamp plus three days; every other item is untouched |
| ServiceWorker.Backfilled | background/service-worker.js:196-203 | every item is backfilled in place, with the length unchanged |
| ServiceWorker.ActiveItemsIsFilter | background/service-worker.js:196-207 | the list the cleanup loop builds is the live part of the backfilled items |
| ServiceWorker.BackfilledStable | background/service-worker.js:197-203 | backfilling changes nothing once every unsaved item has an expiry |
| ServiceWorker.CleanupItemsEffect | background/service-worker.js:196-207 | cleanup keeps only live items, every saved item, and every item whose backfilled expiry is after `now`, in their original order |
| ServiceWorker.CleanupItemsIdempotent | background/service-worker.js:196-207 | a second cleanup at the same time removes nothing more |
| ServiceWorker.Worker.constructor | background/service-worker.js:1-2 | the worker works on the given store |
| ServiceWorker.Worker.AddClipboardItem | background/service-worker.js:158-177 | an item without text is refused with "Invalid clipboard item" and nothing is written; otherwise it is put first and the list is capped at 100 |
| ServiceWorker.Worker.HandleCopyText | background/service-worker.js:61-87 | empty text gives "Empty text cannot be copied" and storage is untouched; otherwise the copy record is put first, capped at 100 |
| ServiceWorker.Worker.HandleHighlightText | background/service-worker.js:89-117 | empty text gives "Empty text cannot be highlighted"; otherwise the highlight record is put first, capped at 100 |
| ServiceWorker.Worker.HandleCaptureContext | background/service-worker.js:119-146 | the context is always put first, with no URL matching, and the list is capped at 100 |
| ServiceWorker.Worker.HandleMessage | background/service-worker.js:29-59 | an unknown action replies `{success: false, error: 'Unknown action'}`; the stored items are returned for `getClipboardItems`; a handler's error becomes a failed reply with its message, and storage is untouched on a failure; a successful copy or highlight puts its record first in the items, capped at 100, and a capture puts its context first in the contexts, capped at 100, with the other keys unchanged |
| ServiceWorker.Worker.CleanupExpiredItems | background/service-worker.js:190-216 | the items become the cleaned list when some item expired and stay as they were otherwise; storage is written exactly when the length changed |
| ServiceWorker.Worker.CleanupExpiredContexts | background/service-worker.js:218-239 | keeps the contexts that are saved, have no expiry, or expire after `now`; writes only when something was removed |
| Similarity.SignificantWords | utils/tab-grouper.js:260-264 | the significant words are whitespace-free runs of more than 3 characters |
| Similarity.Score | utils/tab-grouper.js:259-272 | the similarity lies in [0, 1] |
| Similarity.Ratio | utils/tab-grouper.js:268-271 | the ratio of shared to total words is 1 exactly when every word is shared, and 0 exactly when none is |
| Similarity.ScoreSymmetric | utils/tab-grouper.js:259-272 | the similarity of two topics does not depend on their order |
| Similarity.ScoreOne | utils/tab-grouper.js:266-271 | the similarity is 1 exactly when both topics have the same non-empty set of significant words |
| Similarity.SelfScore | utils/tab-grouper.js:263-271 | a topic with a significant word has similarity 1 with itself |
| Similarity.ScoreZero | utils/tab-grouper.js:266-271 | the similarity is 0 exactly when either topic has no significant word or they share none |
| Similarity.AreTopicsSimilar | utils/tab-grouper.js:235-257 | above 0.8 the topics are similar and below 0.2 they are not, without a prompt; in between they are similar exactly when the prompt succeeds and its trimmed, upper-cased answer contains "YES" |
| Similarity.DecidedWithoutModel | utils/tab-grouper.js:239-240 | outside the band, any two models give the same verdict |
| Similarity.SimilarToItself | utils/tab-grouper.js:237-239 | a topic with a significant word is similar to itself whatever the model answers |
| Similarity.NoSignificantWordNeverSimilar | utils/tab-grouper.js:266 | a topic without a significant word is similar to nothing, in either order |
| Clustering.Candidates | utils/tab-grouper.js:203-222 | the indices the inner loop adds for a seed are increasing, and are exactly the unprocessed later indices the seed judges similar |
| Clustering.SweptProcessedAt | utils/tab-grouper.js:203-222 | an index is processed after the sweep exactly when it was before, or it follows the seed and the seed judges it similar |
| Clustering.SweptProcessed | utils/tab-grouper.js:215-218 | the sweep adds exactly the joined indices to `processed` |
| Clustering.SweptGathered | utils/tab-grouper.js:199-216 | the cluster's tabs are the seed's tab, then the joined tabs, in index order |
| Clustering.Clusters | utils/tab-grouper.js:193-229 | every group the outer loop creates starts at its seed, is increasing, and uses only unprocessed indices |
| Clustering.SeedIsGroup | utils/tab-grouper.js:196-224 | a free seed and the indices it gathers form such a group |
| Clustering.SeedCluster | utils/tab-grouper.js:193-229 | at a free seed the loop creates its group and continues with those indices processed |
| Clustering.ClustersDisjoint | utils/tab-grouper.js:193-229 | no index is placed in two groups |
| Clustering.ClustersCover | utils/tab-grouper.js:193-229 | every unprocessed index from the seed on is placed in some group |
| Clustering.ClustersSeedsLowest | utils/tab-grouper.js:193-196 | each group's seed is the lowest index not placed in an earlier group |
| Clustering.ClustersSeedsIncrease | utils/tab-grouper.js:193-229 | the seeds of successive groups increase |
| Clustering.MembersAfterSeed | utils/tab-grouper.js:203-218 | a later index not placed earlier is in a seed's group exactly when the seed judges it similar |
| Clustering.ClustersMembers | utils/tab-grouper.js:203-218 | membership is the seed's judgement for every group |
| Clustering.GroupsPartition | utils/tab-grouper.js:191-229 | the groups partition the indices: each is non-empty and increasing, no index repeats, and none is left out |
| Clustering.GroupsGreedy | utils/tab-grouper.js:193-224 | greedy seeding: every index below a seed is in an earlier group, the seeds increase, and a later free index joins a group exactly when its seed judges it similar |
| StableSort.SortPermutes | utils/tab-grouper.js:231 | sorting permutes the clusters |
| StableSort.SortedByKeyDesc | utils/tab-grouper.js:231 | the sorted list has non-increasing size |
| StableSort.SortStable | utils/tab-grouper.js:231 | clusters of equal size keep their creation order |
| StableSort.SortOfSorted | utils/tab-grouper.js:231 | a list already in non-increasing order is left as it is |
| Fallback.Domain | utils/tab-grouper.js:280-281 | an entry has a domain exactly when its URL parses |
| Fallback.DomainDropsWww | utils/tab-grouper.js:281 | a leading "www." is dropped; so is one inside the host when no 'w' comes before it |
| Fallback.FallbackGroups | utils/tab-grouper.js:292-294 | there is one group per distinct domain |
| Fallback.FirstSeenSound | utils/tab-grouper.js:278-286 | every listed domain is the domain of some entry |
| Fallback.FirstSeenComplete | utils/tab-grouper.js:278-286 | the domain of every entry whose URL parses is listed |
| Fallback.FirstSeenDomains | utils/tab-grouper.js:278-286 | a domain is listed exactly when some entry has it |
| Fallback.FirstSeenDistinct | utils/tab-grouper.js:283-285 | no domain is listed twice |
| Fallback.TabsForFirstSeen | utils/tab-grouper.js:283-286 | a domain is listed exactly when it has at least one tab |
| Fallback.TabsForSound | utils/tab-grouper.js:286 | every tab listed for a domain belongs to an entry with that domain |
| Fallback.TabsForComplete | utils/tab-grouper.js:286 | every entry with the domain contributes its tab |
| Fallback.FallbackGroupsShape | utils/tab-grouper.js:274-295 | the groups have `name == topic`, no group is empty, names are distinct, each holds exactly its domain's tabs, and every parsed entry's tab is in its domain's group |
| Fallback.FallbackGrouping | utils/tab-grouper.js:274-295 | the map-filling loop and the final filter give exactly the first-seen domain groups |
| TabGrouper.Kept | utils/tab-grouper.js:82-95 | a script result is kept exactly when it has a title, text or headings; the kept text is never empty |
| TabGrouper.ContentOf | utils/tab-grouper.js:43-108 | a skipped tab or an empty result gives no entry; a kept entry has the tab, an empty topic, and a non-empty title and text; a failed script gives the entry built from the tab's own title and URL |
| TabGrouper.ResultAlwaysKept | utils/tab-grouper.js:64-78 | the injected function always supplies a title, so a result that arrives is never discarded |
| TabGrouper.Extracted | utils/tab-grouper.js:39-113 | there is at most one entry per tab, each with a tab from the input and no topic yet |
| TabGrouper.ExtractedAll | utils/tab-grouper.js:42-108 | when every tab is groupable and returns something, every tab has an entry |
| TabGrouper.ExtractTabContents | utils/tab-grouper.js:39-113 | the extraction loop yields exactly the per-tab entries, in tab order |
| TabGrouper.TopicFor | utils/tab-grouper.js:138-150 | the topic is the model's trimmed answer, or the title cut to 50 characters when the prompt fails or times out |
| TabGrouper.WithTopic | utils/tab-grouper.js:140-148 | setting the topic changes no other field |
| TabGrouper.WithTopics | utils/tab-grouper.js:138-150 | every entry gets its own topic, in place, and the length is unchanged |
| TabGrouper.AssignTopics | utils/tab-grouper.js:138-150 | the topic loop over the array leaves each entry with its topic set |
| TabGrouper.TabsOf | utils/tab-grouper.js:199-216 | a cluster's tabs are the tabs of its indices, in order |
| TabGrouper.ClusterOf | utils/tab-grouper.js:197-201 | a cluster is named after its seed's topic, with `name == topic` |
| TabGrouper.Resolve | utils/tab-grouper.js:193-229 | each index group becomes its cluster, in creation order |
| TabGrouper.GroupsValid | utils/tab-grouper.js:193-229 | every created index group is non-empty and within the entries |
| TabGrouper.Created | utils/tab-grouper.js:193-229 | one cluster per group of the partition, each with at least one tab and `name == topic` |
| TabGrouper.SeedStep | utils/tab-grouper.js:196-227 | one outer step at a free seed appends its group and its cluster, and keeps the loop in step with the partition |
| TabGrouper.GatherSimilar | utils/tab-grouper.js:203-222 | the inner loop gathers the seed's tab followed by the tabs of the joined indices, and adds those indices to `processed` |
| TabGrouper.ClusterByTopics | utils/tab-grouper.js:189-233 | the loops and the final sort give the greedy partition's clusters sorted by size |
| TabGrouper.TopicClustersShape | utils/tab-grouper.js:226-231 | the result is sorted by non-increasing size, is a permutation of the created clusters, keeps ties in creation order, and every cluster has a tab and `name == topic` |
| TabGrouper.SameTopicJoins | utils/tab-grouper.js:209-217 | a later free entry with the same topic as a seed, if that topic has a significant word, always joins the seed's cluster |
| TabGrouper.GenerateSemanticGroups | utils/tab-grouper.js:115-162 | the domain fallback is used unless the model is ready and a session opens; then topics are written in place and clustered; a failing `destroy` also ends in the fallback |
| TabGrouper.SemanticGroupsNonEmpty | utils/tab-grouper.js:115-162 | every proposed group, on any path, has a tab and `name == topic` |
| TabGrouper.DefinedIds | utils/tab-grouper.js:326 | the ids kept are empty exactly when no tab has an id |
| TabGrouper.DefinedIdsExactly | utils/tab-grouper.js:326 | an id is kept exactly when some tab has it |
| TabGrouper.DisplayName | utils/tab-grouper.js:335 | a name longer than 30 characters becomes its first 27 and "..."; the label is never longer than 30 |
| TabGrouper.PlanFor | utils/tab-grouper.js:320-341 | a group is created exactly when one of its tabs has an id; it gets colour `i % 9` by its position in the full list, its display name, its tab count, and is collapsed exactly when it has more than 5 tabs |
| TabGrouper.PlansNone | utils/tab-grouper.js:320-352 | no group is created exactly when no group has a tab with an id |
| TabGrouper.PlansAll | utils/tab-grouper.js:320-348 | when every group has a tab with an id, every group is created |
| TabGrouper.ApplyTabGroups | utils/tab-grouper.js:317-352 | the plans are one per eligible group, in order; "No groups were created" is raised exactly when there are none |
| TabGrouper.GroupOpenTabs | utils/tab-grouper.js:7-37 | the pipeline's outcome is its error or its groups, and the group-creation calls are the plans of those groups |
| TabGrouper.OnlySystemPages | utils/tab-grouper.js:11-21 | "No valid tabs to group" is raised exactly when every tab is a system page or has no URL |
| TabGrouper.SuccessfulGrouping | utils/tab-grouper.js:7-37 | a successful grouping proposes at least one group, each with a tab, and at least one with a tab that has an id |
| AiProcessor.SentencesShape | utils/ai-processor.js:135 | every match is a sentence and is contained in the text |
| AiProcessor.SentencesNone | utils/ai-processor.js:135 | there is no match exactly when no non-terminator is followed, later, by a terminator |
| AiProcessor.Shorten | utils/ai-processor.js:137 | the result is at most 300 characters; a longer summary becomes its first 297 characters and "..." |
| AiProcessor.FallbackSummarize | utils/ai-processor.js:134-138 | the fallback summary is never longer than 300 characters |
| AiProcessor.FallbackWithoutSentence | utils/ai-processor.js:135-137 | with no sentence match, the summary is the whole text, shortened |
| AiProcessor.FallbackFromSentences | utils/ai-processor.js:135-137 | otherwise it is the first at most 3 matches joined by single spaces, shortened; each match is a sentence of the text |
| AiProcessor.CollapseFacts | utils/ai-processor.js:142 | after the whitespace collapse no two whitespace characters are adjacent, and a leading whitespace run becomes one space |
| AiProcessor.CollapseKeepsText | utils/ai-processor.js:142 | the collapse keeps every non-whitespace character, in order |
| AiProcessor.CollapseOfCollapsed | utils/ai-processor.js:142 | collapsing collapsed text changes nothing |
| AiProcessor.MergeWithoutNewline | utils/ai-processor.js:143 | the blank-line merge changes nothing when there is no newline |
| AiProcessor.MergeIsNoOp | utils/ai-processor.js:142-143 | after the collapse no newline is left, so the second replace is a no-op |
| AiProcessor.CleanTextShape | utils/ai-processor.js:140-145 | cleaned text has no repeated whitespace and none at either end, and keeps every visible character in order |
| AiProcessor.CleanTextIdempotent | utils/ai-processor.js:140-145 | cleaning cleaned text changes nothing |
| AiProcessor.LanguageName | sidepanel/sidepanel.js:910-924 | a known code maps to a name other than itself; any other code maps to itself |
| AiProcessor.PromptSeesPrefix | utils/ai-processor.js:58-125 | two texts longer than 1000 characters that agree on their first 1000 give the same prompts for every action (limits 1000, 800, 800, 600) |
| AiProcessor.Reply | utils/ai-processor.js:57-66 | a successful prompt gives its trimmed answer; a failed one gives the fallback |
| AiProcessor.ReplyShape | utils/ai-processor.js:57-66 | a reply is the fallback or has no whitespace at its ends |
| AiProcessor.OfflineRewriteStable | utils/ai-processor.js:69-100 | when the model fails, rephrasing or proofreading returns the cleaned text, and cleaning that again changes nothing |
| AiProcessor.TranslateOutcome | utils/ai-processor.js:124-131 | a translation succeeds exactly when the prompt does, with the trimmed answer; otherwise the error names the target language |
| AiProcessor.Processor.constructor | utils/ai-processor.js:2-8 | a new processor is not ready, has no language model and no cached session |
| AiProcessor.Processor.GetSession | utils/ai-processor.js:34-43 | a cached session is returned as it is; otherwise one new session is created and cached, or none when creation fails |
| AiProcessor.Processor.DestroySession | utils/ai-processor.js:45-50 | the call succeeds exactly when nothing is cached or `destroy()` succeeds; then the cache is cleared and no session stays open, and when `destroy()` throws the cache is kept |
| AiProcessor.Processor.Initialize | utils/ai-processor.js:10-32 | on "available" or "readily" the processor becomes ready and opens a session if it can; any other availability changes nothing |
| AiProcessor.Processor.Ask | utils/ai-processor.js:59-61 | the answer is the model's when a session is cached or can be created, and a failure otherwise; the cache is used when present |
| AiProcessor.Processor.Summarize | utils/ai-processor.js:52-67 | not ready gives the fallback summary; ready gives the model's trimmed answer, or the fallback summary when the session or the prompt fails; a ready processor leaves the same session cache that `getSession` would (the cached one, or one new session when creation succeeds), and one not ready leaves it untouched |
| AiProcessor.Processor.Rephrase | utils/ai-processor.js:69-84 | not ready, or a failure, gives the cleaned text; otherwise the trimmed answer; a ready processor leaves the same session cache that `getSession` would (the cached one, or one new session when creation succeeds), and one not ready leaves it untouched |
| AiProcessor.Processor.Proofread | utils/ai-processor.js:86-101 | the same routing as rephrase, with the proofreading prompt; a ready processor leaves the same session cache that `getSession` would (the cached one, or one new session when creation succeeds), and one not ready leaves it untouched |
| AiProcessor.Processor.Translate | utils/ai-processor.js:103-132 | not ready gives "Translation requires AI model"; otherwise the trimmed answer, or the error naming the target language (by default "es"); a ready processor leaves the same session cache that `getSession` would (the cached one, or one new session when creation succeeds), and one not ready leaves it untouched |
| SidePanel.Filtered | sidepanel/sidepanel.js:184-200 | the filtered list is no longer than the list |
| SidePanel.FilteredIsSubsequence | sidepanel/sidepanel.js:184-200 | the filtered list is an order-preserving subsequence of all items |
| SidePanel.FilteredMembers | sidepanel/sidepanel.js:187-198 | an item is listed exactly when it is one of the items, has the chosen kind (or the filter is "all"), and the query is empty or occurs in its lower-cased text, title or URL |
| SidePanel.FilteredKinds | sidepanel/sidepanel.js:187-189 | "all" with an empty query lists every item; any other filter lists only items of that kind |
| SidePanel.QueryMatchingAll | sidepanel/sidepanel.js:191-198 | a query that every item matches filters nothing out |
| SidePanel.Reversed | sidepanel/sidepanel.js:248 | `reverse()` puts element `k` at position `length - 1 - k` |
| SidePanel.ReversedTwice | sidepanel/sidepanel.js:248 | reversing twice gives the list back |
| SidePanel.Panel.constructor | sidepanel/sidepanel.js:8-22 | the panel starts with no items, the "all" filter, an empty query and no current item |
| SidePanel.Panel.ApplyFilters | sidepanel/sidepanel.js:184-202 | the shown list becomes the filtered items; nothing else changes |
| SidePanel.Panel.SetFilter | sidepanel/sidepanel.js:173-182 | the filter is set and the shown list follows it |
| SidePanel.Panel.SetSearchQuery | sidepanel/sidepanel.js:111-113 | the query is stored lower-cased and the shown list follows it |
| SidePanel.Panel.ClearSearch | sidepanel/sidepanel.js:126-129 | the query is emptied and the shown list follows it |
| SidePanel.Panel.LoadHistory | sidepanel/sidepanel.js:245-255 | the panel's items are the stored items reversed, and the shown list follows them |
| SidePanel.Panel.OnClipboardUpdated | sidepanel/sidepanel.js:257-277 | a new item goes in front and becomes the current item |
| SidePanel.Panel.DeleteItem | sidepanel/sidepanel.js:474-488 | the item leaves storage and the panel, and stops being the current item if it was |
| SidePanel.Panel.ClearAllItems | sidepanel/sidepanel.js:490-501 | nothing happens unless the user confirms; then storage, both lists and the current item are cleared |
| SidePanel.NewItemListed | sidepanel/sidepanel.js:260-262 | a new item is shown first exactly when it passes the filter and query; otherwise the shown list is as before |
| SidePanel.DeletedNotListed | sidepanel/sidepanel.js:477-479 | after deletion no shown item has the deleted id |
| SidePanel.Capitalize | sidepanel/sidepanel.js:936-938 | only the first character is upper-cased; the rest and the length are unchanged |
| SidePanel.CapitalizeIdempotent | sidepanel/sidepanel.js:936-938 | capitalizing twice is the same as once |
| SidePanel.ElapsedSince | sidepanel/sidepanel.js:940-954 | the elapsed time falls in exactly one bucket: under a minute, whole minutes under 60, whole hours under 24, whole days under 7, or earlier, each count floored |
| SidePanel.FormatTimeReadsBack | sidepanel/sidepanel.js:940-956 | the label ends in "m ago", "h ago" or "d ago" after a decimal that reads back as the bucket's count; older times show the locale date |
| SidePanel.ElapsedMonotone | sidepanel/sidepanel.js:940-956 | an older timestamp never gets a more recent bucket |

## Left out

- The `chrome.*` APIs (tabs, tabGroups, scripting, sidePanel, runtime messaging, alarms, badge). The store is a class with one sequence per key; `applyTabGroups` is reduced to the plan of `chrome.tabs.group`/`chrome.tabGroups.update` calls.
- The ungrouping of existing tab groups at the start of `applyTabGroups`. It only calls the browser, and its errors are swallowed.
- A `chrome.tabs.group` or `chrome.tabGroups.update` call that throws. The browser call is not modelled, so every planned group counts as created.
- The language model and what its prompts mean. Only the oracle's answers are kept. The 10-second `Promise.race` timeout is a `None` answer; timers are not modelled.
- The error message of `LanguageModel.create`, and `checkAvailability`. They are outside what the callers use.
- URL parsing under the WHATWG URL Standard. It is the parameter `hostOf`.
- Calendar arithmetic of `Date.setDate`, ISO date strings and `toLocaleDateString`. Times are integer milliseconds with a fixed three-day offset, and the locale date is a parameter. An unparsable date (`Invalid Date`) is not modelled.
- Unicode detail. `IsWhitespace` is a fixed set of six characters (space, tab, newline, carriage return, form feed, vertical tab), where JavaScript's `\s` is wider. Case mapping is ASCII only.
- JavaScript values that are not strings where the code tests `typeof` or truthiness. Item text is a `string`; a missing one is an `Option`.
- Keys inherited from `Object.prototype` in the language-name lookups.
- The `range` field of a highlight. It is opaque data that nothing here reads.
- The `initialize` methods of the managers and the worker, the `onInstalled` and alarm listeners, `updateBadge`, and `handleOpenSidePanel`. They are browser glue.
- The `clipboardUpdated` broadcast. It is a message whose failure is ignored; its receiver is `SidePanel.Panel.OnClipboardUpdated`.
- Floating point. The similarity score `commonWords.length / totalWords` is a double in the code and a `real` here. With word counts far below 2^53 the comparisons with 0.2 and 0.8 come out the same.
- `exportSession` (JSON serialisation) and `getStorageStats` (floating-point `toFixed`).
- The DOM code of the side panel: rendering, counts, toasts, modals and event wiring. Only the list state it keeps is modelled.
- content/content-script.js and popup/popup.js. Neither is part of this model.
- Concurrency. Each asynchronous method is modelled as running alone between its `get` and its `set`, so interleaved writes that could lose an update are not captured.
- A `chrome.storage.local` call that throws. The error paths of `get` (an empty list) and of `set` (a rethrow) are not modelled.
- Contexts.UpsertThenFind, Contexts.UpsertExisting: these assume the stored list already respects the cap of 100. A longer list, which the code never writes, could lose the replaced entry to the truncation.
- AiProcessor.PromptSeesPrefix: stated for texts longer than the largest limit, 1000 characters, so that every action's prompt is cut.
