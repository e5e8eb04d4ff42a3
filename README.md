# Data browser live-data model

A Dafny model of the live-data core of the Signal K server admin UI's Data
Browser. It has two parts.

- **`DataStore`** is a registry from `"context:path$source"` to a set of
  callbacks. A table cell gets a subject for its key, subscribes a callback
  and unsubscribes it when it goes away. `pushDelta` publishes every value of
  a delta message to the subject of its key.
- **`DataBrowser`** is the component state.
  - `handleMessage` folds each delta into per-context records and metadata.
  - The data table filters and sorts the keys of the chosen context.
  - The metadata table lists the distinct paths.
  - The context picker orders and labels the contexts.
  - The source column switches the source filter on and off as sources are
    selected.

Modules:

- `Text`: the string helpers. This covers JavaScript's default sort order and
  sorting a set of strings, `indexOf`, ASCII lower-casing, and the decimal
  text of an index.
- `Json`: JSON values, plus `Object.keys`, object spread, truthiness and
  conversion to text.
- `Delta`: the delta message and the record stored for one value. Timestamp
  formatting is a clock parameter, and the `path$source` key is built here.
- `Store`: class `DataStore` and class `ListenerSet`, modelling a JavaScript
  `Set` of callbacks. A subject or subscription keeps the very set object its
  closure captured. Every callback call is appended to the ghost log
  `delivered`.
  - `PushDelta` is proved against `Deliveries`: the calls made are exactly
    the calls the emissions `PushEmissions` produce, made in order to the
    callbacks registered before the push.
  - `Touched` describes the registry afterwards: keys nobody observed gain
    empty entries.
- `StaleUnsubscribe`: the unsubscribe defect under "## Findings", shown as
  written and as corrected.
- `Snapshot`: the state update of `handleMessage` for one context.
  - `DataFold` and `MetaFold` specify it.
  - The loop methods `FoldMessage`, `FoldValues`, `Expand` and
    `FoldMetaEntries` are proved against them.
- `Table`: the data table's key list, the metadata path list, the context
  options and labels, and the source toggle rule.
- `Browser`: class `DataBrowser` with its handlers.

The two files differ in several places, and each part follows its own file:

- **Context:** `DataStore` maps every context starting with `vessels.` to
  `self`. `DataBrowser` maps only the server's own context `skSelf`.
- **Empty path:** only `DataBrowser` expands it, into bare keys.
- **`pgn` and `sentence`:** `DataStore` copies them from the update.
  `DataBrowser` takes them from `update.source` and wraps them in
  parentheses.
- **Timestamp pattern:** `DataStore` uses `MMM DD HH:mm:ss` and
  `DataBrowser` uses `MM/DD HH:mm:ss`.

The table search matches the whole key, including the `$source` suffix.

`unsubscribe` drops a set once it is empty ("Cleanup empty Sets to prevent
memory leaks", `DataStore.js:52-55`), but the registry can still hold empty
sets: `pushDelta` calls `getSubject` for every value, so a key nobody observes
gains an empty entry. The model follows the code (`Store.Touched`).

## Model

| member | source | states |
|---|---|---|
| `Text.SortedSet` | packages/server-admin-ui/src/views/DataBrowser/DataBrowser.js:240 | `.sort()` of distinct strings: strictly ascending in character order, with exactly the given elements, each once |
| `Text.SortedUnique` | packages/server-admin-ui/src/views/DataBrowser/DataBrowser.js:240 | two strictly ascending lists with the same elements are equal, so the sorted list is determined by its elements |
| `Text.IndexOfFrom` | packages/server-admin-ui/src/views/DataBrowser/DataBrowser.js:228 | `indexOf(t, from)` is the first occurrence at or after `from` (a `from` past the end searches from the end), or -1 exactly when there is none |
| `Text.IndexOf` | packages/server-admin-ui/src/views/DataBrowser/DataBrowser.js:228 | `indexOf(t) !== -1` exactly when `t` occurs somewhere; a found index is the first occurrence |
| `Text.Lower` | packages/server-admin-ui/src/views/DataBrowser/DataBrowser.js:228 | `toLowerCase` keeps the length and lowers each character on its own |
| `Json.SpreadFields` | packages/server-admin-ui/src/views/DataBrowser/DataBrowser.js:400-403 | spreading a value copies an object's fields, or a string's or array's elements under their index names and no other keys, and nothing from other values |
| `Json.OwnFields` | packages/server-admin-ui/src/views/DataBrowser/DataBrowser.js:373 | `Object.keys(v)` throws exactly for `null`/`undefined`; otherwise it yields the spread fields |
| `Delta.FormatTimestamp` | packages/server-admin-ui/src/views/DataBrowser/DataStore.js:90-93 | a timestamp of today is formatted time-only, any other with the file's date pattern |
| `Delta.PathKeyInjective` | packages/server-admin-ui/src/views/DataBrowser/DataStore.js:87 | `path$source` keys of different paths or sources differ when sources contain no `$` |
| `Store.SubjectKeyInjective` | packages/server-admin-ui/src/views/DataBrowser/DataStore.js:27 | `context:pathKey` keys of different contexts or path keys differ when contexts contain no `:` |
| `Store.SubjectKeyInjectiveByPath` | packages/server-admin-ui/src/views/DataBrowser/DataStore.js:27 | the same when the path keys contain no `:`, so URN contexts such as `atons.urn:mrn:…` never share an entry either |
| `Store.ListenerSet.constructor` | packages/server-admin-ui/src/views/DataBrowser/DataStore.js:31 | a new set is empty |
| `Store.Added` | packages/server-admin-ui/src/views/DataBrowser/DataStore.js:45 | `set.add(cb)` keeps the old members in order, gains `cb`, and never holds it twice |
| `Store.Removed` | packages/server-admin-ui/src/views/DataBrowser/DataStore.js:50 | `set.delete(cb)` loses exactly `cb`, one member fewer if it was there, unchanged otherwise |
| `Store.RemovedKeepsOrder` | packages/server-admin-ui/src/views/DataBrowser/DataStore.js:50 | after `set.delete(cb)` the remaining callbacks keep their insertion order: of any two, the earlier came first before the delete |
| `Store.Fanout` | packages/server-admin-ui/src/views/DataBrowser/DataStore.js:40 | `forEach(cb => cb(data))` calls each member once, in order, with the same data |
| `Store.Touched` | packages/server-admin-ui/src/views/DataBrowser/DataStore.js:30-32 | after the pushes every emitted key has an entry and every entry keeps its callbacks |
| `Store.DeliveriesReachOnlyListeners` | packages/server-admin-ui/src/views/DataBrowser/DataStore.js:38-41 | every call reaches a callback registered under the key of an emission, with that emission's record; no other callback is called |
| `Store.NoListenersNoDeliveries` | packages/server-admin-ui/src/views/DataBrowser/DataStore.js:73-109 | emissions to keys nobody observes call nothing |
| `Store.StoreContext` | packages/server-admin-ui/src/views/DataBrowser/DataStore.js:80 | the context is `self` exactly for vessel contexts (or `self` itself), otherwise unchanged |
| `Store.EmissionAt` | packages/server-admin-ui/src/views/DataBrowser/DataStore.js:82-107 | one emission per value, in update then value order: value `j` of update `i` goes to `context:path$source` with its path, value, source, pgn, sentence and timestamp |
| `Store.EmissionsLength` | packages/server-admin-ui/src/views/DataBrowser/DataStore.js:82-107 | updates without values emit nothing; the others emit once per value |
| `Store.DataStore.constructor` | packages/server-admin-ui/src/views/DataBrowser/DataStore.js:16-18 | the registry starts empty |
| `Store.DataStore.GetSubject` | packages/server-admin-ui/src/views/DataBrowser/DataStore.js:26-34 | the key `context:pathKey` has an entry afterwards: the existing set, or a fresh empty one; nothing else changes |
| `Store.DataStore.Next` | packages/server-admin-ui/src/views/DataBrowser/DataStore.js:38-41 | each callback of the subject's set is called once, in insertion order, with the data |
| `Store.DataStore.Subscribe` | packages/server-admin-ui/src/views/DataBrowser/DataStore.js:43-46 | only the subject's set gains the callback (once); the registry and every other set are unchanged |
| `Store.DataStore.Unsubscribe` | packages/server-admin-ui/src/views/DataBrowser/DataStore.js:49-55 | the set loses the callback; if it is then empty, the key is deleted whatever that key now holds |
| `Store.DataStore.UnsubscribeIfCurrent` | packages/server-admin-ui/src/views/DataBrowser/DataStore.js:49-55 | corrected: an emptied set is removed only while it is the one registered under its key; every other entry is kept |
| `Store.DataStore.Complete` | packages/server-admin-ui/src/views/DataBrowser/DataStore.js:60-64 | the subject's set is emptied and exactly its key is deleted |
| `Store.DataStore.Destroy` | packages/server-admin-ui/src/views/DataBrowser/DataStore.js:115-118 | every registered set is emptied and the registry is empty |
| `Store.DataStore.PushDelta` | packages/server-admin-ui/src/views/DataBrowser/DataStore.js:73-109 | the calls made are exactly the fan-out of the message's emissions over the registry as it was, and every existing entry keeps its set object; a message without context or updates does nothing |
| `Store.DataStore.PushUpdate` | packages/server-admin-ui/src/views/DataBrowser/DataStore.js:82-107 | one update's values are emitted in order, extending the calls and the touched registry by that update's emissions |
| `Store.DataStore.Emit` | packages/server-admin-ui/src/views/DataBrowser/DataStore.js:106 | `getSubject(...).next(data)` calls the key's callbacks and creates an empty entry for an unobserved key |
| `StaleUnsubscribe.AsWritten` | packages/server-admin-ui/src/views/DataBrowser/DataStore.js:49-55 | after a subscription is released twice, a later subscriber to the same key is left registered nowhere and receives nothing |
| `StaleUnsubscribe.Corrected` | packages/server-admin-ui/src/views/DataBrowser/DataStore.js:49-55 | with the corrected release the later subscriber stays registered and receives the pushed value |
| `Snapshot.BrowserContext` | packages/server-admin-ui/src/views/DataBrowser/DataBrowser.js:346-347 | the state key is `self` exactly for the server's own context (or `self`), otherwise the context |
| `Snapshot.Parenthesised` | packages/server-admin-ui/src/views/DataBrowser/DataBrowser.js:358-364 | a present, non-empty pgn or sentence is shown in parentheses; an absent or empty one is absent |
| `Snapshot.Expanded` | packages/server-admin-ui/src/views/DataBrowser/DataBrowser.js:373-382 | an empty path stores one record per own field, under the bare field name, with that field's value |
| `Snapshot.ValueWrites` | packages/server-admin-ui/src/views/DataBrowser/DataBrowser.js:371-394 | a non-empty path writes exactly `path$source` with the value's path, value and source; an empty path writes the bare field keys and fails exactly for `null` |
| `Snapshot.MergeMeta` | packages/server-admin-ui/src/views/DataBrowser/DataBrowser.js:398-405 | merging metadata overwrites the fields the value names, keeps every other field, and leaves every other path alone |
| `Snapshot.ValuesOverride` | packages/server-admin-ui/src/views/DataBrowser/DataBrowser.js:365-395 | an update's values fail or succeed whatever the prior records are, and lay their own writes over them |
| `Snapshot.FoldOverride` | packages/server-admin-ui/src/views/DataBrowser/DataBrowser.js:352-407 | a message's result is the context's prior records overridden by the message's own writes |
| `Snapshot.UnmentionedKeysKept` | packages/server-admin-ui/src/views/DataBrowser/DataBrowser.js:353 | a key the message does not write keeps its previous record (or stays absent) |
| `Snapshot.FoldIdempotent` | packages/server-admin-ui/src/views/DataBrowser/DataBrowser.js:352-407 | applying the same message twice gives the records of applying it once |
| `Snapshot.ValuesAppend` | packages/server-admin-ui/src/views/DataBrowser/DataBrowser.js:365-395 | the values are written strictly in order: folding `a + b` is folding `a`, then `b` |
| `Snapshot.FoldAppend` | packages/server-admin-ui/src/views/DataBrowser/DataBrowser.js:356-407 | the updates are applied strictly in order: folding `a + b` is folding `a`, then `b` |
| `Snapshot.LaterValueWins` | packages/server-admin-ui/src/views/DataBrowser/DataBrowser.js:352-419 | within a message, a value for a non-empty path stores its record at `path$source`, and the key holds that record at the end whenever no later value of the same update and no later update writes the same key |
| `Snapshot.SingleValueStored` | packages/server-admin-ui/src/views/DataBrowser/DataBrowser.js:384-394 | one value for a non-empty path stores its record at `path$source` and changes nothing else |
| `Snapshot.MergeMetaIdempotent` | packages/server-admin-ui/src/views/DataBrowser/DataBrowser.js:400-403 | merging the same metadata entry again changes nothing |
| `Snapshot.MetaUnmentionedKept` | packages/server-admin-ui/src/views/DataBrowser/DataBrowser.js:354-405 | a path no metadata entry names keeps its metadata |
| `Snapshot.Expand` | packages/server-admin-ui/src/views/DataBrowser/DataBrowser.js:373-382 | the loop over `Object.keys` writes exactly the expanded records over the context |
| `Snapshot.FoldValues` | packages/server-admin-ui/src/views/DataBrowser/DataBrowser.js:365-395 | the loop over an update's values computes `ValuesFold`, stopping where `Object.keys` throws |
| `Snapshot.FoldMetaEntries` | packages/server-admin-ui/src/views/DataBrowser/DataBrowser.js:398-405 | the loop over an update's metadata computes `MetaEntries` |
| `Snapshot.FoldMessage` | packages/server-admin-ui/src/views/DataBrowser/DataBrowser.js:352-407 | the state updater computes `DataFold` and, when it does not throw, `MetaFold` |
| `Table.FilteredSortedKeys` | packages/server-admin-ui/src/views/DataBrowser/DataBrowser.js:219-241 | the table shows exactly the keys matching the search and, with the filter on and a selection, a selected source; ascending, each once |
| `Table.FilteredSortedKeysUnique` | packages/server-admin-ui/src/views/DataBrowser/DataBrowser.js:219-241 | any ascending list of exactly those keys is the table's list |
| `Table.SearchMatchesPathAndSource` | packages/server-admin-ui/src/views/DataBrowser/DataBrowser.js:225-228 | the search is tested on the whole key: searching for a record's path or its source both find its key |
| `Table.NoSourceFilterShowsAllMatches` | packages/server-admin-ui/src/views/DataBrowser/DataBrowser.js:233-236 | with the filter off or nothing selected, every key the search matches is shown |
| `Table.MetaPaths` | packages/server-admin-ui/src/views/DataBrowser/DataBrowser.js:890-906 | the metadata table lists the paths of exactly the matching keys, ascending, without repeats |
| `Table.ContextName` | packages/server-admin-ui/src/views/DataBrowser/DataBrowser.js:494-495 | the context's name is the value of its record under the bare key `name`, if any |
| `Table.ContextLabelParts` | packages/server-admin-ui/src/views/DataBrowser/DataBrowser.js:493-497 | the label ends in a space and the context key, preceded by the name's text when the name is truthy and by nothing otherwise |
| `Table.Without` | packages/server-admin-ui/src/views/DataBrowser/DataBrowser.js:509-515 | skipping `self` keeps every other context, in order |
| `Table.ContextOptions` | packages/server-admin-ui/src/views/DataBrowser/DataBrowser.js:499-517 | `self` first if present, then every other context once in ascending order, each with its label |
| `Table.ContextOptionsOfSorted` | packages/server-admin-ui/src/views/DataBrowser/DataBrowser.js:499-517 | given the sorted context keys, the options are `self`'s option followed by the labelled others in that order |
| `Table.CurrentContextOption` | packages/server-admin-ui/src/views/DataBrowser/DataBrowser.js:519-522 | the chosen context's option exists exactly when the snapshot has that context |
| `Table.Toggled` | packages/server-admin-ui/src/views/DataBrowser/DataBrowser.js:558-589 | only the toggled source changes membership; the filter turns on at the first selection, off at an empty selection, and is kept otherwise |
| `Table.ToggleTwice` | packages/server-admin-ui/src/views/DataBrowser/DataBrowser.js:558-589 | toggling a source twice restores the selection, and the filter except for an empty or one-source selection |
| `Browser.ContextOf` | packages/server-admin-ui/src/views/DataBrowser/DataBrowser.js:353-354 | a context without state reads as empty |
| `Browser.DataBrowser.constructor` | packages/server-admin-ui/src/views/DataBrowser/DataBrowser.js:305-335 | the snapshot starts empty; a missing or empty stored context selects `self` |
| `Browser.DataBrowser.HandleMessage` | packages/server-admin-ui/src/views/DataBrowser/DataBrowser.js:337-421 | paused or without context/updates: nothing changes. Otherwise the store is pushed to, only the message's context is replaced by the folds, and a throwing updater leaves the state unchanged |
| `Browser.DataBrowser.ApplyUpdates` | packages/server-admin-ui/src/views/DataBrowser/DataBrowser.js:352-419 | the state updater: the context's records and metadata become the folds of the updates over their previous value (or `{}`), every other context is kept, `hasData` is set; where the updater throws, the model leaves the state unchanged (see Left out) |
| `Browser.DataBrowser.GetContextOptions` | packages/server-admin-ui/src/views/DataBrowser/DataBrowser.js:499-517 | the loop over the sorted contexts builds exactly `ContextOptions` |
| `Browser.DataBrowser.ToggleSourceSelection` | packages/server-admin-ui/src/views/DataBrowser/DataBrowser.js:558-589 | the new selection and filter state are `Toggled` of the old |
| `Browser.DataBrowser.ToggleSourceFilter` | packages/server-admin-ui/src/views/DataBrowser/DataBrowser.js:591-599 | the filter takes the checkbox's state |
| `Browser.DataBrowser.HandleContextChange` | packages/server-admin-ui/src/views/DataBrowser/DataBrowser.js:478-491 | the chosen context, or `none` when cleared; the selection is emptied and the filter switched off |
| `Browser.DataBrowser.ComponentWillUnmount` | packages/server-admin-ui/src/views/DataBrowser/DataBrowser.js:472-476 | unmounting clears every set that was registered and empties the store's registry |

## Left out

- Rendering is not modelled. This covers JSX, CSS, the `React.memo` comparators, the value and timestamp cells, their animation timers, and copy-to-clipboard.
- Persistent storage (`localStorage`) is not modelled. Stored settings are constructor inputs, and writes are dropped.
- The websocket subscribe/unsubscribe handshake is transport plumbing and is not modelled; `skSelf` is a constant of the component.
- The `sources` fetch, with its NMEA 2000 renaming, is a network call and is not modelled.
- `handlePause`, `handleSearch`, `toggleMeta` and `toggleRaw` are setters of UI flags and are not modelled; `pause` and `search` are plain fields.
- The wall clock and `moment` are not modelled: whether a timestamp is of today, and formatting with a pattern, are functions in a `Clock` parameter fixed for one call.
- Callbacks are opaque ids with no side effects, so a callback that subscribes or unsubscribes while `next` iterates its set is not modelled.
- A missing `$source` is represented by the text `undefined`, which is what the key templates print for it.
- A `pgn` or `sentence` is text or absent. An empty text, which `x && …` passes through as `""`, is stored as absent. Both are shown the same way (`pgn || ''`). Numbers are integers.
- Text.Lower: only ASCII letters are lowered; full Unicode case mapping is not modelled.
- Text.LexLess: strings compare by character, and characters beyond the Basic Multilingual Plane are not split into UTF-16 code units.
- Table.FilteredSortedKeys: the `useMemo` cache is not modelled. The list is recomputed from its inputs, which is what the cache returns.
- Table.MetaPaths: the de-duplication by first index and the sort are stated by their result, the distinct matching paths in ascending order.
- Browser.DataBrowser.GetContextOptions: `Object.keys(...).sort()` is an input, constrained to be the ascending list of the snapshot's contexts.
- Browser.DataBrowser.HandleMessage: where an empty path carries `null` or `undefined`, `Object.keys` throws a TypeError inside the state updater, which React runs while rendering. The error then goes to React's render error handling: an error boundary takes over, or the tree is unmounted and `componentWillUnmount` runs `destroy()`. The model does not capture that. It records that the updater yields no new state, and it leaves the component state as it was. The store has already been pushed to by then.
- Browser.DataBrowser.ApplyUpdates: where `Object.keys` throws inside the updater, the TypeError goes to React's render error handling, not to a no-op: an error boundary takes over, or the tree unmounts and `destroy()` runs. The model does not capture this. It leaves the component state as it was.
- Browser.DataBrowser.HandleMessage: `setState` is modelled as taking effect at once, so a message update still queued in React is not modelled.
- Browser.DataBrowser.ToggleSourceSelection: `setState` is modelled as applied immediately. The source passes `{...this.state, …}`, which writes back `data`, `meta` and `hasData` from the last committed state. A pending `handleMessage` update queued before it is then overwritten and loses that message's records and metadata, and the model does not capture this.
- Browser.DataBrowser.ToggleSourceFilter: `setState` is modelled as applied immediately. The `{...this.state, …}` write-back can overwrite a pending `handleMessage` update, as for `ToggleSourceSelection`, and the model does not capture this.
- Browser.DataBrowser.HandleContextChange: `setState` is modelled as applied immediately. The `{...this.state, …}` write-back can overwrite a pending `handleMessage` update, as for `ToggleSourceSelection`, and the model does not capture this.

## Findings

| source | as written | input that shows it | evidently intended | confidence | as-written member | corrected member |
|---|---|---|---|---|---|---|
| packages/server-admin-ui/src/views/DataBrowser/DataStore.js:49-55 | `unsubscribe` deletes the key once its captured set is empty, whatever set the key holds by then | subscribe callback 1 to `self:navigation.speedOverGround$gps` and release it; subscribe callback 2 to the same key, which gets a new set; release the first subscription again; push a value for that key | remove the entry only while the emptied set is still the one registered under the key, so a release that comes too late is harmless | not executed; the same follows when a subscription is released after `destroy()` | `StaleUnsubscribe.AsWritten` | `StaleUnsubscribe.Corrected` |
