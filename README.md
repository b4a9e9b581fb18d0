# Offline-first finance tracker: a Dafny model

This project models the bookkeeping core of a small personal finance tracker.
It has three cooperating parts.

- **The client's reconciliation engine** (`App` in `js/app.js`) holds the
  in-memory transaction list. Each add is either confirmed by the server or
  queued as a pending item with the sync flag set. Edits and deletes usually
  are too, with the exceptions listed below. `syncData`
  replays the queue in order, marks confirmed entries synced, and then adopts
  the server's list when the fetch succeeds. Its derived views are the
  filtered, newest-first list, the sorted distinct categories and the CSV
  export.
- **The local cache** (`Storage` in `js/storage.js`) is three localStorage
  slots: the transaction list, the pending queue and the sync flag. It also
  generates the `offline_` ids.
- **The server store** (`api/index.php`) is a flat list of records. It has
  `get`, `add` (assigns a `server_` id when none is set), `update` (merges
  into the first match), `delete` (removes the first match) and `sync`
  (server list first, then client-only records). Dispatch is over the HTTP
  method and the `action`/`id` query parameters.

Modules, one per file:

- `Wrappers`: `Option`.
- `Text`: JavaScript string order, lower-casing and `includes`.
- `Seqs`: order-keeping filter.
- `Entities`: the client's records, pending items and remote outcomes.
- `Cache`: `js/storage.js` as the class `Storage` over a map of slots.
- `Views`: `applyFilters` and `updateCategoryFilter`.
- `Csv`: the `exportToCSV` text and a reader for it.
- `Client`: `js/app.js` as the class `App`.
- `Api`: `api/index.php`.
- `Identity`: the two id namespaces.

Parameters stand in for everything outside the core:

- Connectivity (`API.isOnline()`) is the parameter `online`.
- Each remote call's outcome is a `Remote` value: `Offline`, `Failed` or `Done(data)`.
- The clock and random digits are `Moment` (client) and `Clock` (server).
- A failing localStorage is the flag `Storage.writable`.

Five behaviours of the code that a reader might not expect, all modelled as written:

- `addTransaction` rejects only a falsy amount (`0` or `NaN`), so a negative amount is accepted (js/app.js:148).
- A successful fetch clears the whole pending queue, including items whose replay failed (js/app.js:589-594).
- A replayed offline add keeps its `offline_` id, because the server keeps any id that is set (api/index.php:68-70).
- An edit or a delete whose call reports "offline" while the client believed it was online is applied locally but neither confirmed nor queued (js/app.js:267-275, js/app.js:200-209).
- A delete of an id that is not in the list queues nothing, online or offline; the list is still filtered and saved (js/app.js:204-205, js/app.js:211-213).

## Model

| member | source | states |
|---|---|---|
| Cache.GenerateId | js/storage.js:127-128 | the id starts `offline_`, followed by the clock's digits, `_`, and at most 9 random characters |
| Identity.OfflineNeverServer | js/storage.js:127-128 | an offline id never starts `server_`, so it never equals an id the server assigns |
| Cache.Storage.SaveTransactions | js/storage.js:14-22 | returns whether the write succeeded; on success the list slot reads back exactly `txs`; the pending queue and flag are untouched |
| Cache.Storage.GetTransactions | js/storage.js:27-35 | returns the stored list, and `[]` when nothing is stored |
| Cache.Storage.AddPendingTransaction | js/storage.js:40-57 | on success the queue reads as the old queue plus exactly one item at the end, carrying the action, the transaction and `originalId` (default none); on failure nothing changes |
| Cache.Storage.GetPendingTransactions | js/storage.js:62-70 | returns the stored queue, and `[]` when nothing is stored |
| Cache.Storage.ClearPendingTransactions | js/storage.js:75-83 | on success the queue reads as `[]`; the other slots are untouched |
| Cache.Storage.SetSyncNeeded | js/storage.js:88-96 | on success the flag reads back as the argument, which defaults to true |
| Cache.Storage.IsSyncNeeded | js/storage.js:101-107 | returns the flag as `ReadSyncFlag` reads it (true exactly when the slot holds the text `true`), so it reads back what `SetSyncNeeded` wrote; an absent slot reads as false |
| Cache.Storage.ClearAll | js/storage.js:112-122 | on success all three slots read as empty or false, and every other key is untouched |
| Entities.IndexOfId | js/app.js:258 | `findIndex`: -1 when no entry has the id, otherwise the first entry that has it |
| Seqs.Where | js/app.js:220 | a filter keeps only passing entries and is never longer than its input |
| Seqs.WhereMultiset | js/app.js:220 | a filter keeps every passing entry exactly as often as it occurs and drops every other entry |
| Seqs.WhereConcat | js/app.js:220 | filtering commutes with concatenation, so the survivors keep their relative order |
| Seqs.WhereAll | js/app.js:220 | a filter every entry passes returns the list unchanged |
| Text.LexLeReflexive | js/app.js:334-340 | the string order used for dates is reflexive |
| Text.LexLeTotal | js/app.js:334-340 | the string order is total |
| Text.LexLeTransitive | js/app.js:334-340 | the string order is transitive |
| Text.LexLeAntisymmetric | js/app.js:334-340 | the string order is antisymmetric |
| Text.LowerChar | js/app.js:344-347 | lower-casing maps A–Z to a–z and leaves every other character alone |
| Text.Lower | js/app.js:344-347 | lower-casing keeps the length and lowers each character in place |
| Text.ContainsIffOccurs | js/app.js:347 | `includes` holds exactly when the needle occurs at some position |
| Views.ConsNewestFirst | js/app.js:352 | an entry no older than the head can go in front of a newest-first list |
| Views.InsertNewestFirst | js/app.js:352 | inserting into a newest-first list keeps it newest first and adds exactly the one entry |
| Views.SortNewestFirst | js/app.js:352 | the sort result is newest first and a permutation of its input |
| Views.InsertStable | js/app.js:352 | inserting an entry puts it ahead of every entry of the same date, where it stood in the input |
| Views.SortNewestFirstStable | js/app.js:352 | the sort is stable: for every date, the entries of that date come out in their input order, as `Array.prototype.sort` keeps them |
| Views.ApplyFiltersSpec | js/app.js:316-352 | `Views.ApplyFilters`, the filter chain then the sort, holds exactly the transactions passing every active filter (type, category, from, to, notes search without regard to case), each as often as in the list; so it is a sub-multiset of the list, every entry matches, and it is newest first |
| Views.NoFiltersKeepsAll | js/app.js:316-352 | with every filter empty the view is a permutation of the whole list |
| Views.DistinctCategories | js/app.js:296 | the Set holds each category once, and exactly the categories in use |
| Views.InsertAscending | js/app.js:296 | inserting a new category into a strictly ascending list keeps it strictly ascending and adds exactly that category |
| Views.SortAscending | js/app.js:296 | sorting a list without duplicates gives a strictly ascending list with the same members |
| Views.CategoriesSpec | js/app.js:296 | `Views.Categories`, the category list, is sorted, has no duplicates, and holds exactly the categories present |
| Csv.EscapeQuotes | js/app.js:626 | doubling quotes never shortens a text and leaves a text without quotes unchanged |
| Csv.ReadCellsEscaped | js/app.js:631 | a line of quoted cells with doubled inner quotes reads back as the original cells |
| Csv.RowLineEscaped | js/app.js:620-631 | when id, date, category and amount hold no quote, a row is its six fields with quotes doubled, each quoted, comma-joined and ended by a newline |
| Csv.RowsTextSnoc | js/app.js:630-632 | appending a transaction appends its row line |
| Csv.CsvTextSplit | js/app.js:629-632 | `CsvText`, the text the export builds, is the header line followed by one line per transaction, in order |
| Csv.RowsRoundTrip | js/app.js:620-632 | when no id, date, category or amount holds a `"`, the row lines read back as each transaction's id, date, type label, category, amount and unescaped notes, in order |
| Csv.ExportRoundTrip | js/app.js:618-632 | the whole export is the header then rows that read back as the transactions' fields |
| Csv.ExportToCsv | js/app.js:629-632 | the loop builds exactly the export text |
| Client.ReplayCallsInOrder | js/app.js:564-577 | replay issues one call per pending item, in queue order |
| Client.ReplayTargets | js/app.js:567-577 | `add` sends the queued transaction; `update` and `delete` target `originalId`, or the transaction's own id when that is missing or empty |
| Client.IndexOfSameIds | js/app.js:581 | setting `synced` flags cannot move where an id is first found |
| Client.MarkConfirmedSpec | js/app.js:579-585 | `Client.MarkConfirmed`, the list after the replay loop, differs from the old list only in `synced` flags; an entry ends synced iff it already was, or it is the first entry with its id and a confirmed item carries that id |
| Client.WithoutIdSpec | js/app.js:220 | in `Client.WithoutId`, the list after a delete, no entry has the id, every other entry stays as often as before and in its relative order, and an absent id changes nothing |
| Client.App.LoadTransactions | js/app.js:114-127 | online, a successful fetch becomes the list (`[]` without data) and is cached; offline, or a call that reports offline, reads the cache; a failed call changes nothing |
| Client.App.AddTransaction | js/app.js:147-180 | an incomplete form changes nothing; otherwise exactly one entry is appended with the form's fields; it takes the server's id and `synced` when confirmed, and is otherwise queued as `add` with the flag set; the list is cached |
| Client.App.UpdateTransaction | js/app.js:258-284 | an unknown id changes nothing; otherwise only that index changes: the form's fields override, `updatedAt` is set, and id and `createdAt` are kept; it is queued as `update` of `id` iff offline or the call failed |
| Client.App.DeleteTransaction | js/app.js:195-221 | nothing happens without the user's confirmation; otherwise the list becomes the entries without the id; a `delete` is queued iff the entry existed and the client is offline or the call failed |
| Client.App.SyncData | js/app.js:554-598 | offline: nothing; empty queue: flag cleared and no call; otherwise one replay call per item in order, then the fetch; fetched data becomes the list, is cached, and the queue and flag are cleared; any other fetch outcome keeps the cache and leaves the list with only the confirmed marks |
| Client.App.ApplyFilters | js/app.js:316-354 | the stored view is the filtered, newest-first list |
| Api.ServerId | api/index.php:69 | a server-assigned id starts `server_` |
| Api.Find | api/index.php:129-130 | -1 when no record's id is strictly the requested one, otherwise the first record whose id is |
| Api.AddSpec | api/index.php:56-78 | `Api.AddResult`: an empty body gives 400 with no change; an object body appends exactly one record and leaves earlier ones unchanged; a set id is kept, a missing one becomes `server_…`; `synced` is true, `createdAt` is the server's date, and other fields are the client's |
| Api.MergedRecordSpec | api/index.php:131-133 | the merge lets the client's fields override and keeps the record's others, then sets `synced` and `updatedAt` |
| Api.UpdateSpec | api/index.php:117-145 | `Api.UpdateResult`: an empty body gives 400 and an unknown id gives 404, with the store unchanged; otherwise only the first matching record changes, with the client's fields over its own, `synced` true and `updatedAt` set |
| Api.Update | api/index.php:117-145 | the `foreach … break` search computes exactly the update outcome |
| Api.DeleteSpec | api/index.php:153-172 | `Api.DeleteResult`: 404 with an unchanged store iff no record has the id; otherwise the first match is removed, the list is one shorter, and the rest keep their order |
| Api.Delete | api/index.php:153-172 | the loop with `unset`, reindex and `break` computes exactly the delete outcome |
| Api.LastAt | api/index.php:80 | the index of the last member with a key, or -1 when no member has it |
| Api.FirstAt | api/index.php:80 | the index of the first member with a key, or -1 when no member has it |
| Api.LastAtSnoc | api/index.php:80 | appending a member makes it the last one with its key and leaves every other key's last member where it was |
| Api.RecordOf | api/index.php:80 | `json_decode(…, true)` of an object: every member's key is present, and only those keys |
| Api.RecordOfLastWins | api/index.php:80 | a key is present iff some member has it, and it holds the value of the last member with that key |
| Api.FirstKeys | api/index.php:101 | the keys of a decoded object, not counting `seen`: distinct, each taken from a member, and every member's key appears |
| Api.FirstKeysInOrder | api/index.php:101 | the keys come in the order of their first occurrence among the members |
| Api.ObjectValuesSpec | api/index.php:101 | a `transactions` object yields one entry per distinct key, as many as the decoded array has keys, in first-occurrence order, each the value of the last member with that key |
| Api.ClientOnly | api/index.php:101-106 | every appended client record has an id that is not a server id and is marked synced, and there are no more of them than client entries |
| Api.ClientOnlyCount | api/index.php:101-106 | one record is appended per client entry whose id is new |
| Api.ClientOnlyConcat | api/index.php:101-106 | the appended records keep the client's order |
| Api.ClientOnlyHas | api/index.php:101-106 | every client entry with a new id is appended, marked synced |
| Api.SyncSpec | api/index.php:79-109 | `Api.SyncResult`: a body without an array `transactions` gives 400 and no change; otherwise the server list comes first, verbatim; then the client records whose id is not a server id, in order and synced; no record with a server id is added, and every client record with a new id is |
| Api.Merge | api/index.php:88-106 | the two `foreach` loops build the server list followed by exactly the client-only records, marked synced |
| Api.Sync | api/index.php:79-109 | the handler computes exactly the sync outcome |
| Api.TransitionSpec | api/index.php:40-183 | `Api.Transition`, the whole dispatch: every answer other than 200 leaves the store unchanged; 405 iff the method is not one of the five; GET and OPTIONS never change the store; a GET without `action=get` is a 400 |

## Left out

- `js/api.js` is not part of this model. The results of its load, add, update, delete and fetch calls are `Remote` outcomes (`Done` with the returned id or list, `Failed`, or `Offline`); the replays inside `syncData` are one boolean each (`confirmed`), whether the call succeeded.
- The server's file I/O, headers and JSON encoding are left out. The data file is the value `store`, and a request body is the already-decoded value.
- The browser's localStorage and JSON are the slot map; the DOM rendering, modals, `alert`/`confirm` and downloads are left out. The user's answer to `confirm` is the parameter `userConfirms`.
- `updateSummary` and `updateCharts` are left out: they sum floating-point amounts. An amount is the text JavaScript prints for it; the core tests its truthiness and the CSV export prints that text.
- Time and randomness are parameters: `Date.now`, `Math.random`, `toISOString`, `time()`, `uniqid()` and `date('c')`.
- `async`/`await`, the 30-second timer and the online/offline listeners are left out, and `syncData` is one sequential run. Nothing guards against two runs overlapping.
- The re-rendering each mutation triggers (`updateCategoryFilter`, `applyFilters`) is left out. `Client.App.ApplyFilters` takes the filter values, which the source reads from the page, as a parameter.
- The pending item's numeric `id` (`Date.now() + Math.random()`) is not modelled. Nothing reads it.
- Cache.Storage: one flag, `writable`, decides whether every write succeeds. A store that fails only some writes, and a slot that holds text of the wrong shape, are not modelled.
- Text.Lower: lower-cases ASCII letters only; JavaScript's full Unicode case mapping is not modelled.
- Text.LowerChar: maps only A–Z, for the same reason; letters such as `Ú` stay as they are.
- Text.LexLeTotal: the string order compares characters as code points, where JavaScript's `<=` and default `sort()` compare UTF-16 code units. The two differ only between a character above U+FFFF and one in U+E000–U+FFFF.
- Views.SortNewestFirst: orders by comparing the date strings, not by `new Date(…)`. The two agree on the form's `yyyy-mm-dd` dates. Dates that parse to `NaN` are not modelled.
- Csv.ExportRoundTrip: requires that id, date, category and amount hold no `"`, because the source doubles quotes only in the notes. A quote in those cells makes the CSV ambiguous.
- Api.SyncSpec: compares ids exactly, where PHP's `in_array` compares loosely (`"1e1"` equals `"10"`, `null` equals `""`). A server record counts as having an id when it has the `id` key.
- Api.SyncSpec: a client entry that is not an object reads as a record with no fields, so it is appended as `{"synced": true}`. That matches PHP for `null` and `false`. A client entry that is a JSON list loses its elements, where PHP keeps them under numeric keys and adds `synced`. A number, string or `true` stops the PHP script with an error, which the model does not reproduce.
- Api.AddSpec: a body that is a non-empty JSON list or a truthy scalar is answered with the fault response (500) and no change. PHP would store a list body as a record with numeric keys.
- Api.UpdateSpec: the same holds for a non-object body when a matching record exists. PHP's renumbering of numeric keys in `array_merge` is not modelled.
- The key order of stored records and a query parameter given as an array (`action[]=…`) are not modelled.
