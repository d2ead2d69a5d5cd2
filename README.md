# Image-generation history and multi-image request check, modelled in Dafny

The project models the two pieces of logic in this repository that make decisions:

* **The front-end history code** (`fix-anonymous-user-frontend.js`). The page keeps a global list `userHistory` of history items, newest first, plus a `config` flag and an optional `currentUser`.
  * `saveUserHistory` writes in two phases. Phase one gives the item a `temp_…` id and a creation time where it has none, then puts it at the head of the list. Phase two asks the backend (`saveHistoryToSupabase`) to store it. If the backend returns a row with an id, that id replaces the item's id.
  * `saveHistoryToSupabase` sends either an owned request (user id in a header and in the body) or an anonymous one. It reads the reply as `data[0]` or `false`.
  * `loadUserHistory` replaces the list wholesale with display entries built from the stored rows.
  * `renderHistory`, `getTypeDisplayName` and `formatTime` turn the list into what the page shows.
* **The request check of the `/api/generate-multi-image` proxy handler** (`server.js`). The handler checks the shape of the body, counts the image parts and the text parts, and rejects the request with status 400 and a fixed message, in a fixed order. For an accepted request it relays the upstream answer, or answers 500 when an error is thrown.

Modules:

| file | module | what |
|---|---|---|
| `options.dfy` | `Options` | `Option` for JavaScript fields that may be absent |
| `decimal.dfy` | `Decimal` | decimal text of non-negative integers, and reading it back |
| `multi_image.dfy` | `MultiImage` | request body, `filter`, the checks, the handler's answer |
| `history_sync.dfy` | `HistorySync` | entries, stored rows, requests, reading replies, staging and reconciliation on values |
| `history_view.dfy` | `HistoryView` | type labels, relative times, the rendered structure |
| `history_store.dfy` | `HistoryStore` | the `Item` objects and the `Store` with the global list; save and load in place |

Everything the code gets from outside is an explicit input:
* the network reply (`Reply`: an exception, or an `ok` flag plus the `data` field);
* the upstream answer of the proxy (`Upstream`);
* `Date.now()`/`new Date()` (one `now` in milliseconds);
* the random id characters (`suffix`);
* the locale date and time strings.

Timestamps are milliseconds since the epoch. An ISO-8601 `createdAt` string is represented by the instant it denotes.

What the code does, stated plainly:
* The time texts are `just`, `<N>minute ago` and `<N>hour ago`, with no space before `minute`/`hour` and no plural.
* A failed load leaves the current list as it is.
* A successful load replaces the list. An entry that only lives locally, such as a save whose backend call failed, is no longer shown after the load (`HistoryStore.FailedAnonymousSaveThenLoad` walks through this).
* Nothing in the code keeps ids unique. A loaded list may repeat ids, and saving an item that already has an id which is in the list adds a second entry with it. The model claims no uniqueness invariant.
* The backend id is written into the very object that was saved, wherever that object sits in the list.
* `getTypeDisplayName` looks the type up in an object literal, so a type named after a member inherited from `Object.prototype` (`constructor`, `toString`, `__proto__`, …) shows that member's text instead of the type itself.

In `fix-anonymous-user-frontend.js:219`, the two message strings are single-quoted strings that contain an apostrophe (`haven't`), which JavaScript cannot parse as written. The model uses the evidently intended texts.

## Model

| member | source | states |
|---|---|---|
| MultiImage.Filter | server.js:123-124 | `filter` keeps a part exactly when it is in the input and satisfies the test, keeps nothing else, is never longer than the input, and on one element keeps it or drops it |
| MultiImage.FilterAppend | server.js:123-124 | filtering a concatenation is the concatenation of the filtered halves, so the kept parts stay in input order with their multiplicity |
| MultiImage.FilterCount | server.js:123-124 | the length of the filtered array equals the number of matching positions (defined independently as a set of indices) |
| MultiImage.PartsOf | server.js:116-120 | the parts array is reached only when `body`, `contents`, `contents[0]` are all present; then it is `contents[0].parts` |
| MultiImage.ValidateParts | server.js:120-136 | an accepted parts array has 1 to 3 image parts and at least one text part, and the accepted image/text lists hold exactly the parts with `inline_data`/non-empty `text` |
| MultiImage.Validate | server.js:115-136 | a body lacking `contents`, `contents[0]` or `parts` is rejected with 400 `Invalid request format` before any counting; a non-array `parts` makes `filter` throw |
| MultiImage.ValidatePartsOrder | server.js:123-136 | no image part gives 400 `At least one image is required` (checked before text); images but no text part gives 400 `Text prompt is required`; more than 3 images with text gives 400 `Maximum 3 images allowed` |
| MultiImage.AcceptIff | server.js:116-136 | the request is accepted exactly when parts is an array without null elements, 1 ≤ image parts ≤ 3 and text parts ≥ 1 |
| MultiImage.PartCountsTwice | server.js:123-124 | a part with both `inline_data` and `text` is kept by both filters, removing it lowers both counts by exactly one, and on its own it is an acceptable request |
| MultiImage.Handle | server.js:115-169 | rejections answer 400 with their message; a thrown error answers 500 `Internal server error`; a non-ok upstream status is relayed with its body; an ok upstream answer is sent as 200 with its body |
| MultiImage.RejectedIgnoresUpstream | server.js:116-136 | a request that fails the checks gets the same answer whatever upstream would say (upstream is never called) |
| MultiImage.HandleStatuses | server.js:160-168 | every answer is 200, 400, 500 or upstream's own failing status; error bodies go only with 400 or 500 |
| Decimal.Show | fix-anonymous-user-frontend.js:124 | a number's text is one or more digits with no leading zero |
| Decimal.ValueOfShow | fix-anonymous-user-frontend.js:268-270 | reading back the digits gives the number |
| Decimal.ShowInjective | fix-anonymous-user-frontend.js:268-270 | different numbers have different texts |
| HistorySync.OrElse | fix-anonymous-user-frontend.js:103-104 | the string when truthy, else the fallback (the `or` default of the row mapping) |
| HistorySync.SaveRequestFor | fix-anonymous-user-frontend.js:14-43 | with a user: `/api/user-history-unified`, `user-id` header and `user_id` body equal to the user's id; without: `/api/save-anonymous-history` and no user id anywhere; in both, type, prompt, `result_image`, `input_images` come from the item |
| HistorySync.SaveRequestIgnoresLocalFields | fix-anonymous-user-frontend.js:22-28 | the request depends only on the item's type, prompt and images, not on its local id, time or user info |
| HistorySync.SaveHistoryToSupabase | fix-anonymous-user-frontend.js:5-60 | a request is made exactly when config is loaded; the result is `data[0]` exactly when the response is ok and `data` is a non-empty array, otherwise `false` (no config, not ok, missing or empty data, exception) |
| HistorySync.LoadRequestFor | fix-anonymous-user-frontend.js:72-85 | with a user: `/api/user-history-unified?user_id=<id>&simple=true` with the `user-id` header; without: `/api/get-anonymous-history?simple=true`, no header |
| HistorySync.ToEntry | fix-anonymous-user-frontend.js:95-107 | a row maps `id`, `type`, `prompt`, `result_image`, `input_images`, `created_at` over, and user info defaults to `Anonymous User`, `Not logged in`, no avatar |
| HistorySync.ToEntries | fix-anonymous-user-frontend.js:95-107 | one entry per row, same length and order |
| HistorySync.ToEntriesKeepsIds | fix-anonymous-user-frontend.js:95-96 | each loaded entry has its row's id, and rows with different ids give entries with different ids |
| HistorySync.LoadUserHistoryCall | fix-anonymous-user-frontend.js:63-116 | a request is made exactly when config is loaded; a replacement list exists exactly for an ok response whose `data` is an array, and it is the mapped rows |
| HistorySync.TempId | fix-anonymous-user-frontend.js:124 | the temporary id is `temp_`, the clock's decimal digits, `_`, the random characters |
| HistorySync.Staged | fix-anonymous-user-frontend.js:122-130 | a falsy id becomes a temporary id and a present one is kept; a missing creation time becomes `now` and a present one is kept; nothing else changes |
| HistorySync.StagedIdempotent | fix-anonymous-user-frontend.js:123-130 | staging an already staged entry changes nothing |
| HistorySync.Reconciled | fix-anonymous-user-frontend.js:143-155 | a returned row with a truthy id replaces the entry's id and nothing else; otherwise the entry is unchanged |
| HistorySync.FailedSaveKeepsEntry | fix-anonymous-user-frontend.js:140-158 | with no config, a thrown error, a non-ok response or no row, the staged entry (temporary id included) is kept as it is |
| HistoryView.TypeDisplayName | fix-anonymous-user-frontend.js:250-257 | the three known types get their three labels; a name inherited from `Object.prototype` shows that member's text, never the type itself; any other type is shown verbatim |
| HistoryView.TypeDisplayNameEmpty | fix-anonymous-user-frontend.js:256 | the label is empty only for an empty type |
| HistoryView.FormatTime | fix-anonymous-user-frontend.js:260-274 | a minute count is always 1..59 and an hour count 1..23 |
| HistoryView.FormatTimeBuckets | fix-anonymous-user-frontend.js:263-273 | `diff < 60000` (future times included) gives `just`; `< 3600000` gives minutes; `< 86400000` gives hours; otherwise the absolute form; the count is the floor of the elapsed minutes or hours |
| HistoryView.FormatTimeMonotone | fix-anonymous-user-frontend.js:263-273 | as time passes an entry never moves to an earlier bucket and its count never decreases |
| HistoryView.TimeText | fix-anonymous-user-frontend.js:265-273 | the texts are `just`, `<N>minute ago`, `<N>hour ago` and `<locale date> <locale time>` |
| HistoryView.TimeTextInjective | fix-anonymous-user-frontend.js:268-270 | a minute or hour text determines the count it shows |
| HistoryView.BlockFor | fix-anonymous-user-frontend.js:226-245 | an item's block shows its id, image, prompt, type label and time, and a user name exactly when the item has user info |
| HistoryView.Render | fix-anonymous-user-frontend.js:212-247 | an empty list shows only the empty-state message and hint chosen by login state; otherwise there is one block per entry, in list order |
| HistoryView.EmptyStateOnlyByLogin | fix-anonymous-user-frontend.js:216-223 | the empty state depends on whether a user is logged in and on nothing else |
| HistoryView.RenderPrepend | fix-anonymous-user-frontend.js:226-246 | after an entry is prepended, it gets the first block and the earlier blocks follow unchanged |
| HistoryStore.Item.constructor | fix-anonymous-user-frontend.js:95-107 | a new item object holds exactly the given entry's fields |
| HistoryStore.Values | fix-anonymous-user-frontend.js:226 | the list's entries are the items' current values, in order |
| HistoryStore.NewItems | fix-anonymous-user-frontend.js:95-107 | the mapped list consists of fresh objects whose values are the mapped rows, in order |
| HistoryStore.Store.RenderHistory | fix-anonymous-user-frontend.js:212-247 | the display is built from the current list: empty state exactly for an empty list, otherwise block `i` is item `i`'s block |
| HistoryStore.Store.Stage | fix-anonymous-user-frontend.js:122-133 | the item object gets its staged value and is prepended: the list is `[item] + old list` |
| HistoryStore.Store.Sync | fix-anonymous-user-frontend.js:139-159 | the request sent and the item's new value are those of `saveHistoryToSupabase` and reconciliation; only the item's `id` can change |
| HistoryStore.Store.SaveUserHistory | fix-anonymous-user-frontend.js:119-165 | the list grows by exactly the item at index 0, with earlier entries in order behind it; the item ends staged then reconciled; every other item object keeps its value |
| HistoryStore.Store.LoadUserHistory | fix-anonymous-user-frontend.js:63-116 | on an ok response with array data the list becomes fresh items with the mapped rows, in order; with no config, a non-ok response, non-array data or an exception the list is unchanged |

## Left out

- I/O and browser APIs: `console` logging, DOM writes (`innerHTML`, the `history-list` lookup), `saveUserHistoryToStorage` and `localStorage`. `renderHistory` is modelled as the structure it writes, without the HTML markup. The model does not capture whether the `history-list` element exists.
- `initializePage` (fix-anonymous-user-frontend.js:168-209): restoring the user from `localStorage`, JSON parsing, style changes and the order of asynchronous start-up.
- `loadConfig`, `initializeSupabase`, `updateLoginUI`, `deleteHistoryItem`, `downloadImage`: their code is not part of this model. `config` and `currentUser` are fields that these collaborators set.
- Deleting and clearing history: the core has no such operation.
- Concurrency between overlapping `await`s: a save runs as two sequential phases with the backend reply as an input. The model does not capture another operation running between the phases.
- Clock and randomness: `Date.now()`, `new Date()` and `Math.random()` are parameters. The two clock readings in `saveUserHistory` are taken to be one instant. Nothing is claimed about temporary ids being unique. Converting ISO strings to milliseconds and back, and `toLocaleDateString`/`toLocaleTimeString`, are left abstract.
- JSON values are modelled by fixed shapes. Ids and texts are strings; `data` is absent, a non-array without an element `0`, or an array of row objects. Numeric ids and other dynamic JavaScript values are not modelled.
- server.js plumbing: lazy `fetch` loading, Express set-up, `listen`, the pass-through `/api/generate-image` and `/api/edit-image` handlers, and the JSON encoding of the upstream request.
- The diagnostic scripts `test-supabase-connection.js`, `debug-supabase.js` and `test-fix.js`: they only call the database client or print text.
- HistoryView.InheritedText: the text of an inherited built-in function is written in the native-code form that V8 and SpiderMonkey print. The language leaves that form to each engine, so other browsers may show different text.
