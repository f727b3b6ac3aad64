# Local-override reconciler of the Fetch/Axios user manager

The user manager in `Fetch_Axios/app.js` shows a user list fetched from a mock REST
endpoint that accepts writes but never keeps them. To make edits stick, the client
stores an **overlay** of its own changes in `localStorage`. The overlay has three parts:

- `created`: users created locally, newest first;
- `updated`: a patch per stringified id;
- `deleted`: the stringified ids of remote users to hide.

Each fetch computes the list to display from the remote list and the overlay. This
project models that computation and the three operations that extend the overlay
after a successful remote call. It also models the in-memory `users` list those
operations edit directly, the name search and the pager. Everything is written as
pure functions over immutable values.

Modules, in dependency order:

- `Optional`: `Option`, for a part of a parsed document or a reply that may be missing.
- `JsValue`: a JSON value, JavaScript truthiness, and `String(x)` on it.
  - Numbers are integers.
  - An entity without an `id` field is keyed `"undefined"`, like `String(undefined)`.
- `Text`: `trim()` with the full ECMAScript white-space set, ASCII `toLowerCase()`,
  and `includes()`.
- `Seqs`: `filter`, `map`, `findIndex`, and `[...new Set(s)]` on sequences, with
  their algebra.
- `Entities`: a user is a map from field name to value.
  - `{...u, ...p}` is map union.
  - `String(u.id)` is `Key()`.
  - Patching or removing the *first* user with a key models the `findIndex` branches.
- `Overlays`: the overlay, the stored document, `loadChanges`/`saveChanges`, and the
  create/update/delete bookkeeping.
- `Reconciler`: the four-step merge inside `fetchUsers`.
- `Session`: the pair (storage slot, in-memory `users`) changed by `fetchUsers`,
  `createUser`, `updateUser` and `deleteUser`.
  - A failed remote call changes nothing.
  - The lemmas say when the in-place list edits agree with what a fresh fetch would
    show.
- `View`: `applyFilter`, `paginate`, and the previous/next buttons.
- `Scenarios`: worked examples on concrete data.

A session is *synced* with a remote list when its `users` equal the merge of that list
with the stored overlay. Fetching makes a session synced. Create keeps it synced.
Update and delete keep it synced under the conditions below; the code does not enforce
them:

- Update needs distinct keys among the remote users. It also needs stored patches that
  do not rewrite `id`.
- Delete of a locally created user needs distinct keys across the created users and
  the whole remote list, deleted remote users included. It also needs stored patches
  that do not rewrite `id`.
- Delete of a remote user needs stored patches that do not rewrite `id`.

`Session.SharedServerIdBreaksSync` shows what happens without these conditions:

1. The server returns the same id for two creates.
2. A delete of that id drops both users from the list but only the newer one from the
   overlay.
3. A reload brings the older one back.

## Model

| member | source | states |
|---|---|---|
| JsValue.ToJsString | Fetch_Axios/app.js:112 | `String(id)` for integer ids below 10^21 in magnitude: a non-negative number becomes its decimal digits without a leading zero (so 0 is `"0"`), which read back as the same number; a negative one becomes `-` then the digits of its magnitude, again without a leading zero; a string is itself |
| JsValue.DecimalRoundTrip | Fetch_Axios/app.js:139 | the decimal digits written for a number read back as that number |
| JsValue.NumKeysInjective | Fetch_Axios/app.js:161-163 | two numeric ids have the same string form exactly when they are equal, so comparing ids as strings is sound for numeric ids |
| Text.Trim | Fetch_Axios/app.js:46 | `trim()` result is no longer than its input and neither starts nor ends with white space |
| Text.TrimIsSlice | Fetch_Axios/app.js:46 | the trimmed text is a slice of the input with only white space before and after it |
| Text.TrimEmptyIffAllSpace | Fetch_Axios/app.js:46-47 | the trimmed term is empty (so the filter shows everyone) exactly when the input is all white space |
| Text.Lower | Fetch_Axios/app.js:46 | `toLowerCase()` keeps the length, maps each ASCII capital to its small letter and leaves every other character alone |
| Text.Contains | Fetch_Axios/app.js:48 | `includes(t)` holds exactly when `t` occurs at some position of the string |
| Seqs.Filter | Fetch_Axios/app.js:112 | `filter` keeps only elements satisfying the callback and never grows the list |
| Seqs.FilterIsSubsequence | Fetch_Axios/app.js:112 | `filter` keeps its survivors in source order |
| Seqs.FilterMultiplicity | Fetch_Axios/app.js:112 | `filter` keeps every copy of an accepted element and no copy of a rejected one |
| Seqs.MapSeq | Fetch_Axios/app.js:114 | `map` keeps the length and puts the callback's result for each element at that element's position |
| Seqs.FindIndex | Fetch_Axios/app.js:163 | `findIndex` returns the first position whose element satisfies the callback, and none when no element does |
| Seqs.Dedup | Fetch_Axios/app.js:191 | `[...new Set(s)]` has no duplicates and holds exactly the elements of `s` |
| Seqs.DedupSnocDistinct | Fetch_Axios/app.js:191 | adding one id to a duplicate-free list through a set keeps the list as it was when the id is present and appends it otherwise |
| Seqs.DedupBySet | Fetch_Axios/app.js:191 | the loop that inserts each element into a set in order and appends the new ones returns exactly `Dedup(s)` |
| Entities.Entity.Patched | Fetch_Axios/app.js:116 | `{ ...u, ...p }`: every field of the patch takes the patch's value, every other field is kept as it was, and the key is kept when the patch has no `id` |
| Entities.PatchedTwice | Fetch_Axios/app.js:165 | spreading two payloads one after the other is spreading their union, the later one winning |
| Entities.FindKey | Fetch_Axios/app.js:163 | `findIndex` on stringified ids finds a position exactly when some user has the key, and then the first such user |
| Entities.PatchFirst | Fetch_Axios/app.js:171 | `users[idx] = {...users[idx], ...payload}`: only the first user with the key is patched; without one the list is unchanged |
| Entities.RemoveFirst | Fetch_Axios/app.js:189 | `splice(idx, 1)`: only the first user with the key is removed, the rest keep their order; without one the list is unchanged |
| Entities.RemoveFirstMultiset | Fetch_Axios/app.js:189 | the removed user plus what remains is exactly the original collection |
| Overlays.LoadChanges | Fetch_Axios/app.js:20-34 | a missing, empty or unparsable slot yields the empty overlay; a parsed document yields each part it has and an empty part for each falsy or missing one |
| Overlays.LoadAfterSave | Fetch_Axios/app.js:36-38 | loading what `Save` (`saveChanges`) stored gives back the same overlay |
| Overlays.NewUser | Fetch_Axios/app.js:139 | the new user has a truthy id: the server's when truthy, else `local-` followed by the clock reading; every other field comes from the payload |
| Overlays.RecordCreate | Fetch_Axios/app.js:141 | the new user is put first in `created`, which grows by exactly one; `updated` and `deleted` are untouched |
| Overlays.RecordUpdate | Fetch_Axios/app.js:163-168 | with a created user of that key, only the first one is patched and nothing else changes; otherwise the patch map is extended |
| Overlays.MarkUpdated | Fetch_Axios/app.js:167 | through `UpdatedWith`, the stored patch for the key takes every payload field, keeps its earlier fields the payload lacks, gains nothing else; other keys' patches, `created` and `deleted` are untouched |
| Overlays.RecordDelete | Fetch_Axios/app.js:187-193 | with a created user of that key, only the first one is removed and `updated`/`deleted` are untouched; otherwise the key is marked deleted |
| Overlays.MarkDeleted | Fetch_Axios/app.js:191-192 | the key is in `deleted`, which has no duplicates and holds the earlier keys plus this one, unchanged in order when already duplicate-free; the key's patch is dropped and the other patches stay |
| Overlays.RecordUpdateTwice | Fetch_Axios/app.js:163-168 | two successive updates of one user record the same overlay as one update with the union of their payloads, the later one winning, for a first payload without `id`, which the edit form (app.js:243-247) never sends |
| Overlays.UpdatedWithTwice | Fetch_Axios/app.js:167 | `UpdatedWith` (the `updated[id]` assignment) applied with two payloads one after the other equals applying it once with their union |
| Overlays.PatchesNotDeletedPreserved | Fetch_Axios/app.js:191-192 | no key is both patched and deleted before a create, a delete, or an update of a key not deleted, and none is after it |
| Overlays.UpdateOfDeletedKey | Fetch_Axios/app.js:167 | updating a key that is already deleted still records a patch for it, so the key ends up both patched and deleted |
| Reconciler.Merge | Fetch_Axios/app.js:108-120 | the merged list is the created users in stored order followed by one entry per surviving remote user |
| Reconciler.MergeKeepsSurvivors | Fetch_Axios/app.js:110-112 | every remote user whose key is not deleted appears, patched, after the created users |
| Reconciler.MergeRemoteOrigin | Fetch_Axios/app.js:110-117 | every entry after the created users is some non-deleted remote user with its patch applied |
| Reconciler.MergeHidesDeleted | Fetch_Axios/app.js:110-116 | no entry that came from the remote list has a deleted key, provided no patch rewrites `id` |
| Reconciler.ApplyUpdateKeepsKey | Fetch_Axios/app.js:114-117 | applying a patch without an `id` field keeps the user's key |
| Reconciler.MergeAppliesPatch | Fetch_Axios/app.js:114-117 | `ApplyUpdate`, the map callback: a surviving user with a patch takes every patch field and keeps every other field, `id` included; one without a patch passes unchanged |
| Entities.PatchedByNothing | Fetch_Axios/app.js:116 | an empty stored patch, which is truthy and so is spread, leaves the user unchanged |
| Reconciler.MergeLength | Fetch_Axios/app.js:110-119 | merged length is the created count plus the remote count minus the number of deleted remote users |
| Reconciler.SurvivorsInSourceOrder | Fetch_Axios/app.js:112 | survivors keep remote order, and each user occurs as often as in the remote list unless its key is deleted, then never |
| Reconciler.MergeEmpty | Fetch_Axios/app.js:110-119 | with an empty overlay the merged list is the remote list |
| Reconciler.MergeAfterCreate | Fetch_Axios/app.js:119 | recording a create puts exactly that user in front of the previous merge |
| Reconciler.LatestEditWins | Fetch_Axios/app.js:167 | after two edits of a remote user the merged entry carries the later payload's value in each field it names |
| Session.UsersAfterDelete | Fetch_Axios/app.js:195 | every user with the deleted key leaves the list, every other user stays with all its copies, in order |
| Session.FetchUsers | Fetch_Axios/app.js:102-127 | a failed fetch changes nothing; a successful one shows the remote list merged with the stored overlay and leaves storage as is |
| Session.CreateUser | Fetch_Axios/app.js:129-149 | a failed call changes nothing; a successful one records the new user in the overlay and puts it first in the list |
| Session.UpdateUser | Fetch_Axios/app.js:151-177 | a failed call changes nothing; a successful one records the update under the stringified id and patches the first listed user with it |
| Session.DeleteUser | Fetch_Axios/app.js:179-201 | a failed call changes nothing; a successful one records the delete under the stringified id and drops every listed user with it |
| Session.MergeAfterUpdateCreated | Fetch_Axios/app.js:163-171 | for a created user, patching the overlay and patching the merged list agree |
| Session.MergeAfterUpdateRemote | Fetch_Axios/app.js:163-171 | for a remote user with a unique key, recording the patch and patching the merged list agree |
| Session.MergeAfterDeleteRemote | Fetch_Axios/app.js:187-195 | for a remote key, marking it deleted and filtering it out of the merged list agree |
| Session.MergeAfterDeleteCreated | Fetch_Axios/app.js:187-195 | for a created user, with distinct keys across the created users and the whole remote list and patches that keep ids, removing it from the overlay and filtering it out of the merged list agree |
| Session.FetchSyncs | Fetch_Axios/app.js:108-120 | after a successful fetch the list is the merge of that remote list with the stored overlay |
| Session.CreateStaysSynced | Fetch_Axios/app.js:139-143 | a create, failed or not, keeps the list equal to what a fetch would show |
| Session.UpdateStaysSynced | Fetch_Axios/app.js:160-171 | an update keeps the list equal to what a fetch would show, given unique remote keys and patches that keep ids |
| Session.DeleteStaysSynced | Fetch_Axios/app.js:184-195 | a delete keeps the list equal to what a fetch would show, given patches that keep ids and, for a created user, distinct keys across the created users and the whole remote list |
| Session.SharedServerIdBreaksSync | Fetch_Axios/app.js:187-195 | two creates that get the same server id followed by a delete leave an empty list while a reload still shows a user |
| View.ApplyFilter | Fetch_Axios/app.js:45-52 | page reset to 1; an empty term keeps all users; otherwise exactly the users whose lower-cased name contains the term, in order and with every copy of each; a user without a string name makes the search fail |
| View.JsSlice | Fetch_Axios/app.js:59 | `slice(start, end)` with `0 <= start <= end` is the elements between them, clipped to the length |
| View.Paginate | Fetch_Axios/app.js:54-64 | at least one page and just enough pages; the page is clamped into range; the items are that page's slice, at most five, empty only for an empty list; the buttons are disabled on the first and last page |
| View.EveryUserOnItsPage | Fetch_Axios/app.js:55-59 | the user at position `k` is shown at position `k % 5` of page `k / 5 + 1` |
| View.PrevPage | Fetch_Axios/app.js:205 | the previous button moves back one page, and on page 1 stays on page 1 |
| View.PageCursorStaysValid | Fetch_Axios/app.js:205-206 | the buttons (`PrevPage` and `NextPage`, which adds one) keep the page cursor at 1 or more, and next on the last page stays on the last page |
| Scenarios.PatchedRemoteBehindCreated | Fetch_Axios/app.js:110-119 | remote user 1 picks up the patch stored under `"1"` and appears after the locally created user |
| Scenarios.DeletedRemoteHidden | Fetch_Axios/app.js:112 | a remote user whose key is deleted is not shown |
| Scenarios.DeleteLocalLeavesNoTrace | Fetch_Axios/app.js:187-189 | deleting a locally created user empties `created` and leaves `deleted` alone |

## Left out

- DOM rendering, the message line, modal handling, form submission, `confirm` dialogs
  and the table click handler. They are UI glue. `render()` is reduced to the items
  `paginate` returns, and the "Page X of Y" text is not modelled.
- `fetch`, HTTP status checks, `res.json()` and async sequencing. A remote call is a
  `Reply`: `Failed` for a non-ok status or a thrown error, `Ok` with the decoded body.
  A create reply whose decoded body is `null`, which makes `data.id` throw, is not
  distinguished from a body without an id.
- `localStorage` and `JSON.parse`/`JSON.stringify`. The slot is the already parsed
  `Stored` value.
  - A document whose parts have the wrong JSON type (a truthy non-array `created`, say)
    is not modelled; each part is either well typed or missing.
  - The special `__proto__` key of JavaScript objects is not modelled.
- `Date.now()`. The clock reading is the `now` parameter of `Overlays.NewUser`.
- Text.Lower: lower-cases ASCII letters only, not the full Unicode case mapping of
  `toLowerCase()`.
- JsValue.ToJsString: numbers are integers; floating-point ids and their `String()`
  forms are not modelled. Nor are integers of magnitude 10^21 or more, which `String()`
  writes in exponent form, or integers beyond 2^53, which are not exact JavaScript
  numbers; the model writes every integer in plain decimal. Objects and arrays carry
  the text `String()` gives them rather than their contents.
- Concurrency. Two overlapping operations can both read, modify and write the slot;
  each operation is modelled as one atomic step.
- Uniqueness of ids. The code does not enforce it, so nothing in the model assumes it
  globally. Each lemma that needs it says so in its `requires`.
