# Optimistic create/sync reconciliation (`src/db_sync.rs`)

This project models the client-side reconciliation code of the Proxima
frontend. The client creates chats, tags, access modes and chat
configurations under a provisional identifier before the remote store has
numbered them. Identity is positional: an item's identifier is its index in
the ledger of its category. When the store assigns a different number, the
client backfills the gap with items it fetches from the store. It then
re-points the UI cursors from the provisional identifier to the assigned one.

Modules:

- `Wrappers` (`wrappers.dfy`): `Option`.
- `Backend` (`backend.dfy`): the backend library's item identifiers (`ItemId`), items, the client
  database as one ledger per category (`Db`), the remote store's request and reply vocabulary,
  and the assumed behaviour of the backend primitives the core calls.
- `Cursors` (`cursors.dfy`): `UserCursors`, `zero`, `from_state`, and the per-cursor effect of
  a rejected overwrite (`OnReject`).
- `Updates` (`updates.dfy`): `apply_server_updates`. The source walks the batch once and updates
  the ledgers and cursors together. The cursor writes never affect the ledgers, so the model
  splits that walk into two passes. A ledger pass records each rejected overwrite in order;
  a cursor pass then replays the rejections.
- `Add` (`add.dfy`): `get_next_id_for_category`, `get_delta_for_add`, `handle_add_reducible`
  (the `AddItem` transition) and `handle_add`.
- `UpdatesProofs`, `AddProofs`: lemmas relating these operations to each other.

The remote store is a pure oracle `Request -> Option<Reply>`, where `None` is a failed request.
The verdict of `insert_or_update` is an oracle `(Db, Item) -> bool`, and `insert_directly` is an
oracle `(Db, Item) -> Db`. A panic is modelled as an outcome of its own (`Panicked`,
`HandlePanicked`).

Assumptions about the backend library, which is not part of this model:

- The push primitives (`add_mode`, `add_chat_raw`, `add_config`, `add_device`, `add_file_raw`,
  `add_folder_raw`, `add_tag_raw`) append to the item's ledger.
- Chats are kept in a map keyed by identifier (src/app.rs:312, src/app.rs:552,
  src/tabs/chat_tab.rs:150). Every other category is a vector. The model gives chats a ledger
  like the rest, so for chats `Push` matches `add_chat_raw` only while the chat identifiers are
  dense, `0` up to the count. Statements about what sits at a position hold for chats only
  under that reading.
- Called on a position inside the ledger, `insert_or_update` has two outcomes. When it returns
  `true`, the item replaced the one at that position. When it returns `false`, the item was
  inserted before that position and everything from there moved up one. This second reading is
  the one under which the source's cursor shift is meaningful.
- `set_id` gives an entity the position of the identifier and keeps its category. On the
  user data it does nothing.
- Iterating `a..b` over identifiers yields the positions of one category from `a` up to `b`,
  excluding `b`. It yields nothing when the categories differ or when `b` is not past `a`.

Points where one might expect other behaviour, and where the model follows the code:

- A rejected in-range overwrite shifts the cursors. A `false` verdict might be expected only for a
  position past the end of the ledger, but the code calls `insert_or_update` only on in-range
  positions, and appends anything past the end.
- After an add, only cursors exactly on the provisional position are re-pointed. Cursors past
  it are not shifted by the size of the gap.
- The backfill placeholder is the added item stamped with the remote identifier in
  `get_delta_for_add`, and stamped with the local identifier in `handle_add`.
- The `==` tests in the re-pointing read the cursors from before the merges. The tag-set swap
  reads the merged cursors.

Behaviour of the code as written that the lemmas make explicit:

- Every optional cursor (`chosen_chat`, `chosen_tag`, `chosen_parent_tag`, `chosen_config`,
  `config_for_modification`, `access_mode_for_modification`) is set from the value the batch
  received. Several rejections therefore move such a cursor by one at most.
- `chosen_access_mode` is instead incremented in place (src/db_sync.rs:76-78). It moves up once
  for every rejected access-mode overwrite at or below the value the batch received. Two such
  rejections move it by two, while `access_mode_for_modification` moves by one.
- The shifted access-mode tag set is reassigned wholesale by every tag rejection. The set
  reflects only the last one, while `chosen_tag` reflects any of them.
- When the store confirms the provisional identifier, a cursor on it that a merge had shifted
  is put back on it.
- A failed backfill fetch leaves a placeholder at position `L` whose own identifier is the
  remote `R`.
- `handle_add` never re-stamps the caller's copy of the item. That copy was added under the
  local identifier, so it keeps that identifier after the re-pointing.

## Model

| member | source | states |
|---|---|---|
| `Cursors.Zero` | src/db_sync.rs:40-42 | a fresh session selects access mode 0 and the first tab; every optional cursor is empty and both tag sets are empty |
| `Cursors.ZeroIsFromState` | src/db_sync.rs:40-56 | `zero` is what `from_state` builds from all-empty pieces |
| `Cursors.FromStateRoundTrip` | src/db_sync.rs:43-56 | `from_state` keeps every cursor passed to it; only the tag filter and the setting under edit are reset |
| `Cursors.ShiftSetLosesNothing` | src/db_sync.rs:143-152 | shifting the access-mode tag set is undone by the reverse shift, so no two selected tags merge; the freed position is never selected |
| `Cursors.OnReject` | src/db_sync.rs:67-177 | a rejected overwrite at `p` of category `k` changes only `k`'s cursors: an optional cursor at or above `p` in the batch's input becomes input + 1, one below keeps its running value; the chosen access mode, when at or above `p` in the input, gains one on its running value; for tags the whole tag set is recomputed from the input; tab, tag filter and setting cursors are untouched |
| `Updates.StepLedger` | src/db_sync.rs:61-181 | the branch is chosen by the item's own identifier: at or past its ledger's end the item is pushed; a rejection is recorded exactly when the position is in range and `insert_or_update` says false; other ledgers are untouched; user data is only replaced |
| `Updates.LedgerPassFrame` | src/db_sync.rs:59-185 | a batch leaves the ledger of every category it does not mention unchanged, leaves the user data alone when no update carries it, and records rejections only for mentioned categories |
| `Updates.StepLedgerGrowth` | src/db_sync.rs:61-181 | one merge grows the item's ledger by one exactly when it pushes or inserts a rejected overwrite, and keeps its length on an accepted overwrite |
| `Updates.Count` | src/db_sync.rs:76-78 | counts the rejections of a category at or below a position: never more than the rejections, and non-zero exactly when one exists |
| `Updates.LastPos` | src/db_sync.rs:143-152 | finds the last tag rejection of the batch, which determines the final tag set |
| `Updates.CursorPass` | src/db_sync.rs:60-184 | an optional cursor ends at input + 1 exactly when some rejection of its category was at or below its input value, and otherwise keeps its running value; the chosen access mode gains one per access-mode rejection at or below its input value; the tag set is the one the last tag rejection computed |
| `Updates.ApplyServerUpdates` | src/db_sync.rs:59-185 | `apply_server_updates`: each optional cursor either keeps its input value or gains exactly one, however many rejections the batch holds; the chosen access mode gains the number of access-mode rejections at or below it; the tab, tag filter, chosen setting and setting under edit never change |
| `UpdatesProofs.AppendRun` | src/db_sync.rs:61-160 | a run of items of one category, each numbered at or past the slot it would fill, is pushed item by item; nothing is rejected and nothing else changes |
| `UpdatesProofs.AppendMovesNoCursor` | src/db_sync.rs:62-160 | an item at or past its ledger's end is pushed and moves no cursor |
| `UpdatesProofs.PairedIdIgnored` | src/db_sync.rs:61-68 | the identifier paired with each item in the batch is never read: two batches with the same items give the same result |
| `UpdatesProofs.LedgerPassPairedIdIgnored` | src/db_sync.rs:61-68 | the ledger pass reads only the items of the batch |
| `UpdatesProofs.CursorFreeBatch` | src/db_sync.rs:100-123 | a batch of device, file, folder and user-data updates returns the cursors it received |
| `UpdatesProofs.SingleRejection` | src/db_sync.rs:61-181 | a batch of one overwrite at a position inside the ledger, which the local `insert_or_update` answers `false`, inserts the item there and records exactly that one rejection |
| `UpdatesProofs.SingleRejectionCursors` | src/db_sync.rs:67-177 | after one rejected overwrite at `p`, each cursor of that category moves as an insertion at `p` moves it, the tag set is shifted for a tag, and cursors of other categories stay put |
| `UpdatesProofs.RejectedInsertKeepsSelection` | src/db_sync.rs:124-153 | after a rejected overwrite, read as an insertion, every shifted cursor and selected tag of that category still denotes the item it denoted before |
| `UpdatesProofs.AccessModeShiftsAccumulate` | src/db_sync.rs:70-78 | two rejected access-mode overwrites below both cursors move the chosen access mode by two and the access mode under modification by one |
| `UpdatesProofs.LedgerPassGrowth` | src/db_sync.rs:59-185 | a batch never shrinks a ledger and grows it by at least the number of rejections of its category |
| `UpdatesProofs.SyncKeepsCursorsInRange` | src/db_sync.rs:59-185 | under the reading of a `false` verdict as an insertion, every cursor below its ledger's length before the batch is below the new length after it, and so is every selected tag when all were in range |
| `Add.NextId` | src/db_sync.rs:187-198 | the provisional identifier has the item's category and the position one past the end of that ledger; user data gets the singleton identifier |
| `Add.GetDeltaForAdd` | src/db_sync.rs:199-223 | the returned identifier differs from the local one exactly when the store answered `AddedItem` with another identifier; the item is stamped with the returned identifier; the delta has one entry per position from local to remote, in increasing order, each the fetched item or the remote-stamped item when the fetch failed or returned something else; it is empty otherwise |
| `Add.Remap` | src/db_sync.rs:229-276 | panics exactly on a category mismatch for an access-mode, chat or tag identifier; for those categories a cursor whose input value was the local position is set to the remote one, and a tag-set entry at the local position is replaced; config and other categories are not remapped |
| `Add.HandleAddReducible` | src/db_sync.rs:225-278 | merges the delta and then the item at the remote identifier; cursors that were on the local position before the merges end on the remote one, the rest keep the merged value; a selected tag at the local position after the merges is swapped for the remote one; panics exactly on a mismatch |
| `Add.HandleAdd` | src/db_sync.rs:280-349 | with any reply but `AddedItem` of a different identifier, returns the input cursors and local identifier with no insert; otherwise inserts the fetched item or local-stamped placeholder for each position of the gap, in order, and re-points the cursors, or panics exactly on a mismatch |
| `AddProofs.NextIdIsAppendSlot` | src/db_sync.rs:187-198 | merging an item stamped with its provisional identifier appends it, moves no cursor, and keeps a well-numbered ledger well numbered |
| `AddProofs.EchoingStoreNeverConflicts` | src/db_sync.rs:204-206 | a store that always assigns the identifier it is given yields an empty delta and the local identifier |
| `AddProofs.SettledDelta` | src/db_sync.rs:206-218 | when the store numbers the item `R` at or past the slot `L`, the delta covers exactly `[L, R)`, each entry the fetched item or the placeholder stamped `R` |
| `AddProofs.SettledMerges` | src/db_sync.rs:226-228 | in that case both merges of the `AddItem` transition push, so no cursor moves before the re-pointing |
| `AddProofs.AddSettlesLedger` | src/db_sync.rs:199-228 | for the vector categories, and for chats only while their identifiers are dense: create-then-`AddItem` leaves the first `L` items, the backfilled items at `[L, R)`, the item stamped `R` last, length `R + 1`, and every other ledger unchanged |
| `AddProofs.AddSettlesCursors` | src/db_sync.rs:225-277 | in the same add, for an access mode, chat or tag, the cursors of that category and a selected tag that were on `L` move to `R`; a config's cursors are not re-pointed; no other cursor moves |
| `AddProofs.SettledShape` | src/db_sync.rs:206-228 | the ledger a settled add builds has length `R + 1`, the old ledger as its first `L` items, the fetched item or placeholder at each position of `[L, R)`, and the item stamped `R` last |
| `AddProofs.SettledAddKeepsCursorsInRange` | src/db_sync.rs:225-277 | after a settled add, every cursor that was in range, or on the provisional slot of the item's category, is in range |
| `AddProofs.SettledAddKeepsTagsInRange` | src/db_sync.rs:269-271 | likewise for the selected tags, when each was in range or on the provisional slot of a new tag |
| `AddProofs.HonestAddKeepsNumbering` | src/db_sync.rs:206-228 | if every backfill fetch returns the item numbered at that position, a well-numbered ledger stays well numbered |
| `AddProofs.FailedFetchLeavesMisnumberedPlaceholder` | src/db_sync.rs:207-215 | for the vector categories, and for chats only while their identifiers are dense: a failed fetch of position `L` leaves at `L` the placeholder whose own identifier is `R`, not `L` |
| `AddProofs.ConfirmedIdRemap` | src/db_sync.rs:229-276 | when the local identifier is confirmed, the re-pointing is the identity as long as the merges left the cursors on it in place |
| `AddProofs.InsertAllAppends` | src/db_sync.rs:284-294 | when `insert_directly` appends, inserting a run of one category appends its items in order and changes nothing else |
| `AddProofs.HonestBackfillsAgree` | src/db_sync.rs:207-215 | with honest fetches, the backfill `handle_add` inserts holds the same items as the delta `get_delta_for_add` returns, whatever the placeholder |
| `AddProofs.HandleAddAgreesWithReducible` | src/db_sync.rs:199-349 | starting from a database that does not yet hold the item, with honest fetches and an appending `insert_directly`: `handle_add`'s database plus a push of the item stamped `R` is the `AddItem` transition's database, and its re-pointed cursors are the transition's |
| `AddProofs.HonestBackfillNumbered` | src/db_sync.rs:284-294 | with honest fetches, the `j`-th item `handle_add` inserts is the entity numbered `L + j` |
| `AddProofs.InsertAllPlaces` | src/db_sync.rs:284-294 | when `insert_directly` puts each item at its own position, inserting a run numbered from the end of a ledger's prefix on puts the run, in order, between that prefix and the ledger's last item |
| `AddProofs.CallerHandleAddAppends` | src/db_sync.rs:280-349 | from the callers' database, which already holds the item stamped `L`, an appending `insert_directly` leaves that item at `L` and the backfill after it; position `R`, where the cursors are re-pointed, holds the item numbered `R - 1`, while the `AddItem` transition puts the new item there |
| `AddProofs.CallerHandleAddPlacing` | src/db_sync.rs:280-349 | from the callers' database, an `insert_directly` that puts each item at its own position gives the `AddItem` transition's database except that the item at `R` keeps the stamp `L`; the re-pointed cursors are the transition's |
| `AddProofs.TagConflictScenario` | src/db_sync.rs:255-271 | with two tags, a provisional `Tag(2)` and the store's `Tag(4)`, the ledger ends with five tags in order and a parent-tag choice of 2 becomes 4 |

## Left out

- `get_database_conflict_fix` and `NeedToSync` are left out: the function is an unfinished stub that returns an empty list or an error.
- The backend library's internals are not modelled: item payloads, chat settings, the real `insert_or_update`, `insert_directly`, `set_id` and identifier ranges. Each is replaced by an oracle or by the assumption stated above.
- `async` and `spawn_local` scheduling is left out. Each call is modelled alone, and the store answers a given request the same way every time.
- Cursors.OnReject: positions are unbounded naturals, so the `usize` overflow of `+ 1` at the maximum value is not modelled. It cannot arise from ledger sizes.
- The UI tabs, the application state reducers, the HTTP and Tauri plumbing and the bootstrap code only call into this core or render its results.
- The token-streaming accumulator, with its `DatabaseState` and `DatabaseAction` definitions, is not part of this model.
- Cursor validity across the whole application is not claimed. The tabs select the provisional slot before the item exists (src/tabs/home_tab.rs:38), so a cursor is out of range between that dispatch and the add. The model proves the parts that do hold: `SyncKeepsCursorsInRange` for `apply_server_updates`, and `SettledAddKeepsCursorsInRange` and `SettledAddKeepsTagsInRange` for a settled add.
- `handle_add` leaves the store's `insert_directly` as an oracle. Its relation to the `AddItem` transition is proved for an `insert_directly` that appends and for one that puts each item at its own position. The model does not fix which of the two the backend does.
- AddProofs.HandleAddAgreesWithReducible: its starting database does not hold the new item, which is not how the callers use `handle_add`. They add the item first, then call it (src/app.rs:311 then 324, 468 then 485, 795 then 810, 1025 then 1032, 1164 then 1171). For the callers' database, `CallerHandleAddAppends` shows that an appending `insert_directly` does not agree with the transition: the item stays at `L`. `CallerHandleAddPlacing` shows that agreement needs an `insert_directly` that puts each item at its own position, and even then the item at `R` keeps the stamp `L`.
- AddProofs.FailedFetchLeavesMisnumberedPlaceholder, AddProofs.AddSettlesLedger: these describe chats only while the chat identifiers are dense. The source keeps chats in a map keyed by identifier, and the model does not.
