# MemStorage, the in-memory store of the dating-sim backend

This project models `MemStorage`, the in-memory implementation of the game's
storage interface (`server/storage.ts`). It holds five tables: users, the
characters the player can date, game states (one relationship between a user
and a character), a dialogue list per game state, and save slots keyed by
user and slot number. All records take their ids from one shared counter.

The store is a Dafny class, `Storage.MemStorage`, whose fields are the
tables. Each JavaScript `Map` the store iterates over (users, characters,
game states and save slots) becomes a `map` plus a `seq` of its keys in
insertion order; the dialogue lists are a `map` alone, since only single
lists are ever read from it. That order is what `Array.from(map.values())` walks, so the
first-match lookups `getUserByUsername` and `getGameState` depend on it. The
class also has the `nextId` counter and a logical `clock` that stands for
`new Date()`.

A ghost `issued` sequence records which kind of record received each id. The
invariant `Valid()` ties it to the tables, so ids are never shared: no id
serves two tables, no two save slots share one, and no dialogue id occurs
twice among the dialogue lists. Every
operation that changes the store is a method. Its contract gives the new
value of each table it touches and says that the rest is unchanged. Each such
method keeps `Valid()`.

The parts of the JavaScript runtime the store relies on live in `Sequences`:
- insertion order;
- `filter`;
- the stable `sort` with a "newest first" comparator;
- `slice(0, limit)`.

`Schema` holds the record shapes from `shared/schema.ts` and the `??` and
object-spread operators. `Scenarios` runs short sessions against a fresh
store and states what each session returns.

Files:
- `wrappers.dfy`: `Option` and `Result`.
- `schema.dfy`: records, inserts and patches, plus the merge lemmas.
- `sequences.dfy`: collection behaviour, sorting and insertion-order lemmas.
- `storage.dfy`: the store, its invariant, and the specification functions and lemmas of its queries.
- `scenarios.dfy`: client sessions.

Where the store departs from the rest of the repository, the model follows
the store:
- `shared/schema.ts` line 8 declares `username` unique, but `createUser` (`server/storage.ts` lines 132-143) checks nothing, so two users may share a name. It also stores an empty password and a null email, whatever the insert says.
- `shared/schema.ts` line 96 gives `affectionChange` the column default 0, but `createDialogue` uses `?? null` (`server/storage.ts` line 244), so an omitted change is null.
- `updateUserGlobalSettings` exists only in `server/fallback-storage.ts` (line 104), not in `MemStorage`. Settings change through `updateUser`.

`getDialogues` (`server/storage.ts` lines 228-234) sorts the stored list in place,
newest first, and returns the first `limit` entries of it, so the answer is
the newest dialogues, newest first, and the stored list stays in that order.

`updateUser` and `updateGameState` spread a `Partial<...>` patch over the
stored record, so a patch may rewrite the record's own `id`, `userId` or
`createdAt` field (`server/storage.ts` lines 150 and 206-210). The record stays
stored under its old key. The model keeps this: for users and game states it
is the table keys, not the records' `id` fields, that the invariant ties to
the counter.

## Model

| member | source | states |
|---|---|---|
| Sequences.KeyOrderAppend | server/storage.ts:141 | `Map.set` of a new key puts the key last in the iteration order, and every key still appears exactly once |
| Sequences.KeyOrderPut | server/storage.ts:288 | `Map.set` of a key that is already present keeps its place in the iteration order; a new key goes last |
| Sequences.KeyOrderRemove | server/storage.ts:294 | `Map.delete` drops the key from the iteration order and leaves the others in order |
| Sequences.KeyOrderLength | server/storage.ts:155-157 | the iteration order lists exactly as many keys as the map holds |
| Sequences.ValuesInOrder | server/storage.ts:155-157 | `Array.from(map.values())` has one entry per key, the value of the i-th key in insertion order |
| Sequences.RemoveKey | server/storage.ts:292-295 | deleting a key keeps exactly the other keys, keeps them distinct, and changes nothing when the key is absent |
| Sequences.OwnedBy | server/storage.ts:215-217 | the filter by owner keeps every record of that owner as often as it occurs, and no other record |
| Sequences.SortDesc | server/storage.ts:218-222 | sorting with the comparator `dateB - dateA` gives a permutation of the input, ordered newest first |
| Sequences.DistinctPermutation | server/storage.ts:228-233 | reordering a list without repeats, as the in-place sort does, leaves it without repeats |
| Sequences.SliceEnd | server/storage.ts:234 | `slice(0, limit)` stops at `limit` when it fits, at the length when `limit` is larger, and counts back from the end when `limit` is negative |
| Sequences.PrefixHoldsNewest | server/storage.ts:226-235 | a prefix of a newest-first list is sorted, is part of the list, and holds nothing older than what it drops |
| Sequences.NewestOwnedFirst | server/storage.ts:215-224 | a value stamped strictly after every other value of the map heads its owner's newest-first listing |
| Schema.NewGameStateDefaults | server/storage.ts:182-199 | a new game state keeps the insert's owner and character and every field the insert gives; it falls back to affection 0, status "stranger", 0 conversations, emotion "neutral", no backstories, and null save time and settings; it is created and updated now |
| Schema.MergeUserEmpty | server/storage.ts:145-153 | the spread of a patch that names no field leaves the user unchanged |
| Schema.MergeUserFields | server/storage.ts:150 | every field the patch names takes the patch's value, `globalSettings` as a whole; every other field keeps the stored value |
| Schema.MergeGameStateEmpty | server/storage.ts:201-213 | a patch that names no field changes only `updatedAt`, which becomes now |
| Schema.MergeGameStateStamps | server/storage.ts:206-210 | `updatedAt` becomes now, whatever the patch says about it |
| Schema.MergeGameStateFields | server/storage.ts:206-210 | every field the patch names other than `updatedAt` takes the patch's value, arrays and `settings` as a whole; every other field keeps the stored value |
| Storage.TablesGrow | server/storage.ts:52-58 | handing out more ids and moving the clock on keeps every table valid, and every user, character and game state key is below the next id |
| Storage.StampedStateValid | server/storage.ts:201-213 | storing a game state stamped after every earlier one keeps the table valid and makes that state the newest |
| Storage.NewestStateListedFirst | server/storage.ts:215-224 | the game state stamped last comes first in its user's list |
| Storage.StampedSlotValid | server/storage.ts:273-290 | storing a save slot with a fresh id, stamped after every earlier one, under its own key keeps the table valid, slot ids included, and makes that slot the newest |
| Storage.NewestSlotListedFirst | server/storage.ts:257-266 | the save slot stamped last comes first in its user's list |
| Storage.SeededCharactersValid | server/storage.ts:64-117 | the four seeded characters, under ids 1 to 4 in that order, form a valid characters table |
| Storage.FindUser | server/storage.ts:123-130 | the lookup answers undefined exactly when no user has the username, and otherwise returns a stored user with exactly that username |
| Storage.FindUserFirst | server/storage.ts:123-130 | the lookup returns the user at the first matching position of the insertion order |
| Storage.FindUserAppend | server/storage.ts:132-143 | after a new user is added, a lookup still returns the earlier match if there was one, otherwise the new user if the name matches, otherwise undefined |
| Storage.FindUserAppendAll | server/storage.ts:132-143 | the same as `FindUserAppend`, for every username at once |
| Storage.FindGameState | server/storage.ts:173-180 | the lookup answers undefined exactly when no state belongs to that user and character, and otherwise returns a stored state of that pair |
| Storage.FindGameStateFirst | server/storage.ts:173-180 | the lookup returns the state at the first matching position of the insertion order |
| Storage.FindGameStateAppend | server/storage.ts:182-199 | after a new state is added, a lookup still returns the earlier match if there was one, otherwise the new state if it belongs to the pair |
| Storage.FindGameStateAppendAll | server/storage.ts:182-199 | the same as `FindGameStateAppend`, for every user and character at once |
| Storage.DialoguesOf | server/storage.ts:227 | the stored list of a known game state, the empty list otherwise |
| Storage.PushedDialogueValid | server/storage.ts:237-255 | pushing a dialogue with a fresh id onto its own game state's list keeps every dialogue once in its own list and every dialogue id unique |
| Storage.SortedDialoguesValid | server/storage.ts:226-235 | sorting a stored list in place keeps every dialogue once in its own list and every dialogue id unique |
| Storage.DialoguePage | server/storage.ts:226-235 | the answer is sorted newest first, is part of the stored list, has `slice(0, limit)` length (so at most `limit`), and nothing left out is newer than anything returned |
| Storage.WholePage | server/storage.ts:226-235 | a limit at least as large as the list returns every stored dialogue, each as often as stored |
| Storage.NewestDialogueFirst | server/storage.ts:237-255 | a dialogue stamped after every stored one heads the page for every positive limit |
| Storage.MemStorage.IdsUnique | server/storage.ts:52-58 | the shared counter hands each id out once: the user, character and game state keys, the save slot ids and the dialogue ids never meet; no two save slots and no two stored dialogues (in one list or in two) share an id; every one of them lies between 1 and the next id |
| Storage.MemStorage.constructor | server/storage.ts:60-117 | a fresh store has empty tables and the four seeded characters under ids 1 to 4, in seeding order and stamped in turn; the next id is 5 |
| Storage.MemStorage.GetUser | server/storage.ts:119-121 | returns the user stored under the id, or undefined when there is none |
| Storage.MemStorage.GetUserByUsername | server/storage.ts:123-130 | the scan returns what `FindUser` specifies: the first user in insertion order with exactly that username, or undefined |
| Storage.MemStorage.CreateUser | server/storage.ts:132-143 | the new user takes the next id, which no stored record has, and the next stamp; the password is empty and email, picture and settings are null; `getUser` then returns it; a username lookup changes only if nobody had the name before |
| Storage.MemStorage.UpdateUser | server/storage.ts:145-153 | fails with "User not found" exactly when the id is unknown; otherwise the stored user becomes the shallow merge of the patch over it, and no other record changes |
| Storage.MemStorage.GetAllCharacters | server/storage.ts:155-157 | lists every character once, in insertion order, each under its own id |
| Storage.MemStorage.GetCharacter | server/storage.ts:159-161 | returns the character stored under the id, which carries that id, or undefined |
| Storage.MemStorage.CreateCharacter | server/storage.ts:163-171 | the insert's fields under the next id and stamp, stored last in the iteration order |
| Storage.MemStorage.GetGameState | server/storage.ts:173-180 | the scan returns what `FindGameState` specifies: the first state of that user and character in insertion order, or undefined |
| Storage.MemStorage.CreateGameState | server/storage.ts:182-199 | the new state is the insert completed with the defaults (`NewGameState`, see `NewGameStateDefaults`), under the next id, which no stored record has, and stamped with the next clock reading; it is stored last in insertion order and becomes the newest state; a pair lookup changes only if the pair had no state before |
| Storage.MemStorage.UpdateGameState | server/storage.ts:201-213 | fails with "Game state not found", changing nothing, exactly when the id is unknown; otherwise the merge of the patch, stamped now, replaces that state only and becomes the newest |
| Storage.MemStorage.GetUserGameStates | server/storage.ts:215-224 | exactly the user's game states, each as often as stored, sorted by `updatedAt` newest first |
| Storage.MemStorage.NewestStateHeadsList | server/storage.ts:215-224 | the game state created or updated last heads its user's list |
| Storage.MemStorage.GetDialogues | server/storage.ts:226-235 | returns `DialoguePage` of the stored list (empty for an unknown game state); as a side effect, that state's stored list becomes the same dialogues sorted newest first, and nothing else changes |
| Storage.MemStorage.CreateDialogue | server/storage.ts:237-255 | the new dialogue, with the next id and stamp and null for omitted optional fields, is appended to its game state's list only; it heads every page taken right after the call |
| Storage.MemStorage.GetSaveSlots | server/storage.ts:257-266 | exactly the user's save slots, each as often as stored, sorted by `updatedAt` newest first |
| Storage.MemStorage.NewestSlotHeadsList | server/storage.ts:257-266 | the save slot written last heads its user's list |
| Storage.MemStorage.GetSaveSlot | server/storage.ts:268-271 | returns the slot under the user's slot number, which belongs to that user and number, or undefined |
| Storage.MemStorage.CreateSaveSlot | server/storage.ts:273-290 | the slot, with the next id and stamp, replaces whatever was under the user's slot number and leaves every other slot alone; `getSaveSlot` then returns it, and it is the newest slot |
| Storage.MemStorage.DeleteSaveSlot | server/storage.ts:292-295 | removes only that key, changes nothing when the key is absent, and `getSaveSlot` then returns undefined |
| Storage.MemStorage.UnlockBackstory | server/storage.ts:297-315 | fails with "Game state not found", changing nothing, exactly when the state is unknown; an id already unlocked returns the stored state and changes nothing; a new id is appended after the earlier ones and the state is stamped now; the list only grows and holds the id afterwards |
| Storage.MemStorage.GetUnlockedBackstories | server/storage.ts:317-320 | the state's unlocked list, or empty for an unknown state or a null list |
| Scenarios.SeededCatalog | server/storage.ts:64-117 | `getAllCharacters` on a fresh store lists the seeded characters under ids 1, 2, 3 and 4, in that order |
| Scenarios.NewGame | server/storage.ts:182-213 | a new game state takes the defaults, and the update returns the same state with only the two fields it names changed, plus the new `updatedAt` |
| Scenarios.Conversation | server/storage.ts:226-255 | after three lines in a fresh store, the history holds exactly those three, the last one first |
| Scenarios.ThreeLines | server/storage.ts:226-255 | three lines said in a game state with no dialogue yet come back as its history: exactly those three, the last one first |
| Scenarios.SayThree | server/storage.ts:237-255 | three `createDialogue` calls leave the game state's list holding the three lines in the order said, the last one stamped later than the other two |
| Scenarios.ConversationPage | server/storage.ts:226-235 | the default page of a three-line list whose last line is the newest has three entries, the last line first, and holds exactly those lines |
| Scenarios.UnlockTwice | server/storage.ts:297-320 | unlocking a backstory twice returns the same state as once, and the backstory is listed once |
| Scenarios.UnknownRecords | server/storage.ts:145-301 | updating an unknown user fails with "User not found" (lines 145-149); updating an unknown game state and unlocking a backstory of one both fail with "Game state not found" (lines 201-205 and 297-301) |
| Scenarios.SharedUsername | server/storage.ts:123-143 | two users may share a username, and the lookup finds the one registered first |
| Scenarios.SaveOverSlot | server/storage.ts:268-290 | saving twice into one slot leaves the later save there |
| Scenarios.DeleteSlots | server/storage.ts:268-295 | deleting an empty slot is no error, and deleting a saved slot empties it while the user's other slot still returns the save stored there |

## Left out

- Promises and `async`: every operation is a synchronous method, and a thrown `Error` is a `Failure` carrying its message.
- Wall-clock time: each `new Date()` is one tick of a logical clock. `createGameState` and `createSaveSlot` read the clock twice, for `createdAt` and `updatedAt`. In JavaScript the two readings may differ by a millisecond, but here they are one reading.
- Equal timestamps: two records created within one millisecond carry the same `Date` in JavaScript. Here every stamp is distinct, so "stamped last" always names a single record.
- Number width: ids, the counter and all integer fields are unbounded integers, not IEEE doubles, so the precision loss past 2^53 is not captured.
- `undefined` and `null` are one value (`Null`), for instance the `globalSettings` that `createUser` never sets. A patch key present with the value `undefined` is not distinguished from a key that is left out.
- Object identity: the store returns and keeps the same JavaScript objects, so a caller could mutate a stored record through a returned reference. The model passes values, so such aliasing is not captured.
- Sequences.SortDesc: the definition is the stable insertion order that `Array.prototype.sort` has, but stability among equal timestamps is not stated as a property. Storage.MemStorage.GetUserGameStates and Storage.MemStorage.GetSaveSlots inherit this.
- Storage.MemStorage.GetDialogues: `limit` is an integer. A fractional or `NaN` limit, which `slice` converts, is not modelled.
- Input validation: the zod insert schemas in `shared/schema.ts` are not part of this model. The store accepts any insert, as `MemStorage` itself does.
- The `IStorage` interface declaration and the exported singleton `storage` add no behaviour and are not modelled.
- The rest of the repository is not part of this model: the HTTP routes and deployment servers, `server/fallback-storage.ts`, the database-backed schema defaults, the service worker and the React client.
