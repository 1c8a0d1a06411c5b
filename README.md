# Amenity booking: claim transition and store

A Dafny model of the core of a small booking service for shared amenities
(pool, gym, conference room, rooftop lounge). Each amenity owns an ordered
sequence of time slots. A slot's `bookedBy` holder is the only booking state
that changes. The model covers:

- **The claim handler** `POST /amenities/:id` (`AmenityRoutes`). It reads the
  users and amenities, then runs its checks in a fixed order: missing fields
  (400), unknown user (404), unknown amenity (404), unknown slot (404), slot
  held by the requester (404) or by someone else (409). On success it marks the
  first slot of that amenity with the requested id as held by the requester,
  writes the amenities back and answers 201 with the slot. `Check`, `Respond`
  and `After` give the decision as functions of the loaded dataset.
  `ClaimSlot` is the handler, written with early returns over the store, and is
  proved against them.
- **The store** (module `Store`, class `FileStore`). The JSON file is one `Option<Database>` field.
  `None` means the file is absent or cannot be read or parsed. The module-level
  `emptyDb` constant is a heap object (`DbObject`), because `readDb` hands out
  that very object when a read fails and `writeKey` then assigns into it.
  `readDb`, `readKey`, `writeDb`, `writeKey`, `clearDb` and `seedDb` are methods
  on the store.
- **Seed data** (`TimeSlots`, `SeedData`). `generateTimeSlots` is a nested-loop
  method proved equal to `Ladder`: 3 days × hours 9, 13, 17, with ids
  `slot_<day>_<hour>h`. The seed dataset has four users, four amenities and two
  demonstration bookings.
- **Number rendering** (`NumberText`). The route turns `:id` into a number and
  indexes the amenities object with it, so the key is the number's decimal
  string. `IntToString` models that and is proved injective.

Time is counted in whole hours from midnight of the day the slots are
generated. Today's weekday is a parameter, and so are the booking timestamps.
The amenity route parameter is modelled already parsed: `NotANumber` or an
integer. `userId` and `timeSlotId` are `Option<string>`. An absent field and
`""` are both falsy, as in JavaScript.

Pool slot 1 is not free after seeding. It is held by "2" (see Findings), so a
claim on it by "3" is refused with 409. The model follows the code here;
`Scenarios.SeedThenClaimPoolSlot` states it.

## Model

| member | source | states |
|---|---|---|
| `NumberText.IntRoundTrip` | src/routes/amenities.ts:40-48 | the decimal key a numeric amenity id is looked up under parses back to that number |
| `NumberText.IntToStringInjective` | src/routes/amenities.ts:40-48 | two amenity ids select the same key exactly when they are the same number |
| `NumberText.NatToString` | src/db.ts:133 | a natural number renders as a non-empty string of decimal digits, "0" for zero and without a leading zero otherwise, as `String(n)` does for n ≤ 2^53 |
| `DbTypes.Get` | src/db.ts:77-80 | `readKey(key)` yields the collection stored under `key` |
| `DbTypes.Put` | src/db.ts:94 | `db[key] = value` makes collection `key` equal `value` and leaves the other two collections as they were |
| `DbTypes.PutOwnCollection` | src/db.ts:92-96 | writing back the collection just read leaves the dataset unchanged |
| `DbTypes.WithHolder` | src/routes/amenities.ts:69 | setting one slot's `bookedBy` changes only that slot's holder: same length, same id and times, every other slot unchanged |
| `TimeSlots.GenerateTimeSlots` | src/db.ts:99-142 | the nested loops push exactly the ladder: day offsets 0..2, hours 9, 13, 17, in that order; the duration defaults to 1 |
| `TimeSlots.LadderShape` | src/db.ts:107-124 | 9 slots, all unbooked, each ending `slotDurationHours` after its start (start < end for a positive duration), start times strictly increasing |
| `TimeSlots.LadderNonOverlapping` | src/db.ts:107-124 | with a duration of at most 4 hours no slot overlaps a later one |
| `TimeSlots.LadderOverlapsWhenLong` | src/db.ts:119-124 | a duration above 4 hours makes the 9 AM and 1 PM slots overlap; the duration is never checked against the gap |
| `TimeSlots.ConsecutiveDayNamesDistinct` | src/db.ts:111-114 | three consecutive days have distinct weekday names |
| `TimeSlots.SlotIdInjective` | src/db.ts:127-133 | a slot id determines its three-letter day name and its hour |
| `TimeSlots.SlotIdRoundTrip` | src/db.ts:127-133 | the day name and the hour can be read back from a slot id |
| `TimeSlots.LadderIdsDistinct` | src/db.ts:107-133 | the 9 slot ids generated for one amenity are pairwise distinct |
| `SeedData.SeedShape` | src/db.ts:148-212 | users "1".."4" and amenities "1".."4" with durations 2, 1, 3, 4, each owning its own generated ladder; bookings "1" and "2" |
| `SeedData.PoolHolderOverwrite` | src/db.ts:217-230 | marking the pool slot twice leaves only the second holder |
| `SeedData.SeedPoolSlotOverwritten` | src/db.ts:215-239 | after seeding, pool slot 1 is held by "2", gym slot 2 is free although booking "2" names it, and the bookings do not match the holders |
| `SeedData.IntendedSeedConsistent` | src/db.ts:215-239 | with each booking applied to its own slot, every booking names a slot held by its user |
| `SeedData.LaddersWellFormed` | src/db.ts:176-210 | amenities that own generated ladders satisfy the dataset invariants |
| `SeedData.PoolHolderKeepsWellFormed` | src/db.ts:215-230 | marking the pool slot with a known user keeps the invariants |
| `SeedData.SeedWellFormed` | src/db.ts:144-243 | the seeded dataset has known holders, unique slot ids per amenity and start < end |
| `Store.DbObject.Assign` | src/db.ts:94 | assigning a collection on the loaded object replaces exactly that collection |
| `Store.FileStore.constructor` | src/db.ts:49-53 | `emptyDb` starts with three empty collections |
| `Store.FileStore.ReadDb` | src/db.ts:66-75 | a readable file yields a fresh object equal to its contents; a failed read yields the shared `emptyDb` object itself; a read or parse failure never escapes (the catch at db.ts:71-74) |
| `Store.FileStore.ReadKey` | src/db.ts:77-80 | the collection under `key` of what `readDb` yields; on a failed read with `emptyDb` intact it is empty |
| `Store.FileStore.WriteDb` | src/db.ts:82-85 | the whole file is overwritten with the given dataset |
| `Store.FileStore.WriteKey` | src/db.ts:92-96 | the file becomes the loaded dataset with collection `key` replaced; after a failed read the assignment also lands in `emptyDb` |
| `Store.FileStore.ClearDb` | src/db.ts:248-251 | persists the current contents of `emptyDb`, which is the empty dataset only while `emptyDb` is intact |
| `Store.FileStore.SeedDb` | src/db.ts:144-245 | persists exactly the seed dataset, with both booking steps applied in order |
| `Store.FileStore.ReadDbCopy` | src/db.ts:66-75 | a read whose fallback is a fresh copy of the empty dataset |
| `Store.FileStore.WriteKeyCopy` | src/db.ts:92-96 | the same file contents as `writeKey`, and `emptyDb` stays empty if it was empty |
| `Store.ClearAfterFallbackWrite` | src/db.ts:49-53 | on an unreadable file, `writeKey` of a non-empty collection followed by `clearDb` persists that collection, not the empty dataset |
| `Store.ClearAfterFallbackWriteCopy` | src/db.ts:248-251 | with the copying read the same sequence leaves the file empty |
| `Store.ClearThenReadAmenities` | src/db.ts:248-251 | after `clearDb` on an untouched store, reading the amenities gives none |
| `Store.RewriteKeepsFile` | src/db.ts:77-96 | reading a collection and writing it back leaves a readable file unchanged |
| `AmenityRoutes.FindIndex` | src/routes/amenities.ts:51-53 | the first index whose slot id matches, or -1 exactly when no slot matches |
| `AmenityRoutes.Check` | src/routes/amenities.ts:42-68 | a claim is accepted exactly when the fields are present, the user and the amenity exist, the amenity owns a slot with that id and the first such slot is free; the accepted index is that slot |
| `AmenityRoutes.ClaimSlot` | src/routes/amenities.ts:37-72 | the response is the decision on the loaded dataset; a rejection writes nothing and leaves `emptyDb` alone; a success persists the dataset with the one slot claimed, and after a failed read `emptyDb` itself becomes that dataset |
| `AmenityRoutes.MissingFieldsComeFirst` | src/routes/amenities.ts:42-44 | a falsy user id, a NaN or 0 amenity id, or a falsy slot id gets 400 whatever the dataset holds, and nothing changes |
| `AmenityRoutes.UnknownUserRejected` | src/routes/amenities.ts:45-47 | an unknown user gets 404 "User not found" whatever the amenities and slots are |
| `AmenityRoutes.UnknownAmenityRejected` | src/routes/amenities.ts:48-50 | an amenity id that is not stored gets 404 "Amenity not found" |
| `AmenityRoutes.ForeignSlotNotFound` | src/routes/amenities.ts:51-56 | a slot id that exists only under another amenity gets 404 "Time slot not found" |
| `AmenityRoutes.HeldSlotRejected` | src/routes/amenities.ts:57-68 | a held slot gets 404 when its holder asks again and 409 for anyone else, and nothing changes |
| `AmenityRoutes.ClaimChangesOneSlot` | src/routes/amenities.ts:69-71 | on success only the located slot's holder changes, to the requester; users, bookings, other amenities and other slots are unchanged; the updated slot is returned with 201 |
| `AmenityRoutes.FindIndexIgnoresHolders` | src/routes/amenities.ts:51-53 | changing a holder does not move the slot that `findIndex` locates |
| `AmenityRoutes.ClaimOnlyOnce` | src/routes/amenities.ts:58-71 | a success creates no booking; the same slot is then refused to its holder (404) and to every other known user (409), and those refusals change nothing |
| `AmenityRoutes.ClaimKeepsWellFormed` | src/routes/amenities.ts:45-69 | a claim keeps holders known users, slot ids unique and start < end |
| `AmenityRoutes.ClaimedKeepsWellFormed` | src/routes/amenities.ts:69 | giving one slot to a known user keeps holders known, slot ids unique and start < end |
| `AmenityRoutes.HoldersNeverReleased` | src/routes/amenities.ts:57-69 | no request releases or reassigns a held slot |
| `AmenityRoutes.CheckAsWritten` | src/routes/amenities.ts:42-68 | with the user lookup as written, the decision agrees with `Check` on every request whose user is an own key or not an inherited member name |
| `AmenityRoutes.InheritedNameClaimsSlot` | src/routes/amenities.ts:45-71 | on a well-formed dataset without such a user, "constructor" is rejected by `Check` but, as written, claims a free slot, after which a slot is held by no known user |
| `AmenityRoutes.InheritedNamePassesUserCheck` | src/routes/amenities.ts:45-47 | the user guard as written accepts "constructor" although no such user exists; the modelled check rejects it |
| `Scenarios.ClaimFreeLadderSlot` | src/routes/amenities.ts:42-71 | a known user claiming position `k` of an amenity whose slots are a free generated ladder gets that slot back, now held by them, with 201 |
| `Scenarios.ClaimHeldLadderSlot` | src/routes/amenities.ts:51-68 | a held slot of a generated ladder is refused to its holder with 404 and to anyone else with 409 |
| `Scenarios.SeededPoolSlotRefused` | src/db.ts:215-230 | on the seeded dataset pool slot 1 is refused to "2" (its holder) and to "3" |
| `Scenarios.ClaimHeldTwice` | src/routes/amenities.ts:57-68 | through the handler, claims the dataset refuses as held return those refusals and leave the file alone |
| `Scenarios.ClaimThenReclaim` | src/routes/amenities.ts:37-72 | through the handler, a successful claim followed by a second claim by the same user and one by another known user: 201, then 404 and 409 |
| `Scenarios.ClaimSeededPoolSlot` | src/routes/amenities.ts:57-68 | on a store holding the seeded dataset, "2" and "3" are both refused pool slot 1 and the file stays as it was |
| `Scenarios.ClaimSeededGymSlot` | src/routes/amenities.ts:37-72 | on a store holding the seeded dataset, "3" gets gym slot 2 with 201, then "3" gets 404 and "4" gets 409 |
| `Scenarios.SeedThenClaimPoolSlot` | src/db.ts:215-230 | after seeding, pool slot 1 is refused to "2" with 404 and to "3" with 409 |
| `Scenarios.SeededGymSlotClaimable` | src/db.ts:228-239 | after seeding, "3" can claim gym slot 2 although booking "2" names it |
| `Scenarios.SeedThenClaimGymSlot` | src/routes/amenities.ts:37-72 | seed, then "3" claims gym slot 2 (201, holder "3"); "3" again gets 404 and "4" gets 409 |
| `Scenarios.ReclaimRejected` | src/routes/amenities.ts:58-70 | through the handler, a just-claimed slot is refused to its holder and to any other user, and the file stays as the claim left it |
| `Scenarios.ClaimWithoutSlotId` | src/routes/amenities.ts:42-44 | a claim without a slot id on a seeded store gets 400 and the file keeps the seed dataset |

## Left out

- File-system I/O is not modelled: `fs`, `path`, `DB_PATH`, `ensureDbDirectory`, `JSON.parse`/`JSON.stringify` and the on-disk format. The file is one `Option<Database>` field. A failed read and an unparseable file are both `None`.
- A failing `writeFileSync` is not modelled. The code does not catch it; in the model every write succeeds.
- Stored data is assumed to be well shaped: every record present and every amenity with a `timeSlots` array. JSON that parses but has another shape is not modelled.
- Only NaN and integral values are modelled for `Number(req.params.id)`. Parsing the string (whitespace, hex, exponents) is left out, and so are fractions and `Infinity`. Integral values above 2^53 in magnitude are left out too (`AmenityRoutes.SafeInteger`): from there on JavaScript's `String` writes the shortest digits that round back to the same double (`String(2**60)` is "1152921504606847000"), and the model's digit-by-digit rendering would name a different key.
- Only strings and absent or null values are modelled for `userId` and `timeSlotId`. Numbers, booleans and objects in the request body are left out.
- `Date` semantics are not modelled: time zones, daylight-saving shifts and `toISOString` formatting. Times are whole hours from local midnight. The weekday of "today" is a parameter shared by all four `generateTimeSlots` calls, so a seed that runs across midnight is not modelled.
- The nested in-place assignment `amenities[id].timeSlots[i].bookedBy = userId` is modelled as a value update, written back by `WriteKey` on the next line. The persisted result is the same, including when `readKey` handed out `emptyDb`'s own collection. Sharing of individual slot objects is not represented.
- `AmenityRoutes.ClaimSlot`: the user check is own-key membership. The code's `users[userId]` also finds inherited `Object.prototype` members (see Findings).
- `AmenityRoutes.Check`: accepts own keys of `users` only. The lookup as written, which also lets inherited `Object.prototype` names through, is `AmenityRoutes.CheckAsWritten` (see Findings).
- `AmenityRoutes.UnknownUserRejected`: states 404 for every name that is not an own key. As written, inherited names such as "constructor" pass the lookup instead (`AmenityRoutes.InheritedNameClaimsSlot`).
- The lost update between concurrent claims is not modelled, because the model is sequential.
- The `GET /` and `GET /:id` listing handlers are left out. They are read-only projections, and their double response on the error paths is framework behaviour.
- Express routing, body parsing, CORS, dotenv and server start-up in src/index.ts are left out. The `./dbService` module that src/index.ts imports is not part of this model.
- The commented-out cancellation endpoint and booking-record creation are dead code and are left out.
- The command-line `seed`/`clear` dispatch and console logging are left out.

## Findings

| source | as written | input that shows it | evidently intended | confidence | as-written member | corrected member |
|---|---|---|---|---|---|---|
| src/db.ts:230 | the gym step assigns `poolSlot.bookedBy = "2"` | any seeding: pool slot 1 ends held by "2", gym slot 2 stays free while booking "2" names it | `gymSlot.bookedBy = "2"` | high; not executed | `SeedData.SeedPoolSlotOverwritten` | `SeedData.IntendedSeedConsistent` |
| src/db.ts:73 | a failed read returns the shared `emptyDb` object, and `writeKey` assigns into it (line 94) | absent file, `writeKey("amenities", {...})`, then `clearDb()`: the file keeps the amenities | return a fresh empty dataset on a failed read | high; not executed | `Store.ClearAfterFallbackWrite` | `Store.ClearAfterFallbackWriteCopy` |
| src/routes/amenities.ts:45 | `!users[userId]` also finds members inherited from `Object.prototype` | `userId` "constructor" passes the user check with no such user, so a free slot gets a holder that is not a user | accept own keys only | high; not executed | `AmenityRoutes.InheritedNameClaimsSlot` | `AmenityRoutes.ClaimKeepsWellFormed` |

The rest of the model uses the corrected user check. `Store.FileStore.SeedDb` and
`Store.FileStore.WriteKey` keep the written behaviour, so that the seeded dataset
and the `emptyDb` alias can be stated. `Store.FileStore.WriteKeyCopy` and
`SeedData.IntendedSeedDatabase` are the corrected versions.
