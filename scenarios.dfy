/**
 * End-to-end runs over the store: seed, then claim through the handler.
 * Every amenity's ladder uses the same slot ids, so an id picks a slot only
 * together with the amenity it is claimed under.
 */
module Scenarios {
  import opened DbTypes
  import opened TimeSlots
  import opened SeedData
  import opened Store
  import opened AmenityRoutes

  /** A request with every field present. */
  function Claim(amenity: SafeInteger, user: string, slotId: string): ClaimRequest {
    ClaimRequest(Number(amenity), Some(user), Some(slotId))
  }

  /** In slots carrying a ladder's ids in order, looking up the id of position `k` finds position `k`. */
  lemma LadderIndex(slots: seq<TimeSlot>, today: Weekday, duration: int, k: nat)
    requires |slots| == 9 && k < 9
    requires forall j :: 0 <= j < 9 ==> slots[j].id == Ladder(today, duration)[j].id
    ensures FindIndex(slots, Ladder(today, duration)[k].id) == k
  {
    LadderIdsDistinct(today, duration);
  }

  /** A known user claiming a slot of an amenity that owns a free generated ladder gets that slot. */
  lemma ClaimFreeLadderSlot(db: Database, n: SafeInteger, user: string, today: Weekday, duration: int, k: nat)
    requires n != 0 && user != "" && user in db.users && k < 9
    requires AmenityKey(n) in db.amenities && db.amenities[AmenityKey(n)].timeSlots == Ladder(today, duration)
    ensures Respond(db, Claim(n, user, Ladder(today, duration)[k].id))
         == Created(Ladder(today, duration)[k].(bookedBy := Some(user)))
  {
    var slots, req := Ladder(today, duration), Claim(n, user, Ladder(today, duration)[k].id);
    LadderAtDecode(today, duration, k);
    LadderIndex(slots, today, duration, k);
    assert slots[k] == LadderAt(today, duration, k);
    assert !FieldsMissing(req);
    assert Check(db, req) == Accept(AmenityKey(n), k);
  }

  /** A slot of a generated ladder that `holder` holds is refused to `holder` (404) and to everyone else (409). */
  lemma ClaimHeldLadderSlot(db: Database, n: SafeInteger, user: string, today: Weekday, duration: int, k: nat, holder: string)
    requires n != 0 && user != "" && user in db.users && k < 9 && holder != ""
    requires AmenityKey(n) in db.amenities
    requires |db.amenities[AmenityKey(n)].timeSlots| == 9
    requires forall j :: 0 <= j < 9 ==> db.amenities[AmenityKey(n)].timeSlots[j].id == Ladder(today, duration)[j].id
    requires db.amenities[AmenityKey(n)].timeSlots[k].bookedBy == Some(holder)
    ensures Respond(db, Claim(n, user, Ladder(today, duration)[k].id))
         == (if user == holder then AlreadyBookedBySelf else BookedByAnother)
  {
    LadderAtDecode(today, duration, k);
    LadderIndex(db.amenities[AmenityKey(n)].timeSlots, today, duration, k);
    HeldSlotRejected(db, Claim(n, user, Ladder(today, duration)[k].id), k);
  }

  /** What the scenarios need of the seeded dataset. */
  lemma SeededSlots(today: Weekday, t1: int, t2: int)
    ensures var db := SeedDatabase(today, t1, t2);
      && "1" in db.amenities && "2" in db.amenities
      && "2" in db.users && "3" in db.users && "4" in db.users
      && db.amenities["2"].timeSlots == Ladder(today, 1)
      && |db.amenities["1"].timeSlots| == 9
      && (forall j :: 0 <= j < 9 ==> db.amenities["1"].timeSlots[j].id == Ladder(today, 2)[j].id)
      && db.amenities["1"].timeSlots[PoolSlotIndex].bookedBy == Some("2")
  {
    SeedShape(today, t1, t2);
    SeedPoolSlotOverwritten(today, t1, t2);
  }

  /**
   * After seeding, the pool's 1 PM slot is already held by "2" (the second
   * seed booking lands there), so neither "2" nor "3" can claim it.
   */
  method SeedThenClaimPoolSlot(today: Weekday, t1: int, t2: int) returns (byHolder: Response, byOther: Response)
    ensures byHolder == AlreadyBookedBySelf && byHolder.Status() == 404
    ensures byOther == BookedByAnother && byOther.Status() == 409
  {
    var store := new FileStore(None);
    store.SeedDb(today, t1, t2);
    byHolder, byOther := ClaimSeededPoolSlot(store, today, t1, t2);
  }

  /** On a store holding the seeded dataset, "2" and then "3" claim the pool's 1 PM slot. */
  method ClaimSeededPoolSlot(store: FileStore, today: Weekday, t1: int, t2: int) returns (byHolder: Response, byOther: Response)
    requires store.file == Some(SeedDatabase(today, t1, t2))
    modifies store`file, store.emptyDb
    ensures byHolder == AlreadyBookedBySelf && byOther == BookedByAnother
    ensures store.file == old(store.file)
  {
    var slotId := Ladder(today, 2)[PoolSlotIndex].id;
    SeededPoolSlotRefused(today, t1, t2);
    byHolder, byOther := ClaimHeldTwice(store, Claim(1, "2", slotId), Claim(1, "3", slotId));
  }

  /** Through the handler: two claims the loaded dataset refuses as held, which leave the file alone. */
  method ClaimHeldTwice(store: FileStore, byHolderReq: ClaimRequest, byOtherReq: ClaimRequest)
    returns (byHolder: Response, byOther: Response)
    requires store.file.Some?
    requires Respond(store.file.value, byHolderReq) == AlreadyBookedBySelf
    requires Respond(store.file.value, byOtherReq) == BookedByAnother
    modifies store`file, store.emptyDb
    ensures byHolder == AlreadyBookedBySelf && byOther == BookedByAnother
    ensures store.file == old(store.file)
  {
    byHolder := ClaimSlot(store, byHolderReq);
    byOther := ClaimSlot(store, byOtherReq);
  }

  /** On the seeded dataset the pool's 1 PM slot is refused to "2" (its holder) and to "3". */
  lemma SeededPoolSlotRefused(today: Weekday, t1: int, t2: int)
    ensures var db, slotId := SeedDatabase(today, t1, t2), Ladder(today, 2)[PoolSlotIndex].id;
      && Respond(db, Claim(1, "2", slotId)) == AlreadyBookedBySelf
      && Respond(db, Claim(1, "3", slotId)) == BookedByAnother
  {
    SeededSlots(today, t1, t2);
    assert AmenityKey(1) == "1";
    ClaimHeldLadderSlot(SeedDatabase(today, t1, t2), 1, "2", today, 2, PoolSlotIndex, "2");
    ClaimHeldLadderSlot(SeedDatabase(today, t1, t2), 1, "3", today, 2, PoolSlotIndex, "2");
  }

  /** On the seeded dataset "3" can claim the gym's 5 PM slot, and "4" is a known user. */
  lemma SeededGymSlotClaimable(today: Weekday, t1: int, t2: int)
    ensures var db, slotId := SeedDatabase(today, t1, t2), Ladder(today, 1)[GymSlotIndex].id;
      && Respond(db, Claim(2, "3", slotId)) == Created(Ladder(today, 1)[GymSlotIndex].(bookedBy := Some("3")))
      && "4" in db.users
  {
    SeededSlots(today, t1, t2);
    assert AmenityKey(2) == "2";
    ClaimFreeLadderSlot(SeedDatabase(today, t1, t2), 2, "3", today, 1, GymSlotIndex);
  }

  /**
   * The gym's 5 PM slot is free after seeding although booking "2" names it:
   * "3" claims it, then "3" again gets 404 and "4" gets 409.
   */
  method SeedThenClaimGymSlot(today: Weekday, t1: int, t2: int) returns (first: Response, again: Response, other: Response)
    ensures first.Created? && first.Status() == 201
    ensures first.slot == Ladder(today, 1)[GymSlotIndex].(bookedBy := Some("3"))
    ensures again == AlreadyBookedBySelf && other == BookedByAnother
  {
    var store := new FileStore(None);
    store.SeedDb(today, t1, t2);
    first, again, other := ClaimSeededGymSlot(store, today, t1, t2);
  }

  /** On a store holding the seeded dataset, "3" claims the gym's 5 PM slot, then "3" and "4" try again. */
  method ClaimSeededGymSlot(store: FileStore, today: Weekday, t1: int, t2: int)
    returns (first: Response, again: Response, other: Response)
    requires store.file == Some(SeedDatabase(today, t1, t2))
    modifies store`file, store.emptyDb
    ensures first == Created(Ladder(today, 1)[GymSlotIndex].(bookedBy := Some("3")))
    ensures again == AlreadyBookedBySelf && other == BookedByAnother
  {
    var req := Claim(2, "3", Ladder(today, 1)[GymSlotIndex].id);
    SeededGymSlotClaimable(today, t1, t2);
    first, again, other := ClaimThenReclaim(store, req, "4");
  }

  /**
   * Through the handler: a claim that succeeds, then the same request again
   * and the same request by another known user.
   */
  method ClaimThenReclaim(store: FileStore, req: ClaimRequest, otherUser: string)
    returns (first: Response, again: Response, other: Response)
    requires store.file.Some? && Respond(store.file.value, req).Created?
    requires otherUser in store.file.value.users && Some(otherUser) != req.userId && otherUser != ""
    modifies store`file, store.emptyDb
    ensures first == Respond(old(store.file.value), req)
    ensures again == AlreadyBookedBySelf && other == BookedByAnother
    ensures store.file == Some(After(old(store.file.value), req))
  {
    var db := store.file.value;
    first := ClaimSlot(store, req);
    again, other := ReclaimRejected(store, db, req, otherUser);
  }

  /**
   * Through the handler: after a successful claim, the same request again is
   * answered 404 and the same request by another known user 409, and the
   * stored dataset stays as the first claim left it.
   */
  method ReclaimRejected(store: FileStore, db: Database, req: ClaimRequest, otherUser: string)
    returns (again: Response, other: Response)
    requires Respond(db, req).Created? && store.file == Some(After(db, req))
    requires otherUser in db.users && Some(otherUser) != req.userId && otherUser != ""
    modifies store`file, store.emptyDb
    ensures again == AlreadyBookedBySelf && other == BookedByAnother
    ensures store.file == Some(After(db, req))
  {
    ClaimOnlyOnce(db, req, req);
    ClaimOnlyOnce(db, req, req.(userId := Some(otherUser)));
    again := ClaimSlot(store, req);
    other := ClaimSlot(store, req.(userId := Some(otherUser)));
  }

  /** Omitting the slot id is answered with 400 and writes nothing. */
  method ClaimWithoutSlotId(today: Weekday, t1: int, t2: int) returns (r: Response, after: Option<Database>)
    ensures r == MissingFields && r.Status() == 400
    ensures after == Some(SeedDatabase(today, t1, t2))
  {
    var store := new FileStore(None);
    store.SeedDb(today, t1, t2);
    r := ClaimSlot(store, ClaimRequest(Number(1), Some("3"), None));
    after := store.file;
  }
}
