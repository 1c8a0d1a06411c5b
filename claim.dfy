/**
 * The claim handler `POST /amenities/:id` of src/routes/amenities.ts: read the
 * users and amenities, run the checks in their fixed order, and on success
 * mark one time slot as held by the requesting user and write the amenities
 * back. `Check` is the decision as a function of the loaded dataset;
 * `ClaimSlot` is the handler over the store.
 */
module AmenityRoutes {
  import opened DbTypes
  import NumberText
  import opened Store

  /**
   * Integral values of magnitude at most 2^53. For these `String(n)` writes
   * every decimal digit; above 2^53 it writes the shortest digits that round
   * back to the same double, which `IntToString` does not model.
   */
  type SafeInteger = v: int | -0x20_0000_0000_0000 <= v <= 0x20_0000_0000_0000

  /** `Number(req.params.id)`: not a number, or an integral value of magnitude at most 2^53. */
  datatype AmenityParam = NotANumber | Number(value: SafeInteger)

  /** The route parameter and the two body fields; `None` is an absent or null field. */
  datatype ClaimRequest = ClaimRequest(amenityId: AmenityParam, userId: Option<string>, timeSlotId: Option<string>)

  /** The handler's single response. */
  datatype Response =
    | MissingFields
    | UserNotFound
    | AmenityNotFound
    | TimeSlotNotFound
    | AlreadyBookedBySelf
    | BookedByAnother
    | Created(slot: TimeSlot)
  {
    function Status(): int {
      match this
      case MissingFields => 400
      case Created(_) => 201
      case BookedByAnother => 409
      case _ => 404
    }

    function Error(): string
      requires !Created?
    {
      match this
      case MissingFields => "Missing required fields"
      case UserNotFound => "User not found"
      case AmenityNotFound => "Amenity not found"
      case TimeSlotNotFound => "Time slot not found"
      case AlreadyBookedBySelf => "Time slot is already booked"
      case BookedByAnother => "Another member has already booked this slot"
    }
  }

  /** The parsed id is truthy: neither NaN nor 0. */
  predicate ParamTruthy(p: AmenityParam) {
    p.Number? && p.value != 0
  }

  predicate FieldsMissing(req: ClaimRequest) {
    !Truthy(req.userId) || !ParamTruthy(req.amenityId) || !Truthy(req.timeSlotId)
  }

  /** The property name `amenities[amenityId]` looks up: the number's decimal string. */
  function AmenityKey(n: int): string {
    NumberText.IntToString(n)
  }

  /** `slots.findIndex(slot => slot.id === id)`: the first matching index, or -1. */
  function FindIndex(slots: seq<TimeSlot>, id: string): (i: int)
    ensures -1 <= i < |slots|
    ensures i == -1 <==> forall j :: 0 <= j < |slots| ==> slots[j].id != id
    ensures 0 <= i ==> slots[i].id == id && forall j :: 0 <= j < i ==> slots[j].id != id
    decreases |slots|
  {
    if slots == [] then -1
    else if slots[0].id == id then 0
    else
      var k := FindIndex(slots[1..], id);
      if k == -1 then -1 else k + 1
  }

  /** Outcome of the checks: a rejection, or the amenity key and slot index to claim. */
  datatype Verdict = Reject(response: Response) | Accept(key: string, index: nat)

  /**
   * The ordered checks of the handler on a loaded dataset: missing fields,
   * unknown user, unknown amenity, unknown slot, slot already held.
   */
  function Check(db: Database, req: ClaimRequest): (v: Verdict)
    ensures v.Reject? ==> !v.response.Created?
    ensures v.Accept? <==>
      && !FieldsMissing(req)
      && req.userId.value in db.users
      && AmenityKey(req.amenityId.value) in db.amenities
      && FindIndex(db.amenities[AmenityKey(req.amenityId.value)].timeSlots, req.timeSlotId.value) >= 0
      && !IsHeld(db.amenities[AmenityKey(req.amenityId.value)].timeSlots[
           FindIndex(db.amenities[AmenityKey(req.amenityId.value)].timeSlots, req.timeSlotId.value)])
    ensures v.Accept? ==>
      && v.key == AmenityKey(req.amenityId.value) && v.key in db.amenities
      && v.index < |db.amenities[v.key].timeSlots|
      && db.amenities[v.key].timeSlots[v.index].id == req.timeSlotId.value
      && (forall j :: 0 <= j < v.index ==> db.amenities[v.key].timeSlots[j].id != req.timeSlotId.value)
  {
    if FieldsMissing(req) then Reject(MissingFields)
    else if req.userId.value !in db.users then Reject(UserNotFound)
    else CheckSlot(db, req)
  }

  /** The checks after the user check: unknown amenity, unknown slot, slot already held. */
  function CheckSlot(db: Database, req: ClaimRequest): Verdict
    requires !FieldsMissing(req)
  {
    var userId, key, timeSlotId := req.userId.value, AmenityKey(req.amenityId.value), req.timeSlotId.value;
    if key !in db.amenities then Reject(AmenityNotFound)
    else
      var i := FindIndex(db.amenities[key].timeSlots, timeSlotId);
      if i == -1 then Reject(TimeSlotNotFound)
      else
        var holder := db.amenities[key].timeSlots[i].bookedBy;
        if Truthy(holder) then
          if holder.value == userId then Reject(AlreadyBookedBySelf) else Reject(BookedByAnother)
        else Accept(key, i)
  }

  /** The dataset with slot `i` of amenity `key` held by `userId`. */
  function Claimed(db: Database, key: string, i: nat, userId: string): Database
    requires key in db.amenities && i < |db.amenities[key].timeSlots|
  {
    var amenity := db.amenities[key];
    db.(amenities := db.amenities[key := amenity.(timeSlots := WithHolder(amenity.timeSlots, i, userId))])
  }

  /** The dataset after the request: only an accepted claim changes it. */
  function After(db: Database, req: ClaimRequest): Database {
    match Check(db, req)
    case Reject(_) => db
    case Accept(key, i) => Claimed(db, key, i, req.userId.value)
  }

  /** The response to the request. */
  function Respond(db: Database, req: ClaimRequest): Response {
    match Check(db, req)
    case Reject(response) => response
    case Accept(key, i) => Created(After(db, req).amenities[key].timeSlots[i])
  }

  /**
   * The handler. A rejection returns before anything is written; a success
   * writes back the amenities with the one slot updated.
   */
  method ClaimSlot(store: FileStore, req: ClaimRequest) returns (r: Response)
    modifies store`file, store.emptyDb
    ensures r == Respond(old(store.Loaded()), req)
    ensures r.Created? ==> store.file == Some(After(old(store.Loaded()), req))
    ensures !r.Created? ==> store.file == old(store.file) && unchanged(store.emptyDb)
    ensures old(store.file).Some? ==> unchanged(store.emptyDb)
    ensures old(store.file).None? && r.Created? ==> store.emptyDb.Value() == After(old(store.Loaded()), req)
  {
    var usersCol := store.ReadKey(UsersKey);
    var amenitiesCol := store.ReadKey(AmenitiesKey);
    var users := usersCol.users;
    var amenities := amenitiesCol.amenities;
    if FieldsMissing(req) {
      return MissingFields;
    }
    var userId, amenityKey, timeSlotId := req.userId.value, AmenityKey(req.amenityId.value), req.timeSlotId.value;
    if userId !in users {
      return UserNotFound;
    }
    if amenityKey !in amenities {
      return AmenityNotFound;
    }
    var timeSlotIndex := FindIndex(amenities[amenityKey].timeSlots, timeSlotId);
    if timeSlotIndex == -1 {
      return TimeSlotNotFound;
    }
    var bookedUserId := amenities[amenityKey].timeSlots[timeSlotIndex].bookedBy;
    if Truthy(bookedUserId) {
      if bookedUserId.value == userId {
        return AlreadyBookedBySelf;
      }
      return BookedByAnother;
    }
    var amenity := amenities[amenityKey];
    amenities := amenities[amenityKey := amenity.(timeSlots := WithHolder(amenity.timeSlots, timeSlotIndex, userId))];
    store.WriteKey(AmenitiesCol(amenities));
    r := Created(amenities[amenityKey].timeSlots[timeSlotIndex]);
  }

  // Properties of the decision

  /** A request with a falsy field is rejected with 400 whatever the dataset holds. */
  lemma MissingFieldsComeFirst(db: Database, req: ClaimRequest)
    requires FieldsMissing(req)
    ensures Respond(db, req) == MissingFields && Respond(db, req).Status() == 400
    ensures After(db, req) == db
  {
  }

  /** An unknown user is rejected with 404 whatever amenities and slots the dataset holds. */
  lemma UnknownUserRejected(db: Database, req: ClaimRequest)
    requires !FieldsMissing(req) && req.userId.value !in db.users
    ensures Respond(db, req) == UserNotFound && Respond(db, req).Status() == 404
    ensures After(db, req) == db
  {
  }

  /** A known user naming an amenity id that is not stored is rejected with 404. */
  lemma UnknownAmenityRejected(db: Database, req: ClaimRequest)
    requires !FieldsMissing(req) && req.userId.value in db.users
    requires AmenityKey(req.amenityId.value) !in db.amenities
    ensures Respond(db, req) == AmenityNotFound && Respond(db, req).Status() == 404
  {
  }

  /**
   * Slots are looked up in the named amenity only: a slot id that exists
   * under another amenity but not under this one is not found.
   */
  lemma ForeignSlotNotFound(db: Database, req: ClaimRequest, other: string, j: nat)
    requires !FieldsMissing(req) && req.userId.value in db.users
    requires AmenityKey(req.amenityId.value) in db.amenities
    requires other in db.amenities && j < |db.amenities[other].timeSlots|
    requires db.amenities[other].timeSlots[j].id == req.timeSlotId.value
    requires forall i :: 0 <= i < |db.amenities[AmenityKey(req.amenityId.value)].timeSlots| ==>
      db.amenities[AmenityKey(req.amenityId.value)].timeSlots[i].id != req.timeSlotId.value
    ensures other != AmenityKey(req.amenityId.value)
    ensures Respond(db, req) == TimeSlotNotFound && After(db, req) == db
  {
  }

  /** A slot already held is refused: 404 for its own holder, 409 for anyone else. */
  lemma HeldSlotRejected(db: Database, req: ClaimRequest, i: nat)
    requires !FieldsMissing(req) && req.userId.value in db.users
    requires AmenityKey(req.amenityId.value) in db.amenities
    requires i == FindIndex(db.amenities[AmenityKey(req.amenityId.value)].timeSlots, req.timeSlotId.value)
    requires IsHeld(db.amenities[AmenityKey(req.amenityId.value)].timeSlots[i])
    ensures var holder := db.amenities[AmenityKey(req.amenityId.value)].timeSlots[i].bookedBy.value;
      Respond(db, req) == (if holder == req.userId.value then AlreadyBookedBySelf else BookedByAnother)
    ensures Respond(db, req).Status() == (if Respond(db, req) == AlreadyBookedBySelf then 404 else 409)
    ensures After(db, req) == db
  {
  }

  /**
   * A success changes exactly one slot: the first slot of the named amenity
   * with the requested id, which was free, becomes held by the requester and
   * is returned with 201. Users, bookings, the other amenities, the other
   * slots and the slot's own id and times are as they were.
   */
  lemma ClaimChangesOneSlot(db: Database, req: ClaimRequest)
    requires Respond(db, req).Created?
    ensures var key, u := AmenityKey(req.amenityId.value), req.userId.value;
      var db' := After(db, req);
      && key in db.amenities && u in db.users
      && var i := FindIndex(db.amenities[key].timeSlots, req.timeSlotId.value);
      && var slots, slots' := db.amenities[key].timeSlots, db'.amenities[key].timeSlots;
      && 0 <= i < |slots| && !IsHeld(slots[i])
      && db'.users == db.users && db'.bookings == db.bookings
      && db'.amenities.Keys == db.amenities.Keys
      && (forall k :: k in db.amenities && k != key ==> db'.amenities[k] == db.amenities[k])
      && db'.amenities[key].(timeSlots := []) == db.amenities[key].(timeSlots := [])
      && |slots'| == |slots|
      && (forall j :: 0 <= j < |slots| && j != i ==> slots'[j] == slots[j])
      && slots'[i] == slots[i].(bookedBy := Some(u))
      && Respond(db, req) == Created(slots'[i]) && Respond(db, req).Status() == 201
  {
  }

  /** `FindIndex` reads only ids, so changing a holder does not move it. */
  lemma FindIndexIgnoresHolders(slots: seq<TimeSlot>, i: nat, holder: string, id: string)
    requires i < |slots|
    ensures FindIndex(WithHolder(slots, i, holder), id) == FindIndex(slots, id)
  {
  }

  /**
   * Once claimed, a slot can never be claimed again: with no booking record
   * created, the same request by the same user gets 404 and by any other
   * known user 409, and neither changes the dataset.
   */
  lemma ClaimOnlyOnce(db: Database, req: ClaimRequest, again: ClaimRequest)
    requires Respond(db, req).Created?
    requires again.amenityId == req.amenityId && again.timeSlotId == req.timeSlotId
    requires Truthy(again.userId) && again.userId.value in db.users
    ensures After(db, req).bookings == db.bookings
    ensures Respond(After(db, req), again) ==
      (if again.userId == req.userId then AlreadyBookedBySelf else BookedByAnother)
    ensures After(After(db, req), again) == After(db, req)
  {
    var key := AmenityKey(req.amenityId.value);
    var slots := db.amenities[key].timeSlots;
    var i := FindIndex(slots, req.timeSlotId.value);
    FindIndexIgnoresHolders(slots, i, req.userId.value, req.timeSlotId.value);
  }

  /** Giving one slot to a known user keeps the dataset invariants. */
  lemma ClaimedKeepsWellFormed(db: Database, key: string, i: nat, userId: string)
    requires WellFormed(db) && userId in db.users
    requires key in db.amenities && i < |db.amenities[key].timeSlots|
    ensures WellFormed(Claimed(db, key, i, userId))
  {
    var db' := Claimed(db, key, i, userId);
    assert forall k, j :: k in db'.amenities && 0 <= j < |db'.amenities[k].timeSlots| ==>
      && db'.amenities[k].timeSlots[j].id == db.amenities[k].timeSlots[j].id
      && db'.amenities[k].timeSlots[j].startTime == db.amenities[k].timeSlots[j].startTime
      && db'.amenities[k].timeSlots[j].endTime == db.amenities[k].timeSlots[j].endTime;
  }

  /** A claim keeps the dataset invariants: holders are known users, ids unique, start < end. */
  lemma ClaimKeepsWellFormed(db: Database, req: ClaimRequest)
    requires WellFormed(db)
    ensures WellFormed(After(db, req))
  {
    match Check(db, req)
    case Reject(_) =>
    case Accept(key, i) => ClaimedKeepsWellFormed(db, key, i, req.userId.value);
  }

  /** A slot with a holder keeps it: no request releases or reassigns a held slot. */
  lemma HoldersNeverReleased(db: Database, req: ClaimRequest, key: string, j: nat)
    requires key in db.amenities && j < |db.amenities[key].timeSlots|
    requires IsHeld(db.amenities[key].timeSlots[j])
    ensures key in After(db, req).amenities && j < |After(db, req).amenities[key].timeSlots|
    ensures After(db, req).amenities[key].timeSlots[j] == db.amenities[key].timeSlots[j]
  {
  }

  // The user lookup as the code writes it

  /** Property names every plain JavaScript object inherits from `Object.prototype`. */
  const InheritedMembers: set<string> := {
    "constructor", "__proto__", "hasOwnProperty", "isPrototypeOf", "propertyIsEnumerable",
    "toString", "toLocaleString", "valueOf",
    "__defineGetter__", "__defineSetter__", "__lookupGetter__", "__lookupSetter__"
  }

  /** `!users[userId]` is false, so the user check passes, for own keys and inherited members alike. */
  predicate UserLookupAsWritten(users: map<string, User>, id: string) {
    id in users || id in InheritedMembers
  }

  /**
   * The guard as written lets "constructor" through on a dataset with no such
   * user; `Check`, which tests own keys, rejects the same request.
   */
  lemma InheritedNamePassesUserCheck(db: Database, req: ClaimRequest)
    requires req.userId == Some("constructor") && !FieldsMissing(req)
    requires forall id :: id in db.users ==> id !in InheritedMembers
    ensures UserLookupAsWritten(db.users, req.userId.value)
    ensures req.userId.value !in db.users
    ensures Respond(db, req) == UserNotFound
  {
  }

  /** The ordered checks with the user lookup as written: inherited member names pass it too. */
  function CheckAsWritten(db: Database, req: ClaimRequest): (v: Verdict)
    ensures FieldsMissing(req) || req.userId.value in db.users || req.userId.value !in InheritedMembers
      ==> v == Check(db, req)
  {
    if FieldsMissing(req) then Reject(MissingFields)
    else if !UserLookupAsWritten(db.users, req.userId.value) then Reject(UserNotFound)
    else CheckSlot(db, req)
  }

  /** The dataset after the request, with the user lookup as written. */
  function AfterAsWritten(db: Database, req: ClaimRequest): Database {
    match CheckAsWritten(db, req)
    case Reject(_) => db
    case Accept(key, i) => Claimed(db, key, i, req.userId.value)
  }

  /**
   * With the lookup as written, "constructor" claims a free slot of a
   * well-formed dataset that has no such user, and the slot's holder is then
   * no user at all; `Check` rejects the same request and changes nothing.
   */
  lemma InheritedNameClaimsSlot(db: Database, req: ClaimRequest)
    requires WellFormed(db) && "constructor" !in db.users
    requires req.userId == Some("constructor") && !FieldsMissing(req)
    requires AmenityKey(req.amenityId.value) in db.amenities
    requires FindIndex(db.amenities[AmenityKey(req.amenityId.value)].timeSlots, req.timeSlotId.value) >= 0
    requires !IsHeld(db.amenities[AmenityKey(req.amenityId.value)].timeSlots[
               FindIndex(db.amenities[AmenityKey(req.amenityId.value)].timeSlots, req.timeSlotId.value)])
    ensures Check(db, req) == Reject(UserNotFound) && After(db, req) == db
    ensures CheckAsWritten(db, req).Accept?
    ensures !HoldersKnown(AfterAsWritten(db, req))
  {
    var key := AmenityKey(req.amenityId.value);
    var i := FindIndex(db.amenities[key].timeSlots, req.timeSlotId.value);
    var db' := AfterAsWritten(db, req);
    assert CheckAsWritten(db, req) == Accept(key, i);
    assert db'.amenities[key].timeSlots[i].bookedBy == Some("constructor");
  }
}
