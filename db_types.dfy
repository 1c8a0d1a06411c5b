/**
 * The persisted data model of src/db.ts: users, amenities that own an ordered
 * sequence of time slots, bookings, and the three-collection `Database`
 * document. Timestamps are whole hours counted from midnight of the day the
 * slots were generated; collections are maps from id strings to records.
 */
module DbTypes {

  datatype Option<T> = None | Some(value: T)

  /** JavaScript truthiness of an optional string: absent, null and "" are falsy. */
  predicate Truthy(s: Option<string>) {
    s.Some? && s.value != ""
  }

  datatype User = User(id: string, name: string, email: string, apartmentNumber: string)

  /** `bookedBy` is the holder: `None` stands for JSON null (unbooked). */
  datatype TimeSlot = TimeSlot(id: string, startTime: int, endTime: int, bookedBy: Option<string>)

  datatype Amenity = Amenity(
    id: string,
    name: string,
    description: string,
    location: string,
    maxDurationHours: int,
    timeSlots: seq<TimeSlot>)

  datatype Booking = Booking(
    id: string,
    userId: string,
    amenityId: string,
    timeSlotId: string,
    createdAt: int,
    additionalInfo: Option<string>)

  datatype Database = Database(
    users: map<string, User>,
    amenities: map<string, Amenity>,
    bookings: map<string, Booking>)

  /** The value of the `emptyDb` constant. */
  const EmptyDatabase := Database(map[], map[], map[])

  /** The `keyof Database` argument of `readKey` and `writeKey`. */
  datatype Key = UsersKey | AmenitiesKey | BookingsKey

  /** One top-level collection, tagged by the key it is stored under. */
  datatype Collection =
    | UsersCol(users: map<string, User>)
    | AmenitiesCol(amenities: map<string, Amenity>)
    | BookingsCol(bookings: map<string, Booking>)
  {
    function Key(): Key {
      match this
      case UsersCol(_) => UsersKey
      case AmenitiesCol(_) => AmenitiesKey
      case BookingsCol(_) => BookingsKey
    }
  }

  /** `db[key]`: the collection stored under `key`. */
  function Get(db: Database, key: Key): (c: Collection)
    ensures c.Key() == key
  {
    match key
    case UsersKey => UsersCol(db.users)
    case AmenitiesKey => AmenitiesCol(db.amenities)
    case BookingsKey => BookingsCol(db.bookings)
  }

  /** `db[key] = value`: replaces the one collection `c` is tagged with. */
  function Put(db: Database, c: Collection): (r: Database)
    ensures Get(r, c.Key()) == c
    ensures forall k :: k != c.Key() ==> Get(r, k) == Get(db, k)
  {
    match c
    case UsersCol(u) => db.(users := u)
    case AmenitiesCol(a) => db.(amenities := a)
    case BookingsCol(b) => db.(bookings := b)
  }

  /** Writing back the collection just read leaves the document as it was. */
  lemma PutOwnCollection(db: Database, k: Key)
    ensures Put(db, Get(db, k)) == db
  {
  }

  /** The slots after `slots[i].bookedBy = holder`. */
  function WithHolder(slots: seq<TimeSlot>, i: nat, holder: string): (r: seq<TimeSlot>)
    requires i < |slots|
    ensures |r| == |slots|
    ensures r[i].id == slots[i].id && r[i].startTime == slots[i].startTime && r[i].endTime == slots[i].endTime
    ensures r[i].bookedBy == Some(holder)
    ensures forall j :: 0 <= j < |slots| && j != i ==> r[j] == slots[j]
  {
    slots[i := slots[i].(bookedBy := Some(holder))]
  }

  /** A slot whose holder is truthy counts as booked. */
  predicate IsHeld(slot: TimeSlot) {
    Truthy(slot.bookedBy)
  }

  // Invariants of a stored dataset

  /** Every slot that has a holder is held by an existing user. */
  ghost predicate HoldersKnown(db: Database) {
    forall k, i ::
      k in db.amenities && 0 <= i < |db.amenities[k].timeSlots| && db.amenities[k].timeSlots[i].bookedBy.Some?
      ==> db.amenities[k].timeSlots[i].bookedBy.value in db.users
  }

  /** No two slots of the same amenity share an id. */
  ghost predicate SlotIdsUnique(db: Database) {
    forall k, i, j :: k in db.amenities && 0 <= i < j < |db.amenities[k].timeSlots| ==>
      db.amenities[k].timeSlots[i].id != db.amenities[k].timeSlots[j].id
  }

  /** Every slot starts before it ends. */
  ghost predicate SlotsNonEmpty(db: Database) {
    forall k, i :: k in db.amenities && 0 <= i < |db.amenities[k].timeSlots| ==>
      db.amenities[k].timeSlots[i].startTime < db.amenities[k].timeSlots[i].endTime
  }

  ghost predicate WellFormed(db: Database) {
    HoldersKnown(db) && SlotIdsUnique(db) && SlotsNonEmpty(db)
  }
}
