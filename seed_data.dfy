/**
 * The dataset `seedDb` in src/db.ts writes: four users, four amenities each
 * owning `generateTimeSlots(maxDurationHours)`, and two demonstration
 * bookings. `SeedDatabase` is the dataset as the code builds it, where the
 * second booking step marks the pool slot instead of the gym slot;
 * `IntendedSeedDatabase` is the dataset the bookings describe.
 */
module SeedData {
  import opened DbTypes
  import opened TimeSlots

  function SeedUsers(): map<string, User> {
    map[
      "1" := User("1", "John Doe", "john.doe@example.com", "101"),
      "2" := User("2", "Jane Smith", "jane.smith@example.com", "202"),
      "3" := User("3", "Robert Johnson", "robert.johnson@example.com", "303"),
      "4" := User("4", "Lisa Chen", "lisa.chen@example.com", "404")
    ]
  }

  /** The four amenities owning the given slot sequences, before any slot is booked. */
  function SeedAmenitiesFrom(pool: seq<TimeSlot>, gym: seq<TimeSlot>, room: seq<TimeSlot>, lounge: seq<TimeSlot>)
    : map<string, Amenity>
  {
    map[
      "1" := Amenity("1", "Swimming Pool", "Olympic-sized swimming pool with lounge area",
                     "Ground Floor", 2, pool),
      "2" := Amenity("2", "Fitness Center", "Fully equipped gym with cardio and weight training equipment",
                     "Second Floor", 1, gym),
      "3" := Amenity("3", "Conference Room", "Meeting room with presentation equipment",
                     "Third Floor", 3, room),
      "4" := Amenity("4", "Rooftop Lounge", "Outdoor lounge area with BBQ equipment",
                     "Rooftop", 4, lounge)
    ]
  }

  /** Each amenity owns `generateTimeSlots(maxDurationHours)`. */
  function SeedAmenities(today: Weekday): map<string, Amenity> {
    SeedAmenitiesFrom(Ladder(today, 2), Ladder(today, 1), Ladder(today, 3), Ladder(today, 4))
  }

  /** Index of the pool slot booked by booking "1" (the 1 PM slot of today). */
  const PoolSlotIndex: nat := 1
  /** Index of the gym slot booking "2" refers to (the 5 PM slot of today). */
  const GymSlotIndex: nat := 2

  function SeedBookings(today: Weekday, firstBookedAt: int, secondBookedAt: int): map<string, Booking> {
    map[
      "1" := Booking("1", "1", "1", Ladder(today, 2)[PoolSlotIndex].id, firstBookedAt,
                     Some("Swimming party with family")),
      "2" := Booking("2", "2", "2", Ladder(today, 1)[GymSlotIndex].id, secondBookedAt,
                     Some("Personal training session"))
    ]
  }

  /** The amenities with pool slot `PoolSlotIndex` held by `holder`. */
  function WithPoolHolder(amenities: map<string, Amenity>, holder: string): map<string, Amenity>
    requires "1" in amenities && PoolSlotIndex < |amenities["1"].timeSlots|
  {
    amenities["1" := amenities["1"].(timeSlots := WithHolder(amenities["1"].timeSlots, PoolSlotIndex, holder))]
  }

  /** Marking the pool slot twice leaves only the second holder. */
  lemma PoolHolderOverwrite(amenities: map<string, Amenity>, first: string, second: string)
    requires "1" in amenities && PoolSlotIndex < |amenities["1"].timeSlots|
    ensures WithPoolHolder(WithPoolHolder(amenities, first), second) == WithPoolHolder(amenities, second)
  {
    var slots := amenities["1"].timeSlots;
    assert WithHolder(WithHolder(slots, PoolSlotIndex, first), PoolSlotIndex, second)
        == WithHolder(slots, PoolSlotIndex, second);
  }

  /** What `seedDb` writes: the pool slot ends up held by "2", the gym slot stays free. */
  function SeedDatabase(today: Weekday, firstBookedAt: int, secondBookedAt: int): Database {
    Database(SeedUsers(), WithPoolHolder(SeedAmenities(today), "2"), SeedBookings(today, firstBookedAt, secondBookedAt))
  }

  /** What the two bookings describe: pool slot held by "1", gym slot held by "2". */
  function IntendedSeedDatabase(today: Weekday, firstBookedAt: int, secondBookedAt: int): Database {
    var pooled := WithPoolHolder(SeedAmenities(today), "1");
    var gym := pooled["2"];
    Database(SeedUsers(),
             pooled["2" := gym.(timeSlots := WithHolder(gym.timeSlots, GymSlotIndex, "2"))],
             SeedBookings(today, firstBookedAt, secondBookedAt))
  }

  /** The slot a booking names exists and is held by the booking's user. */
  ghost predicate BookingHeld(db: Database, b: Booking) {
    && b.amenityId in db.amenities
    && exists i :: 0 <= i < |db.amenities[b.amenityId].timeSlots| &&
         db.amenities[b.amenityId].timeSlots[i].id == b.timeSlotId &&
         db.amenities[b.amenityId].timeSlots[i].bookedBy == Some(b.userId)
  }

  /** Every booking record is mirrored by the holder of the slot it names. */
  ghost predicate BookingsMatchHolders(db: Database) {
    forall id :: id in db.bookings ==> BookingHeld(db, db.bookings[id])
  }

  /** Users "1".."4", each stored under its own id. */
  lemma SeedUsersShape()
    ensures SeedUsers().Keys == {"1", "2", "3", "4"}
    ensures forall id :: id in SeedUsers() ==> SeedUsers()[id].id == id
  {
  }

  /** Amenities "1".."4" with durations 2, 1, 3, 4, each stored under its own id and owning its own ladder. */
  lemma SeedAmenitiesShape(today: Weekday)
    ensures SeedAmenities(today).Keys == {"1", "2", "3", "4"}
    ensures forall id :: id in SeedAmenities(today) ==> SeedAmenities(today)[id].id == id
    ensures SeedAmenities(today)["1"].maxDurationHours == 2 && SeedAmenities(today)["2"].maxDurationHours == 1
    ensures SeedAmenities(today)["3"].maxDurationHours == 3 && SeedAmenities(today)["4"].maxDurationHours == 4
    ensures forall id :: id in SeedAmenities(today) ==>
      SeedAmenities(today)[id].timeSlots == Ladder(today, SeedAmenities(today)[id].maxDurationHours)
    ensures forall id :: id in SeedAmenities(today) ==> SeedAmenities(today)[id].maxDurationHours > 0
  {
  }

  /** Users "1".."4"; amenities "1".."4" with durations 2, 1, 3, 4, each owning its own ladder. */
  lemma SeedShape(today: Weekday, firstBookedAt: int, secondBookedAt: int)
    ensures var db := SeedDatabase(today, firstBookedAt, secondBookedAt);
      && db.users.Keys == {"1", "2", "3", "4"}
      && (forall id :: id in db.users ==> db.users[id].id == id)
      && db.amenities.Keys == {"1", "2", "3", "4"}
      && db.amenities["1"].maxDurationHours == 2 && db.amenities["2"].maxDurationHours == 1
      && db.amenities["3"].maxDurationHours == 3 && db.amenities["4"].maxDurationHours == 4
      && (forall id :: id in db.amenities ==> db.amenities[id].id == id)
      && (forall id :: id in db.amenities && id != "1" ==>
            db.amenities[id].timeSlots == Ladder(today, db.amenities[id].maxDurationHours))
      && |db.amenities["1"].timeSlots| == 9
      && (forall i :: 0 <= i < 9 && i != PoolSlotIndex ==> db.amenities["1"].timeSlots[i] == Ladder(today, 2)[i])
      && db.bookings.Keys == {"1", "2"}
  {
    SeedUsersShape();
    SeedAmenitiesShape(today);
    var amenities := SeedAmenities(today);
    var db := SeedDatabase(today, firstBookedAt, secondBookedAt);
    assert db.amenities == amenities["1" := db.amenities["1"]];
    assert db.amenities["1"] == amenities["1"].(timeSlots := db.amenities["1"].timeSlots);
  }

  /**
   * The second booking step marks the pool slot: after seeding, pool slot 1 is
   * held by "2", gym slot 2 is free although booking "2" names it, and the
   * bookings do not match the holders.
   */
  lemma SeedPoolSlotOverwritten(today: Weekday, firstBookedAt: int, secondBookedAt: int)
    ensures var db := SeedDatabase(today, firstBookedAt, secondBookedAt);
      && db.amenities["1"].timeSlots[PoolSlotIndex].bookedBy == Some("2")
      && db.bookings["1"].userId == "1"
      && db.bookings["1"].timeSlotId == db.amenities["1"].timeSlots[PoolSlotIndex].id
      && db.amenities["2"].timeSlots[GymSlotIndex].bookedBy == None
      && db.bookings["2"].timeSlotId == db.amenities["2"].timeSlots[GymSlotIndex].id
      && !BookingsMatchHolders(db)
  {
    var db := SeedDatabase(today, firstBookedAt, secondBookedAt);
    LadderShape(today, 1);
    var gym := db.amenities["2"].timeSlots;
    assert gym == Ladder(today, 1);
    assert !BookingHeld(db, db.bookings["2"]) by {
      forall i | 0 <= i < |gym| ensures gym[i].bookedBy != Some("2") {
      }
    }
  }

  /** With both bookings applied to their own slots every booking is mirrored by its slot's holder. */
  lemma IntendedSeedConsistent(today: Weekday, firstBookedAt: int, secondBookedAt: int)
    ensures BookingsMatchHolders(IntendedSeedDatabase(today, firstBookedAt, secondBookedAt))
  {
    var db := IntendedSeedDatabase(today, firstBookedAt, secondBookedAt);
    assert BookingHeld(db, db.bookings["1"]) by {
      assert db.amenities["1"].timeSlots[PoolSlotIndex].id == db.bookings["1"].timeSlotId;
    }
    assert BookingHeld(db, db.bookings["2"]) by {
      assert db.amenities["2"].timeSlots[GymSlotIndex].id == db.bookings["2"].timeSlotId;
    }
  }

  /** A dataset whose amenities own free ladders of positive duration satisfies the invariants. */
  lemma LaddersWellFormed(db: Database, today: Weekday)
    requires forall k :: k in db.amenities ==>
      db.amenities[k].maxDurationHours > 0 &&
      db.amenities[k].timeSlots == Ladder(today, db.amenities[k].maxDurationHours)
    ensures WellFormed(db)
  {
    forall k | k in db.amenities
      ensures forall i :: 0 <= i < |db.amenities[k].timeSlots| ==>
        db.amenities[k].timeSlots[i].bookedBy == None &&
        db.amenities[k].timeSlots[i].startTime < db.amenities[k].timeSlots[i].endTime
      ensures forall i, j :: 0 <= i < j < |db.amenities[k].timeSlots| ==>
        db.amenities[k].timeSlots[i].id != db.amenities[k].timeSlots[j].id
    {
      LadderShape(today, db.amenities[k].maxDurationHours);
      LadderIdsDistinct(today, db.amenities[k].maxDurationHours);
    }
  }

  /** Marking one pool slot with a known user keeps the invariants. */
  lemma PoolHolderKeepsWellFormed(db: Database, holder: string)
    requires WellFormed(db) && holder in db.users
    requires "1" in db.amenities && PoolSlotIndex < |db.amenities["1"].timeSlots|
    ensures WellFormed(db.(amenities := WithPoolHolder(db.amenities, holder)))
  {
    var db' := db.(amenities := WithPoolHolder(db.amenities, holder));
    assert forall k, i :: k in db'.amenities && 0 <= i < |db'.amenities[k].timeSlots| ==>
      db'.amenities[k].timeSlots[i].id == db.amenities[k].timeSlots[i].id &&
      db'.amenities[k].timeSlots[i].startTime == db.amenities[k].timeSlots[i].startTime &&
      db'.amenities[k].timeSlots[i].endTime == db.amenities[k].timeSlots[i].endTime;
  }

  /** The seeded dataset satisfies the dataset invariants (holders known, ids unique, start < end). */
  lemma SeedWellFormed(today: Weekday, firstBookedAt: int, secondBookedAt: int)
    ensures WellFormed(SeedDatabase(today, firstBookedAt, secondBookedAt))
  {
    var db := Database(SeedUsers(), SeedAmenities(today), SeedBookings(today, firstBookedAt, secondBookedAt));
    SeedUsersShape();
    SeedAmenitiesShape(today);
    LaddersWellFormed(db, today);
    PoolHolderKeepsWellFormed(db, "2");
  }
}
