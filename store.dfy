/**
 * The store of src/db.ts. The JSON file is one `Option<Database>` field
 * (`None` when it is absent or cannot be read or parsed); the module-level
 * `emptyDb` constant is an object that `readDb` hands out on a failed read, so
 * whatever `writeKey` then assigns to it stays in it.
 */
module Store {
  import opened DbTypes
  import opened TimeSlots
  import opened SeedData

  /** A dataset object in memory: a parse result, or the `emptyDb` object itself. */
  class DbObject {
    var users: map<string, User>
    var amenities: map<string, Amenity>
    var bookings: map<string, Booking>

    constructor (d: Database)
      ensures Value() == d
    {
      users, amenities, bookings := d.users, d.amenities, d.bookings;
    }

    function Value(): Database
      reads this
    {
      Database(users, amenities, bookings)
    }

    /** `db[key] = value` */
    method Assign(c: Collection)
      modifies this
      ensures Value() == Put(old(Value()), c)
    {
      match c
      case UsersCol(u) => users := u;
      case AmenitiesCol(a) => amenities := a;
      case BookingsCol(b) => bookings := b;
    }
  }

  class FileStore {
    /** The persisted document; `None` when it is absent, unreadable or unparseable. */
    var file: Option<Database>
    /** The `emptyDb` object shared by every failed read. */
    const emptyDb: DbObject

    constructor (persisted: Option<Database>)
      ensures file == persisted && fresh(emptyDb) && emptyDb.Value() == EmptyDatabase
    {
      file := persisted;
      emptyDb := new DbObject(EmptyDatabase);
    }

    /** The dataset a read yields: the parsed file, or whatever `emptyDb` holds now. */
    function Loaded(): Database
      reads this, emptyDb
    {
      if file.Some? then file.value else emptyDb.Value()
    }

    /** `emptyDb` still holds three empty collections. */
    predicate EmptyIntact()
      reads this, emptyDb
    {
      emptyDb.Value() == EmptyDatabase
    }

    /** `readDb`: a fresh object for a readable file, otherwise `emptyDb` itself; a read or parse failure never escapes. */
    method ReadDb() returns (db: DbObject)
      ensures file.Some? ==> fresh(db) && db.Value() == file.value
      ensures file.None? ==> db == emptyDb
    {
      if file.Some? {
        db := new DbObject(file.value);
      } else {
        db := emptyDb;
      }
    }

    /** `readKey`: the collection stored under `key` in what `readDb` yields. */
    method ReadKey(key: Key) returns (c: Collection)
      ensures c == Get(Loaded(), key)
      ensures file.None? && EmptyIntact() ==> c == Get(EmptyDatabase, key)
    {
      var db := ReadDb();
      c := Get(db.Value(), key);
    }

    /** `writeDb`: overwrite the whole document. */
    method WriteDb(d: Database)
      modifies this`file
      ensures file == Some(d)
    {
      file := Some(d);
    }

    /**
     * `writeKey`: load, assign one collection, save. The other two collections
     * are written back as they were read. On a failed read the assignment
     * lands in `emptyDb`.
     */
    method WriteKey(c: Collection)
      modifies this`file, emptyDb
      ensures file == Some(Put(old(Loaded()), c))
      ensures old(file).Some? ==> unchanged(emptyDb)
      ensures old(file).None? ==> emptyDb.Value() == Put(old(emptyDb.Value()), c)
    {
      var db := ReadDb();
      db.Assign(c);
      WriteDb(db.Value());
    }

    /** `clearDb`: persist `emptyDb`, which is the empty dataset only while nothing was written into it. */
    method ClearDb()
      modifies this`file
      ensures file == Some(emptyDb.Value())
      ensures EmptyIntact() ==> file == Some(EmptyDatabase)
    {
      WriteDb(emptyDb.Value());
    }

    /** `seedDb`: build the demonstration dataset step by step and persist it. */
    method SeedDb(today: Weekday, firstBookedAt: int, secondBookedAt: int)
      modifies this`file
      ensures file == Some(SeedDatabase(today, firstBookedAt, secondBookedAt))
    {
      var users := SeedUsers();
      var poolSlots := GenerateTimeSlots(today, 2);
      var gymSlots := GenerateTimeSlots(today, 1);
      var roomSlots := GenerateTimeSlots(today, 3);
      var loungeSlots := GenerateTimeSlots(today, 4);
      var amenities := SeedAmenitiesFrom(poolSlots, gymSlots, roomSlots, loungeSlots);
      ghost var generated := amenities;
      assert generated == SeedAmenities(today);
      var bookings: map<string, Booking> := map[];

      if PoolSlotIndex < |amenities["1"].timeSlots| {
        var poolSlot := amenities["1"].timeSlots[PoolSlotIndex];
        amenities := WithPoolHolder(amenities, "1");
        bookings := bookings["1" := Booking("1", "1", "1", poolSlot.id, firstBookedAt,
                                            Some("Swimming party with family"))];
      }

      if GymSlotIndex < |amenities["2"].timeSlots| {
        var gymSlot := amenities["2"].timeSlots[GymSlotIndex];
        // the update lands on the pool slot, not on gymSlot
        amenities := WithPoolHolder(amenities, "2");
        bookings := bookings["2" := Booking("2", "2", "2", gymSlot.id, secondBookedAt,
                                            Some("Personal training session"))];
      }

      PoolHolderOverwrite(generated, "1", "2");
      WriteDb(Database(users, amenities, bookings));
    }

    /** `readDb` with the fallback copied: a fresh object on every call. */
    method ReadDbCopy() returns (db: DbObject)
      ensures fresh(db) && db.Value() == Loaded()
    {
      if file.Some? {
        db := new DbObject(file.value);
      } else {
        db := new DbObject(emptyDb.Value());
      }
    }

    /** `writeKey` over `ReadDbCopy`: the same file contents, and `emptyDb` is never touched. */
    method WriteKeyCopy(c: Collection)
      modifies this`file
      ensures file == Some(Put(old(Loaded()), c))
      ensures EmptyIntact() == old(EmptyIntact())
    {
      var db := ReadDbCopy();
      db.Assign(c);
      WriteDb(db.Value());
    }
  }

  /**
   * On a store whose file cannot be read, `writeKey` of a non-empty collection
   * followed by `clearDb` persists that collection instead of the empty dataset.
   */
  method ClearAfterFallbackWrite(c: Collection) returns (cleared: Database)
    requires c != Get(EmptyDatabase, c.Key())
    ensures Get(cleared, c.Key()) == c
    ensures cleared != EmptyDatabase
  {
    var store := new FileStore(None);
    store.WriteKey(c);
    store.ClearDb();
    cleared := store.file.value;
  }

  /** The same sequence over the copying read leaves the store empty. */
  method ClearAfterFallbackWriteCopy(c: Collection) returns (cleared: Database)
    ensures cleared == EmptyDatabase
  {
    var store := new FileStore(None);
    store.WriteKeyCopy(c);
    store.ClearDb();
    cleared := store.file.value;
  }

  /** `clearDb` on a fresh store, then reading the amenities, gives no amenities. */
  method ClearThenReadAmenities(persisted: Option<Database>) returns (amenities: map<string, Amenity>)
    ensures amenities == map[]
  {
    var store := new FileStore(persisted);
    store.ClearDb();
    var c := store.ReadKey(AmenitiesKey);
    amenities := c.amenities;
  }

  /** Reading a collection and writing it back leaves a readable file as it was. */
  method RewriteKeepsFile(d: Database, key: Key) returns (after: Option<Database>)
    ensures after == Some(d)
  {
    var store := new FileStore(Some(d));
    var c := store.ReadKey(key);
    store.WriteKey(c);
    PutOwnCollection(d, key);
    after := store.file;
  }
}
