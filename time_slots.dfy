/**
 * `generateTimeSlots` of src/db.ts: a ladder of three consecutive days times
 * the starting hours 9, 13 and 17. Times are whole hours from midnight of
 * "today"; the weekday of today is a parameter (the clock is not modelled).
 */
module TimeSlots {
  import opened DbTypes
  import NumberText

  /** The names `getDay()` indexes, Sunday first. */
  const DayNames: seq<string> := ["sun", "mon", "tue", "wed", "thu", "fri", "sat"]
  const StartingHours: seq<int> := [9, 13, 17]
  const DaysToSchedule: nat := 3
  const SlotCount: nat := 9  // DaysToSchedule days of |StartingHours| slots

  /** A value of `getDay()`: 0 is Sunday. */
  type Weekday = d: nat | d < 7

  /** `slot_<dayName>_<hour>h` */
  function SlotId(dayName: string, hour: int): string {
    "slot_" + dayName + "_" + NumberText.IntToString(hour) + "h"
  }

  /** The slot generated for day `dayOffset` at `hour`. */
  function LadderSlot(today: Weekday, duration: int, dayOffset: nat, hour: int): TimeSlot {
    var start := dayOffset * 24 + hour;
    TimeSlot(SlotId(DayNames[(today + dayOffset) % 7], hour), start, start + duration, None)
  }

  /** Day offset of the `k`-th generated slot (`k / 3`, spelled out). */
  function DayOffsetOf(k: nat): (d: nat)
    requires k < SlotCount
    ensures d < DaysToSchedule && 3 * d <= k < 3 * d + 3
  {
    if k < 3 then 0 else if k < 6 then 1 else 2
  }

  /** The `k`-th slot in generation order. */
  function LadderAt(today: Weekday, duration: int, k: nat): TimeSlot
    requires k < SlotCount
  {
    LadderSlot(today, duration, DayOffsetOf(k), StartingHours[k - 3 * DayOffsetOf(k)])
  }

  /** All slots in generation order: by day offset, then by starting hour. */
  function Ladder(today: Weekday, duration: int): seq<TimeSlot> {
    seq(SlotCount, k requires 0 <= k < SlotCount => LadderAt(today, duration, k))
  }

  method GenerateTimeSlots(today: Weekday, slotDurationHours: int := 1) returns (slots: seq<TimeSlot>)
    ensures slots == Ladder(today, slotDurationHours)
  {
    slots := [];
    var dayOffset := 0;
    while dayOffset < DaysToSchedule
      invariant 0 <= dayOffset <= DaysToSchedule
      invariant |slots| == dayOffset * 3
      invariant forall k :: 0 <= k < |slots| ==> slots[k] == LadderAt(today, slotDurationHours, k)
    {
      var h := 0;
      while h < |StartingHours|
        invariant 0 <= h <= |StartingHours|
        invariant |slots| == dayOffset * 3 + h
        invariant forall k :: 0 <= k < |slots| ==> slots[k] == LadderAt(today, slotDurationHours, k)
      {
        var hourOfDay := StartingHours[h];
        var startTime := dayOffset * 24 + hourOfDay;
        var endTime := startTime + slotDurationHours;
        var dayName := DayNames[(today + dayOffset) % 7];
        var slot := TimeSlot(SlotId(dayName, hourOfDay), startTime, endTime, None);
        assert DayOffsetOf(dayOffset * 3 + h) == dayOffset;
        assert slot == LadderAt(today, slotDurationHours, dayOffset * 3 + h);
        slots := slots + [slot];
        h := h + 1;
      }
      dayOffset := dayOffset + 1;
    }
  }

  /** Start hours of the nine slots, counted from midnight of today, in generation order. */
  const LadderStartHours: seq<int> := [9, 13, 17, 33, 37, 41, 57, 61, 65]

  /** The `k`-th generated slot is free, starts at `LadderStartHours[k]` and lasts `duration` hours. */
  lemma LadderTimes(today: Weekday, duration: int, k: nat)
    requires k < SlotCount
    ensures Ladder(today, duration)[k].startTime == LadderStartHours[k]
    ensures Ladder(today, duration)[k].endTime == LadderStartHours[k] + duration
    ensures Ladder(today, duration)[k].bookedBy == None
  {
    assert Ladder(today, duration)[k] == LadderAt(today, duration, k);
  }

  /** Consecutive start hours are at least four hours apart. */
  lemma StartHourGaps()
    ensures forall i, j :: 0 <= i < j < 9 ==> LadderStartHours[i] + 4 <= LadderStartHours[j]
  {
  }

  /** Every generated slot, by its closed-form start and end time. */
  lemma AllLadderTimes(today: Weekday, duration: int)
    ensures |Ladder(today, duration)| == 9
    ensures forall k :: 0 <= k < 9 ==>
      && Ladder(today, duration)[k].startTime == LadderStartHours[k]
      && Ladder(today, duration)[k].endTime == LadderStartHours[k] + duration
      && Ladder(today, duration)[k].bookedBy == None
  {
    forall k | 0 <= k < 9
      ensures Ladder(today, duration)[k].startTime == LadderStartHours[k]
      ensures Ladder(today, duration)[k].endTime == LadderStartHours[k] + duration
      ensures Ladder(today, duration)[k].bookedBy == None
    {
      LadderTimes(today, duration, k);
    }
  }

  /**
   * Nine free slots, start times strictly increasing in generation order, and
   * every slot lasting `duration` hours (so start < end when it is positive).
   */
  lemma LadderShape(today: Weekday, duration: int)
    ensures |Ladder(today, duration)| == 9
    ensures forall k :: 0 <= k < 9 ==> Ladder(today, duration)[k].bookedBy == None
    ensures forall k :: 0 <= k < 9 ==>
      Ladder(today, duration)[k].endTime == Ladder(today, duration)[k].startTime + duration
    ensures duration > 0 ==> forall k :: 0 <= k < 9 ==>
      Ladder(today, duration)[k].startTime < Ladder(today, duration)[k].endTime
    ensures forall i, j :: 0 <= i < j < 9 ==>
      Ladder(today, duration)[i].startTime < Ladder(today, duration)[j].startTime
  {
    AllLadderTimes(today, duration);
    StartHourGaps();
  }

  /** Slots of at most four hours end before the next one starts. */
  lemma LadderNonOverlapping(today: Weekday, duration: int)
    requires duration <= 4
    ensures forall i, j :: 0 <= i < j < |Ladder(today, duration)| ==>
      Ladder(today, duration)[i].endTime <= Ladder(today, duration)[j].startTime
  {
    AllLadderTimes(today, duration);
    StartHourGaps();
  }

  /** A duration beyond the four-hour gap makes the first two slots overlap. */
  lemma LadderOverlapsWhenLong(today: Weekday, duration: int)
    requires duration > 4
    ensures Ladder(today, duration)[0].endTime > Ladder(today, duration)[1].startTime
  {
  }

  lemma ConsecutiveDayNamesDistinct(today: Weekday, d1: nat, d2: nat)
    requires d1 < 3 && d2 < 3 && d1 != d2
    ensures DayNames[(today + d1) % 7] != DayNames[(today + d2) % 7]
  {
  }

  /** The day name a slot id carries. */
  function SlotDayName(id: string): string
    requires |id| >= 8
  {
    id[5..8]
  }

  /** The hour a slot id carries. */
  function SlotHour(id: string): int
    requires |id| >= 10
  {
    NumberText.ParseInt(id[9..|id| - 1])
  }

  /** The day name and the hour can be read back from a slot id. */
  lemma SlotIdRoundTrip(dayName: string, hour: int)
    requires |dayName| == 3
    ensures |SlotId(dayName, hour)| >= 11
    ensures SlotDayName(SlotId(dayName, hour)) == dayName
    ensures SlotHour(SlotId(dayName, hour)) == hour
  {
    var s := SlotId(dayName, hour);
    assert s[5..8] == dayName;
    assert s[9..|s| - 1] == NumberText.IntToString(hour);
    NumberText.IntRoundTrip(hour);
  }

  /** Two slot ids built from three-letter day names are equal only for the same day name and hour. */
  lemma SlotIdInjective(n1: string, h1: int, n2: string, h2: int)
    requires |n1| == 3 && |n2| == 3
    requires SlotId(n1, h1) == SlotId(n2, h2)
    ensures n1 == n2 && h1 == h2
  {
    SlotIdRoundTrip(n1, h1);
    SlotIdRoundTrip(n2, h2);
  }

  /** The day name and hour read back from the `k`-th generated id. */
  lemma LadderAtDecode(today: Weekday, duration: int, k: nat)
    requires k < SlotCount
    ensures |LadderAt(today, duration, k).id| >= 11
    ensures SlotDayName(LadderAt(today, duration, k).id) == DayNames[(today + DayOffsetOf(k)) % 7]
    ensures SlotHour(LadderAt(today, duration, k).id) == StartingHours[k - 3 * DayOffsetOf(k)]
  {
    var n := DayNames[(today + DayOffsetOf(k)) % 7];
    var h := StartingHours[k - 3 * DayOffsetOf(k)];
    assert |n| == 3;
    assert LadderAt(today, duration, k).id == SlotId(n, h);
    SlotIdRoundTrip(n, h);
  }

  /** Two generation positions with the same day name and the same hour are the same position. */
  lemma LadderPositionInjective(today: Weekday, i: nat, j: nat)
    requires i < SlotCount && j < SlotCount
    requires DayNames[(today + DayOffsetOf(i)) % 7] == DayNames[(today + DayOffsetOf(j)) % 7]
    requires StartingHours[i - 3 * DayOffsetOf(i)] == StartingHours[j - 3 * DayOffsetOf(j)]
    ensures i == j
  {
    if DayOffsetOf(i) != DayOffsetOf(j) {
      ConsecutiveDayNamesDistinct(today, DayOffsetOf(i), DayOffsetOf(j));
    }
  }

  /** Two generation positions with the same id are the same position. */
  lemma LadderAtIdInjective(today: Weekday, duration: int, i: nat, j: nat)
    requires i < SlotCount && j < SlotCount
    requires LadderAt(today, duration, i).id == LadderAt(today, duration, j).id
    ensures i == j
  {
    LadderAtDecode(today, duration, i);
    LadderAtDecode(today, duration, j);
    LadderPositionInjective(today, i, j);
  }

  /** The nine ids generated for one amenity are pairwise distinct. */
  lemma LadderIdsDistinct(today: Weekday, duration: int)
    ensures forall i, j :: 0 <= i < j < |Ladder(today, duration)| ==>
      Ladder(today, duration)[i].id != Ladder(today, duration)[j].id
  {
    var l := Ladder(today, duration);
    forall i, j | 0 <= i < j < |l|
      ensures l[i].id != l[j].id
    {
      if l[i].id == l[j].id {
        LadderAtIdInjective(today, duration, i, j);
      }
    }
  }
}
