/** Class sessions and their capacity (classes/models.py). Times are in seconds. */
module ClassModels {
  import opened Wrappers
  import ClassUtils

  datatype ScheduleStatus = Active | Cancelled | Completed | Full

  /** The stored fields of one `ClassSchedule` row that the booking rules read or write.
      `classDuration` is the owning class's duration in minutes; `endTime` is `None` until
      the first save fills it in. */
  datatype Schedule = Schedule(
    id: nat,
    classId: nat,
    classDuration: nat,
    startTime: int,
    endTime: Option<int>,
    maxCapacity: nat,
    bookedSlots: nat,
    waitlistEnabled: bool,
    status: ScheduleStatus)

  /** The first step of `save`: a session at or over capacity is full whatever its status;
      a full session with a free seat becomes active; any other status is kept. */
  function CapacityStatus(bookedSlots: nat, maxCapacity: nat, status: ScheduleStatus): (r: ScheduleStatus)
    ensures bookedSlots >= maxCapacity ==> r == Full
    ensures bookedSlots < maxCapacity && status == Full ==> r == Active
    ensures bookedSlots < maxCapacity && status != Full ==> r == status
  {
    if bookedSlots >= maxCapacity then Full
    else if status == Full && bookedSlots < maxCapacity then Active
    else status
  }

  /** The status `save` leaves on the record: the capacity step, then an active session
      whose start lies before `now` becomes completed. */
  function DerivedStatus(s: Schedule, now: int): ScheduleStatus {
    var st := CapacityStatus(s.bookedSlots, s.maxCapacity, s.status);
    if s.startTime < now && st == Active then Completed else st
  }

  /** The end time `save` leaves on the record: a missing one becomes the start plus the
      class duration; a supplied one is kept. */
  function DerivedEndTime(s: Schedule): Option<int> {
    if s.endTime.None? then Some(s.startTime + s.classDuration * 60) else s.endTime
  }

  /** The record as `save` writes it when every field is persisted. */
  function Saved(s: Schedule, now: int): Schedule {
    s.(endTime := DerivedEndTime(s), status := DerivedStatus(s, now))
  }

  /** At or over capacity, saving yields full, overriding cancelled and completed too. */
  lemma SaveFullOverridesAll(s: Schedule, now: int)
    requires s.bookedSlots >= s.maxCapacity
    ensures Saved(s, now).status == Full
  {
  }

  /** A full session whose seats freed up is active again, or completed if it has started;
      below capacity a cancelled or completed session keeps its status. */
  lemma SaveBelowCapacity(s: Schedule, now: int)
    requires s.bookedSlots < s.maxCapacity
    ensures s.status == Full && s.startTime >= now ==> Saved(s, now).status == Active
    ensures s.status == Full && s.startTime < now ==> Saved(s, now).status == Completed
    ensures s.status in {Cancelled, Completed} ==> Saved(s, now).status == s.status
  {
  }

  /** A started active session becomes completed; a started full session stays full. */
  lemma SavePastSessions(s: Schedule, now: int)
    requires s.startTime < now
    ensures s.status == Active && s.bookedSlots < s.maxCapacity ==> Saved(s, now).status == Completed
    ensures s.bookedSlots >= s.maxCapacity ==> Saved(s, now).status == Full
  {
  }

  /** Saving twice with the same clock gives what saving once gives. */
  lemma SaveIdempotent(s: Schedule, now: int)
    ensures Saved(Saved(s, now), now) == Saved(s, now)
  {
  }

  /** A missing end time becomes start + duration; a supplied one is kept; nothing else
      but the end time and the status is touched. */
  lemma SaveEndTime(s: Schedule, now: int)
    ensures s.endTime.None? ==> Saved(s, now).endTime == Some(s.startTime + s.classDuration * 60)
    ensures s.endTime.Some? ==> Saved(s, now).endTime == s.endTime
    ensures Saved(s, now).(endTime := s.endTime, status := s.status) == s
  {
  }

  /** `available_slots`: the free seats, `max(0, max_capacity - booked_slots)`, which are
      zero exactly when the session is full. */
  function AvailableSlots(s: Schedule): (n: nat)
    ensures n == if s.maxCapacity > s.bookedSlots then s.maxCapacity - s.bookedSlots else 0
    ensures n == 0 <==> IsFull(s)
  {
    ClassUtils.CalculateAvailableSlots(s.maxCapacity, s.bookedSlots)
  }

  /** `is_full`. */
  predicate IsFull(s: Schedule) {
    s.bookedSlots >= s.maxCapacity
  }

  /** `is_upcoming`: the start lies strictly after `now`. */
  predicate IsUpcoming(s: Schedule, now: int) {
    s.startTime > now
  }

  /** `is_past`: the start lies strictly before `now`. */
  predicate IsPast(s: Schedule, now: int) {
    s.startTime < now
  }

  /** A session is never both upcoming and past, and is neither exactly at its start. */
  lemma UpcomingPastExclusive(s: Schedule, now: int)
    ensures !(IsUpcoming(s, now) && IsPast(s, now))
    ensures !IsUpcoming(s, now) && !IsPast(s, now) <==> s.startTime == now
  {
  }

  /** The sessions `get_available_slots` sums over: starting at or after `now`, status active. */
  predicate CountsTowardTotal(s: Schedule, now: int) {
    s.startTime >= now && s.status == Active
  }

  /** The free seats of every counted session in `schedules`. */
  function TotalAvailable(schedules: seq<Schedule>, now: int): nat {
    if schedules == [] then 0
    else
      var last := schedules[|schedules| - 1];
      TotalAvailable(schedules[..|schedules| - 1], now) + (if CountsTowardTotal(last, now) then AvailableSlots(last) else 0)
  }

  /** The total is the sum of its parts: splitting the sessions splits the total. */
  lemma {:induction false} TotalAvailableAppend(a: seq<Schedule>, b: seq<Schedule>, now: int)
    ensures TotalAvailable(a + b, now) == TotalAvailable(a, now) + TotalAvailable(b, now)
  {
    if b != [] {
      assert (a + b)[..|a + b| - 1] == a + b[..|b| - 1];
      TotalAvailableAppend(a, b[..|b| - 1], now);
    } else {
      assert a + b == a;
    }
  }

  /** Sessions that do not count leave the total at zero. */
  lemma {:induction false} TotalAvailableNoneCounted(schedules: seq<Schedule>, now: int)
    requires forall i :: 0 <= i < |schedules| ==> !CountsTowardTotal(schedules[i], now)
    ensures TotalAvailable(schedules, now) == 0
  {
    if schedules != [] {
      TotalAvailableNoneCounted(schedules[..|schedules| - 1], now);
    }
  }

  /** Extending the prefix `schedules[..i]` by one session adds that session's share. */
  lemma TotalAvailableStep(schedules: seq<Schedule>, i: nat, now: int)
    requires i < |schedules|
    ensures TotalAvailable(schedules[..i + 1], now)
         == TotalAvailable(schedules[..i], now)
            + (if CountsTowardTotal(schedules[i], now) then AvailableSlots(schedules[i]) else 0)
  {
    assert schedules[..i + 1][..i] == schedules[..i];
  }

  /** The first session of `schedules` with the given id, or `|schedules|`. */
  function FindSchedule(schedules: seq<Schedule>, id: nat): (k: nat)
    ensures k <= |schedules|
    ensures k < |schedules| ==> schedules[k].id == id
    ensures forall i :: 0 <= i < k ==> schedules[i].id != id
  {
    if schedules == [] then 0
    else if schedules[0].id == id then 0
    else 1 + FindSchedule(schedules[1..], id)
  }

  /** `Class.get_available_slots(schedule_id)` for a class whose sessions are `schedules`.
      A truthy id (`Some` of a non-zero key) asks about that session alone and yields 0 when
      the class has no such session; otherwise the free seats of every upcoming active
      session are added up. */
  method ClassAvailableSlots(schedules: seq<Schedule>, scheduleId: Option<nat>, now: int) returns (total: nat)
    ensures scheduleId.Some? && scheduleId.value != 0 ==>
      total == (if exists i :: 0 <= i < |schedules| && schedules[i].id == scheduleId.value
                then AvailableSlots(schedules[FindSchedule(schedules, scheduleId.value)]) else 0)
    ensures !(scheduleId.Some? && scheduleId.value != 0) ==> total == TotalAvailable(schedules, now)
  {
    if scheduleId.Some? && scheduleId.value != 0 {
      var k := FindSchedule(schedules, scheduleId.value);
      if k == |schedules| {
        return 0;
      }
      return ClassUtils.CalculateAvailableSlots(schedules[k].maxCapacity, schedules[k].bookedSlots);
    }
    total := 0;
    var i := 0;
    while i < |schedules|
      invariant 0 <= i <= |schedules|
      invariant total == TotalAvailable(schedules[..i], now)
    {
      var s := schedules[i];
      TotalAvailableStep(schedules, i, now);
      if s.startTime >= now && s.status == Active {
        total := total + ClassUtils.CalculateAvailableSlots(s.maxCapacity, s.bookedSlots);
      }
      i := i + 1;
    }
    assert schedules[..i] == schedules;
  }
}
