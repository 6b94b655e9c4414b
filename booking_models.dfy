/** The booking and review records (bookings/models.py). */
module BookingModels {
  import opened Wrappers

  /** Who holds a booking or wrote a review (a user's primary key). */
  type UserId = nat

  datatype BookingStatus = Booked | Cancelled | Completed | Waitlisted

  /** The value stored in the `status` column. */
  function StatusName(s: BookingStatus): string {
    match s
    case Booked => "booked"
    case Cancelled => "cancelled"
    case Completed => "completed"
    case Waitlisted => "waitlisted"
  }

  /** The stored names are pairwise different, so filtering by name selects one status. */
  lemma StatusNameInjective(a: BookingStatus, b: BookingStatus)
    ensures StatusName(a) == StatusName(b) <==> a == b
  {
  }

  /** One user's booking of one session. Times are in seconds. */
  datatype Booking = Booking(
    status: BookingStatus,
    bookingTime: int,
    cancellationTime: Option<int>,
    isWaitlisted: bool,
    waitlistPosition: Option<nat>,
    notes: string)

  /** A row created with the model defaults: booked, not waitlisted, no position, not cancelled. */
  function NewBooking(bookingTime: int, notes: string): (b: Booking)
    ensures b.status == Booked && !b.isWaitlisted
    ensures b.waitlistPosition == None && b.cancellationTime == None
    ensures b.bookingTime == bookingTime && b.notes == notes
  {
    Booking(Booked, bookingTime, None, false, None, notes)
  }

  /** `is_active`: only a booked seat is active; waitlisted, cancelled and completed ones are not. */
  function IsActive(b: Booking): (active: bool)
    ensures active <==> b.status == Booked
    ensures b.status == Waitlisted ==> !active
  {
    b.status == Booked
  }

  /** The line `cancel` appends to the notes when it is given a reason. */
  function ReasonSuffix(reason: string): string {
    "\nCancellation reason: " + reason
  }

  /** `cancel(reason)` at time `now`: the status becomes cancelled and the time is stamped;
      a non-empty reason is appended to the notes; the waitlist fields are kept as they were. */
  function Cancel(b: Booking, reason: Option<string>, now: int): (c: Booking)
    ensures c.status == Cancelled && c.cancellationTime == Some(now)
    ensures c.isWaitlisted == b.isWaitlisted && c.waitlistPosition == b.waitlistPosition
    ensures c.bookingTime == b.bookingTime
    ensures (reason == None || reason == Some("")) ==> c.notes == b.notes
    ensures reason.Some? && reason.value != "" ==> c.notes == b.notes + ReasonSuffix(reason.value)
    ensures b.notes <= c.notes
  {
    var stamped := b.(status := Cancelled, cancellationTime := Some(now));
    if reason.Some? && reason.value != "" then stamped.(notes := stamped.notes + ReasonSuffix(reason.value))
    else stamped
  }

  /** A review rating: one of the choices 1 to 5. */
  type Rating = r: int | 1 <= r <= 5 witness 5

  const DefaultRating: Rating := 5

  /** A user's review of one session, with the class it belongs to copied from the session. */
  datatype Review = Review(rating: Rating, text: string, scheduleId: nat, classId: nat)
}
