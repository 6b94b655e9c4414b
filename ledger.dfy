/** The booking ledger of one class session: the session row, every booking on it keyed by
    user, and every review of it keyed by user. The methods are the request paths of
    bookings/serializers.py (with the lookups of bookings/views.py) and the session-level
    rules of classes/models.py that read the bookings. */
module Ledger {
  import opened Wrappers
  import opened Strings
  import opened BookingModels
  import opened ClassModels
  import BookingUtils
  import BookingViews

  /** How a request is refused: the lookup found no matching row (404), or a validation
      rule rejected it (400, with the rule's message). */
  datatype RequestError = NotFound | Invalid(message: string)

  const NotAvailableMsg := "This class session is not available for booking."
  const PastSessionMsg := "Cannot book past class sessions."
  const AlreadyBookedMsg := "You already have a booking for this class session."
  const FullMsg := "This class session is full and waitlist is not enabled."
  const UpdateCancelledMsg := "Cannot update a cancelled booking."
  const UpdateCompletedMsg := "Cannot update a completed booking."
  const AlreadyCancelledMsg := "Booking is already cancelled."
  const CancelCompletedMsg := "Cannot cancel a completed booking."
  const TooLateMsg := "Bookings must be cancelled at least 24 hours before the class starts."
  const NotAttendedMsg := "You can only review classes you have attended."
  const AlreadyReviewedMsg := "You have already reviewed this class session."

  // ---------------------------------------------------------------------------------------
  // The waitlist as a function of the bookings

  /** The users whose booking carries the waitlist flag, cancelled ones included. */
  function WaitlistedUsers(m: map<UserId, Booking>): set<UserId> {
    set u | u in m && m[u].isWaitlisted
  }

  /** What the waitlist count query returns: bookings with `is_waitlisted` set. */
  function WaitlistCount(m: map<UserId, Booking>): nat {
    |WaitlistedUsers(m)|
  }

  /** The positions held by the bookings that carry one. */
  function Positions(m: map<UserId, Booking>): set<nat> {
    set u | u in m && m[u].waitlistPosition.Some? :: m[u].waitlistPosition.value
  }

  /** The positions 1, 2, ..., n. */
  function UpTo(n: nat): (r: set<nat>)
    ensures forall p :: p in r <==> 1 <= p <= n
  {
    if n == 0 then {} else UpTo(n - 1) + {n}
  }

  /** Exactly the waitlisted bookings hold a position. */
  ghost predicate FlagMatchesPosition(m: map<UserId, Booking>) {
    forall u :: u in m ==> (m[u].isWaitlisted <==> m[u].waitlistPosition.Some?)
  }

  /** No two bookings hold the same position. */
  ghost predicate PositionsDistinct(m: map<UserId, Booking>) {
    forall u, v :: u in m && v in m && u != v && m[u].waitlistPosition.Some? ==>
      m[u].waitlistPosition != m[v].waitlistPosition
  }

  /** The positions held are 1, 2, ..., up to the number of waitlisted bookings. */
  ghost predicate PositionsDense(m: map<UserId, Booking>) {
    Positions(m) == UpTo(WaitlistCount(m))
  }

  /** The waitlist is well formed: positions were handed out 1, 2, 3, ... one per
      waitlisted booking, and none was handed out twice. */
  ghost predicate WaitlistWellFormed(m: map<UserId, Booking>) {
    FlagMatchesPosition(m) && PositionsDistinct(m) && PositionsDense(m)
  }

  /** Replacing a booking by one with the same waitlist fields changes no part of the waitlist. */
  lemma ReplaceKeepsWaitlist(m: map<UserId, Booking>, u: UserId, b: Booking)
    requires u in m
    requires b.isWaitlisted == m[u].isWaitlisted && b.waitlistPosition == m[u].waitlistPosition
    ensures WaitlistedUsers(m[u := b]) == WaitlistedUsers(m)
    ensures Positions(m[u := b]) == Positions(m)
    ensures WaitlistWellFormed(m) ==> WaitlistWellFormed(m[u := b])
  {
    var m' := m[u := b];
    assert forall v :: v in m' <==> v in m;
    assert forall v :: v in m ==> m'[v].isWaitlisted == m[v].isWaitlisted && m'[v].waitlistPosition == m[v].waitlistPosition;
    assert WaitlistedUsers(m') == WaitlistedUsers(m);
    forall p | p in Positions(m) ensures p in Positions(m') {
      var v :| v in m && m[v].waitlistPosition.Some? && m[v].waitlistPosition.value == p;
      assert m'[v].waitlistPosition == m[v].waitlistPosition;
    }
    forall p | p in Positions(m') ensures p in Positions(m) {
      var v :| v in m' && m'[v].waitlistPosition.Some? && m'[v].waitlistPosition.value == p;
      assert m'[v].waitlistPosition == m[v].waitlistPosition;
    }
  }

  /** Adding a confirmed booking for a new user changes no part of the waitlist. */
  lemma AddConfirmedKeepsWaitlist(m: map<UserId, Booking>, u: UserId, b: Booking)
    requires u !in m && !b.isWaitlisted && b.waitlistPosition.None?
    ensures WaitlistedUsers(m[u := b]) == WaitlistedUsers(m)
    ensures Positions(m[u := b]) == Positions(m)
    ensures WaitlistWellFormed(m) ==> WaitlistWellFormed(m[u := b])
  {
    var m' := m[u := b];
    assert WaitlistedUsers(m') == WaitlistedUsers(m);
    forall p | p in Positions(m) ensures p in Positions(m') {
      var v :| v in m && m[v].waitlistPosition.Some? && m[v].waitlistPosition.value == p;
      assert v != u && m'[v] == m[v];
    }
    forall p | p in Positions(m') ensures p in Positions(m) {
      var v :| v in m' && m'[v].waitlistPosition.Some? && m'[v].waitlistPosition.value == p;
      assert v != u && m'[v] == m[v];
    }
  }

  /** Adding a waitlisted booking at position count + 1 for a new user extends the waitlist by
      that user and that position. */
  lemma AddWaitlistedExtends(m: map<UserId, Booking>, u: UserId, b: Booking)
    requires u !in m && b.isWaitlisted && b.waitlistPosition == Some(WaitlistCount(m) + 1)
    ensures WaitlistedUsers(m[u := b]) == WaitlistedUsers(m) + {u}
    ensures WaitlistCount(m[u := b]) == WaitlistCount(m) + 1
    ensures Positions(m[u := b]) == Positions(m) + {WaitlistCount(m) + 1}
  {
    var m' := m[u := b];
    var n := WaitlistCount(m);
    assert WaitlistedUsers(m') == WaitlistedUsers(m) + {u};
    forall p | p in Positions(m) ensures p in Positions(m') {
      var v :| v in m && m[v].waitlistPosition.Some? && m[v].waitlistPosition.value == p;
      assert v != u && m'[v] == m[v];
    }
    assert n + 1 in Positions(m') by { assert m'[u] == b; }
    forall p | p in Positions(m') ensures p in Positions(m) + {n + 1} {
      var v :| v in m' && m'[v].waitlistPosition.Some? && m'[v].waitlistPosition.value == p;
      if v != u {
        assert m'[v] == m[v];
      }
    }
  }

  /** ... and keeps a well-formed waitlist well formed: the new position is the next one
      and no one held it yet. */
  lemma AddWaitlistedKeepsWellFormed(m: map<UserId, Booking>, u: UserId, b: Booking)
    requires WaitlistWellFormed(m)
    requires u !in m && b.isWaitlisted && b.waitlistPosition == Some(WaitlistCount(m) + 1)
    ensures WaitlistWellFormed(m[u := b])
  {
    var n := WaitlistCount(m);
    AddWaitlistedKeepsFlags(m, u, b);
    assert n + 1 !in Positions(m) by {
      assert Positions(m) == UpTo(n);
    }
    AddKeepsDistinct(m, u, b);
    AddWaitlistedKeepsDense(m, u, b);
  }

  lemma AddWaitlistedKeepsDense(m: map<UserId, Booking>, u: UserId, b: Booking)
    requires PositionsDense(m)
    requires u !in m && b.isWaitlisted && b.waitlistPosition == Some(WaitlistCount(m) + 1)
    ensures PositionsDense(m[u := b])
  {
    var n := WaitlistCount(m);
    AddWaitlistedExtends(m, u, b);
    assert UpTo(n + 1) == UpTo(n) + {n + 1};
  }

  lemma AddWaitlistedKeepsFlags(m: map<UserId, Booking>, u: UserId, b: Booking)
    requires FlagMatchesPosition(m)
    requires u !in m && b.isWaitlisted && b.waitlistPosition.Some?
    ensures FlagMatchesPosition(m[u := b])
  {
    var m' := m[u := b];
    forall v | v in m' ensures m'[v].isWaitlisted <==> m'[v].waitlistPosition.Some? {
      if v != u {
        assert m'[v] == m[v];
      }
    }
  }

  /** Adding a booking whose position no one holds keeps the positions distinct. */
  lemma AddKeepsDistinct(m: map<UserId, Booking>, u: UserId, b: Booking)
    requires PositionsDistinct(m) && u !in m
    requires b.waitlistPosition.Some? ==> b.waitlistPosition.value !in Positions(m)
    ensures PositionsDistinct(m[u := b])
  {
    var m' := m[u := b];
    forall v, w | v in m' && w in m' && v != w && m'[v].waitlistPosition.Some?
      ensures m'[v].waitlistPosition != m'[w].waitlistPosition
    {
      if v == u {
        if m[w].waitlistPosition.Some? {
          assert m[w].waitlistPosition.value in Positions(m);
        }
      } else if w == u {
        assert m[v].waitlistPosition.value in Positions(m);
      } else {
        assert m'[v] == m[v] && m'[w] == m[w];
      }
    }
  }

  /** In a well-formed waitlist every position held is at most the count, so the position
      count + 1 handed to the next waitlisted booking is held by no one yet. */
  lemma NextPositionIsFresh(m: map<UserId, Booking>)
    requires WaitlistWellFormed(m)
    ensures forall v :: v in m && m[v].waitlistPosition.Some? ==>
      1 <= m[v].waitlistPosition.value <= WaitlistCount(m)
    ensures WaitlistCount(m) + 1 !in Positions(m)
  {
    forall v | v in m && m[v].waitlistPosition.Some?
      ensures 1 <= m[v].waitlistPosition.value <= WaitlistCount(m)
    {
      assert m[v].waitlistPosition.value in Positions(m);
    }
  }

  /** Every review comes from a user whose booking of the session is completed, and is
      about this session and its class. */
  ghost predicate ReviewsConsistent(s: Schedule, m: map<UserId, Booking>, rv: map<UserId, Review>) {
    forall u :: u in rv ==>
      u in m && m[u].status == BookingStatus.Completed
      && rv[u].scheduleId == s.id && rv[u].classId == s.classId
  }

  /** The ledger invariant over the session row, its bookings and its reviews. */
  ghost predicate LedgerValid(s: Schedule, m: map<UserId, Booking>, rv: map<UserId, Review>) {
    WaitlistWellFormed(m) && ReviewsConsistent(s, m, rv)
  }

  /** A new booking that is either confirmed without a position, or waitlisted at the next
      position, keeps the ledger valid, whatever happens to the counter. */
  lemma AddBookingKeepsValid(s: Schedule, s': Schedule, m: map<UserId, Booking>, rv: map<UserId, Review>,
                             u: UserId, b: Booking)
    requires LedgerValid(s, m, rv) && u !in m
    requires s'.id == s.id && s'.classId == s.classId
    requires b.isWaitlisted ==> b.waitlistPosition == Some(WaitlistCount(m) + 1)
    requires !b.isWaitlisted ==> b.waitlistPosition.None?
    ensures LedgerValid(s', m[u := b], rv)
  {
    if b.isWaitlisted {
      AddWaitlistedKeepsWellFormed(m, u, b);
    } else {
      AddConfirmedKeepsWaitlist(m, u, b);
    }
    forall v | v in rv ensures v in m[u := b] && m[u := b][v] == m[v] {
      assert v in m;
    }
  }

  /** Replacing a booking by one with the same waitlist fields keeps the ledger valid,
      provided the booking of a user who wrote a review stays completed. */
  lemma ReplaceBookingKeepsValid(s: Schedule, s': Schedule, m: map<UserId, Booking>, rv: map<UserId, Review>,
                                 u: UserId, b: Booking)
    requires LedgerValid(s, m, rv) && u in m
    requires s'.id == s.id && s'.classId == s.classId
    requires b.isWaitlisted == m[u].isWaitlisted && b.waitlistPosition == m[u].waitlistPosition
    requires u in rv ==> b.status == BookingStatus.Completed
    ensures LedgerValid(s', m[u := b], rv)
  {
    ReplaceKeepsWaitlist(m, u, b);
  }

  /** A review by a user with a completed booking, about this session and its class, keeps
      the ledger valid. */
  lemma AddReviewKeepsValid(s: Schedule, m: map<UserId, Booking>, rv: map<UserId, Review>, u: UserId, r: Review)
    requires LedgerValid(s, m, rv)
    requires u in m && m[u].status == BookingStatus.Completed
    requires r.scheduleId == s.id && r.classId == s.classId
    ensures LedgerValid(s, m, rv[u := r])
  {
  }

  // ---------------------------------------------------------------------------------------
  // The serializer checks, as functions of what they read

  /** `BookingCreateSerializer.validate_class_schedule`: the session must be active, must not
      have started, and the user must hold no booking of it (of any status). */
  function ValidateClassSchedule(s: Schedule, hasBooking: bool, now: int): (err: Option<string>)
    ensures err.None? <==> s.status == Active && s.startTime > now && !hasBooking
    ensures s.status != Active ==> err == Some(NotAvailableMsg)
    ensures s.status == Active && s.startTime <= now ==> err == Some(PastSessionMsg)
    ensures s.status == Active && s.startTime > now && hasBooking ==> err == Some(AlreadyBookedMsg)
  {
    if s.status != Active then Some(NotAvailableMsg)
    else if s.startTime <= now then Some(PastSessionMsg)
    else if hasBooking then Some(AlreadyBookedMsg)
    else None
  }

  /** Where `BookingCreateSerializer.validate` places a request. */
  datatype Placement = Confirmed | WaitlistedAt(position: nat)

  /** `BookingCreateSerializer.validate`: a seat while the session is not full; when full,
      the next waitlist position if the waitlist is enabled, a refusal otherwise. */
  function ValidateCapacity(s: Schedule, waitlistCount: nat): (r: Result<Placement, string>)
    ensures !IsFull(s) <==> r == Ok(Confirmed)
    ensures IsFull(s) && s.waitlistEnabled <==> r == Ok(WaitlistedAt(waitlistCount + 1))
    ensures IsFull(s) && !s.waitlistEnabled <==> r == Err(FullMsg)
  {
    if IsFull(s) then
      if s.waitlistEnabled then Ok(WaitlistedAt(waitlistCount + 1)) else Err(FullMsg)
    else Ok(Confirmed)
  }

  /** The row `create` inserts for a placement. */
  function PlacedBooking(p: Placement, now: int, notes: string): (b: Booking)
    ensures p == Confirmed ==> b == NewBooking(now, notes)
    ensures p.WaitlistedAt? ==>
      (b.status == Waitlisted && b.isWaitlisted && b.waitlistPosition == Some(p.position)
       && b.cancellationTime == None && b.bookingTime == now && b.notes == notes)
  {
    match p
    case Confirmed => NewBooking(now, notes)
    case WaitlistedAt(pos) =>
      NewBooking(now, notes).(status := Waitlisted, isWaitlisted := true, waitlistPosition := Some(pos))
  }

  /** `BookingUpdateSerializer.validate`: cancelled and completed bookings cannot change. */
  function ValidateUpdate(b: Booking): (err: Option<string>)
    ensures err.None? <==> b.status != BookingStatus.Cancelled && b.status != BookingStatus.Completed
    ensures b.status == BookingStatus.Cancelled ==> err == Some(UpdateCancelledMsg)
    ensures b.status == BookingStatus.Completed ==> err == Some(UpdateCompletedMsg)
  {
    if b.status == BookingStatus.Cancelled then Some(UpdateCancelledMsg)
    else if b.status == BookingStatus.Completed then Some(UpdateCompletedMsg)
    else None
  }

  /** The serializer's deadline test: cancelling is refused once `now` is past start - 24h. */
  predicate PastCancellationDeadline(startTime: int, now: int) {
    now > BookingUtils.CancellationDeadline(startTime)
  }

  /** `BookingCancelSerializer.validate`: not already cancelled, not completed, and not past
      the deadline 24 hours before the start (the deadline itself is still in time). */
  function ValidateCancel(b: Booking, startTime: int, now: int): (err: Option<string>)
    ensures err.None? <==>
      (b.status != BookingStatus.Cancelled && b.status != BookingStatus.Completed
       && now + BookingUtils.CancellationWindow <= startTime)
    ensures b.status == BookingStatus.Cancelled ==> err == Some(AlreadyCancelledMsg)
    ensures b.status == BookingStatus.Completed ==> err == Some(CancelCompletedMsg)
  {
    if b.status == BookingStatus.Cancelled then Some(AlreadyCancelledMsg)
    else if b.status == BookingStatus.Completed then Some(CancelCompletedMsg)
    else if PastCancellationDeadline(startTime, now) then Some(TooLateMsg)
    else None
  }

  /** The serializer and `can_cancel_booking` disagree exactly at the deadline: there the
      serializer lets the cancellation through and the helper says it is too late. At
      every other moment they agree. */
  lemma CancelDeadlineBoundary(b: Booking, startTime: int, now: int)
    requires b.status == Booked || b.status == Waitlisted
    ensures now == BookingUtils.CancellationDeadline(startTime) ==>
      ValidateCancel(b, startTime, now).None? && !BookingUtils.CanCancelBooking(startTime, now)
    ensures now != BookingUtils.CancellationDeadline(startTime) ==>
      (ValidateCancel(b, startTime, now).None? <==> BookingUtils.CanCancelBooking(startTime, now))
  {
  }

  /** The update and cancel views only find bookings the serializers' status checks pass, so
      through the views those checks never fire: only the cancellation deadline can. */
  lemma LookupMakesStatusChecksRedundant(b: Booking, startTime: int, now: int)
    requires BookingViews.Modifiable(b)
    ensures ValidateUpdate(b).None?
    ensures ValidateCancel(b, startTime, now).None? <==> !PastCancellationDeadline(startTime, now)
    ensures ValidateCancel(b, startTime, now).Some? ==> ValidateCancel(b, startTime, now) == Some(TooLateMsg)
  {
  }

  /** The rating field's choice check; a missing rating takes the default 5. */
  function ValidateRating(rating: Option<int>): (r: Result<Rating, string>)
    ensures rating.None? ==> r == Ok(DefaultRating)
    ensures rating.Some? && 1 <= rating.value <= 5 ==> r == Ok(rating.value as Rating)
    ensures rating.Some? && !(1 <= rating.value <= 5) ==> r.Err?
  {
    match rating
    case None => Ok(DefaultRating)
    case Some(x) =>
      if 1 <= x <= 5 then Ok(x as Rating)
      else Err("\"" + IntToString(x) + "\" is not a valid choice.")
  }

  /** `ClassReviewSerializer.validate`: the user must hold a completed booking of the
      session and must not have reviewed it yet. */
  function ValidateReview(booking: Option<Booking>, alreadyReviewed: bool): (err: Option<string>)
    ensures err.None? <==> booking.Some? && booking.value.status == BookingStatus.Completed && !alreadyReviewed
    ensures !(booking.Some? && booking.value.status == BookingStatus.Completed) ==> err == Some(NotAttendedMsg)
  {
    if !(booking.Some? && booking.value.status == BookingStatus.Completed) then Some(NotAttendedMsg)
    else if alreadyReviewed then Some(AlreadyReviewedMsg)
    else None
  }

  // ---------------------------------------------------------------------------------------
  // The session ledger

  class SessionLedger {
    var schedule: Schedule
    var bookings: map<UserId, Booking>
    var reviews: map<UserId, Review>

    /** The ledger invariant: a well-formed waitlist and consistent reviews. */
    ghost predicate Valid()
      reads this
    {
      LedgerValid(schedule, bookings, reviews)
    }

    /** The counter stays within the capacity. */
    predicate WithinCapacity()
      reads this
    {
      schedule.bookedSlots <= schedule.maxCapacity
    }

    /** `ClassSchedule.objects.create(...)`: the row is saved once (end time and status
        derived at `now`) and has no bookings or reviews yet. */
    constructor (s: Schedule, now: int)
      ensures Valid()
      ensures schedule == Saved(s, now)
      ensures bookings == map[] && reviews == map[]
    {
      schedule := Saved(s, now);
      bookings := map[];
      reviews := map[];
      assert Positions(map[]) == {} == UpTo(0);
    }

    /** `ClassSchedule.save()` with every field persisted: fills in a missing end time, then
        re-derives the status from the counter and the clock. */
    method Save(now: int)
      requires Valid()
      modifies this
      ensures Valid()
      ensures schedule == Saved(old(schedule), now)
      ensures bookings == old(bookings) && reviews == old(reviews)
    {
      if schedule.endTime.None? {
        schedule := schedule.(endTime := Some(schedule.startTime + schedule.classDuration * 60));
      }
      if schedule.bookedSlots >= schedule.maxCapacity {
        schedule := schedule.(status := Full);
      } else if schedule.status == Full && schedule.bookedSlots < schedule.maxCapacity {
        schedule := schedule.(status := Active);
      }
      if schedule.startTime < now && schedule.status == Active {
        schedule := schedule.(status := ScheduleStatus.Completed);
      }
    }

    /** `ClassSchedule.can_book(user)`. */
    predicate CanBook(user: UserId, now: int)
      reads this
    {
      schedule.status == Active && !IsFull(schedule) && IsUpcoming(schedule, now) && user !in bookings
    }

    /** `ClassSchedule.get_waitlist_position(user)`: the position of the user's booking if it
        carries the waitlist flag, `None` otherwise or when the user has no booking. */
    function WaitlistPosition(user: UserId): (r: Option<nat>)
      reads this
      requires Valid()
      ensures r.Some? <==> user in bookings && bookings[user].isWaitlisted
      ensures r.Some? ==> 1 <= r.value <= WaitlistCount(bookings)
    {
      if user in bookings && bookings[user].isWaitlisted then
        NextPositionIsFresh(bookings);
        bookings[user].waitlistPosition
      else None
    }

    /** Create a booking (the create view: `validate_class_schedule`, `validate`, `create`).
        The request is refused, or confirmed with the counter raised by one, or put on the
        waitlist at the next position with the counter unchanged. Only the counter is
        written back: the stored status stays as it was. */
    method CreateBooking(user: UserId, notes: string, now: int) returns (r: Result<Booking, RequestError>)
      requires Valid()
      modifies this
      ensures Valid()
      ensures schedule.status == old(schedule.status)
      ensures reviews == old(reviews)
      ensures r.Err? ==> schedule == old(schedule) && bookings == old(bookings)
      ensures r.Err? <==> old(ValidateClassSchedule(schedule, user in bookings, now)).Some?
                          || (old(IsFull(schedule)) && !old(schedule.waitlistEnabled))
      ensures r.Err? ==> r.error == Invalid(
        if old(ValidateClassSchedule(schedule, user in bookings, now)).Some?
        then old(ValidateClassSchedule(schedule, user in bookings, now)).value else FullMsg)
      ensures r.Ok? ==> user !in old(bookings) && bookings == old(bookings)[user := r.value]
      ensures r.Ok? && !r.value.isWaitlisted <==> old(CanBook(user, now))
      ensures r.Ok? && !old(IsFull(schedule)) ==>
        r.value == NewBooking(now, notes)
        && schedule == old(schedule).(bookedSlots := old(schedule.bookedSlots) + 1)
      ensures r.Ok? && old(IsFull(schedule)) ==>
        r.value == PlacedBooking(WaitlistedAt(old(WaitlistCount(bookings)) + 1), now, notes)
        && schedule == old(schedule)
      ensures r.Ok? && r.value.isWaitlisted ==>
        forall v :: v in old(bookings) && old(bookings)[v].waitlistPosition.Some? ==>
          old(bookings)[v].waitlistPosition.value < r.value.waitlistPosition.value
      ensures old(WithinCapacity()) ==> WithinCapacity()
    {
      var err := ValidateClassSchedule(schedule, user in bookings, now);
      if err.Some? {
        return Err(Invalid(err.value));
      }
      var placement := ValidateCapacity(schedule, WaitlistCount(bookings));
      if placement.Err? {
        return Err(Invalid(placement.error));
      }
      var b := PlacedBooking(placement.value, now, notes);
      var s' := if b.isWaitlisted then schedule else schedule.(bookedSlots := schedule.bookedSlots + 1);
      AddBookingKeepsValid(schedule, s', bookings, reviews, user, b);
      if b.isWaitlisted {
        NextPositionIsFresh(bookings);
      }
      bookings := bookings[user := b];
      schedule := s';
      r := Ok(b);
    }

    /** Update a booking's notes (the update view's lookup, then the serializer). Only the
        user's own booking that is neither cancelled nor completed is found; only its notes
        change, and only when new notes are given. */
    method UpdateBooking(user: UserId, notes: Option<string>) returns (r: Result<Booking, RequestError>)
      requires Valid()
      modifies this
      ensures Valid()
      ensures schedule == old(schedule) && reviews == old(reviews)
      ensures r == Err(NotFound) <==> user !in old(bookings) || !BookingViews.Modifiable(old(bookings)[user])
      ensures r.Err? ==> r == Err(NotFound) && bookings == old(bookings)
      ensures r.Ok? ==> r.value == old(bookings)[user].(notes := notes.GetOr(old(bookings)[user].notes))
                        && bookings == old(bookings)[user := r.value]
    {
      if user !in bookings || !BookingViews.Modifiable(bookings[user]) {
        return Err(NotFound);
      }
      var b := bookings[user];
      // The serializer's status checks cannot fire on a booking the lookup found.
      assert ValidateUpdate(b).None?;
      var updated := b.(notes := notes.GetOr(b.notes));
      ReplaceBookingKeepsValid(schedule, schedule, bookings, reviews, user, updated);
      bookings := bookings[user := updated];
      r := Ok(updated);
    }

    /** Cancel a booking (the cancel view's lookup, the serializer's checks, `update`). The
        booking is cancelled with the reason appended to its notes; a confirmed seat gives
        its slot back (the counter floored at 0); a waitlisted booking leaves the counter
        alone. Nothing is promoted from the waitlist, and the stored status is not touched. */
    method CancelBooking(user: UserId, reason: string, now: int) returns (r: Result<Booking, RequestError>)
      requires Valid()
      modifies this
      ensures Valid()
      ensures reviews == old(reviews)
      ensures schedule.status == old(schedule.status)
      ensures r == Err(NotFound) <==> user !in old(bookings) || !BookingViews.Modifiable(old(bookings)[user])
      ensures r.Err? ==> schedule == old(schedule) && bookings == old(bookings)
      ensures r.Err? && r != Err(NotFound) ==> r == Err(Invalid(TooLateMsg))
      ensures r.Ok? <==> user in old(bookings) && BookingViews.Modifiable(old(bookings)[user])
                         && !PastCancellationDeadline(old(schedule.startTime), now)
      ensures r.Ok? ==> r.value == Cancel(old(bookings)[user], Some(reason), now)
                        && bookings == old(bookings)[user := r.value]
      ensures r.Ok? && !old(bookings)[user].isWaitlisted ==>
        schedule == old(schedule).(bookedSlots := if old(schedule.bookedSlots) > 0 then old(schedule.bookedSlots) - 1 else 0)
      ensures r.Ok? && old(bookings)[user].isWaitlisted ==> schedule == old(schedule)
      ensures forall v :: v in old(bookings) && v != user ==> v in bookings && bookings[v] == old(bookings)[v]
      ensures old(WithinCapacity()) ==> WithinCapacity()
    {
      if user !in bookings || !BookingViews.Modifiable(bookings[user]) {
        return Err(NotFound);
      }
      var b := bookings[user];
      var err := ValidateCancel(b, schedule.startTime, now);
      if err.Some? {
        return Err(Invalid(err.value));
      }
      var cancelled := Cancel(b, Some(reason), now);
      var s' := if cancelled.isWaitlisted then schedule
                else schedule.(bookedSlots := if schedule.bookedSlots - 1 > 0 then schedule.bookedSlots - 1 else 0);
      ReplaceBookingKeepsValid(schedule, s', bookings, reviews, user, cancelled);
      bookings := bookings[user := cancelled];
      schedule := s';
      r := Ok(cancelled);
    }

    /** The transition to completed, which no request path performs (an outside input to
        the review rule): the user's booking, if any, becomes completed. */
    method RecordCompletion(user: UserId)
      requires Valid()
      modifies this
      ensures Valid()
      ensures schedule == old(schedule) && reviews == old(reviews)
      ensures user in old(bookings) ==> bookings == old(bookings)[user := old(bookings)[user].(status := BookingStatus.Completed)]
      ensures user !in old(bookings) ==> bookings == old(bookings)
    {
      if user in bookings {
        var done := bookings[user].(status := BookingStatus.Completed);
        ReplaceBookingKeepsValid(schedule, schedule, bookings, reviews, user, done);
        bookings := bookings[user := done];
      }
    }

    /** Submit a review of this session (the rating choice check, `validate`, `create`).
        Accepted only from a user with a completed booking who has not reviewed the session
        yet; the review's class is the session's class. */
    method SubmitReview(user: UserId, rating: Option<int>, text: string) returns (r: Result<Review, RequestError>)
      requires Valid()
      modifies this
      ensures Valid()
      ensures schedule == old(schedule) && bookings == old(bookings)
      ensures r.Err? ==> reviews == old(reviews) && r.error.Invalid?
      ensures r.Ok? <==> ValidateRating(rating).Ok?
                         && user in bookings && bookings[user].status == BookingStatus.Completed
                         && user !in old(reviews)
      ensures r.Ok? ==>
        (reviews == old(reviews)[user := r.value]
         && r.value == Review(ValidateRating(rating).value, text, schedule.id, schedule.classId))
    {
      var checked := ValidateRating(rating);
      if checked.Err? {
        return Err(Invalid(checked.error));
      }
      var booking := if user in bookings then Some(bookings[user]) else None;
      var err := ValidateReview(booking, user in reviews);
      if err.Some? {
        return Err(Invalid(err.value));
      }
      var review := Review(checked.value, text, schedule.id, schedule.classId);
      AddReviewKeepsValid(schedule, bookings, reviews, user, review);
      reviews := reviews[user := review];
      r := Ok(review);
    }
  }
}
