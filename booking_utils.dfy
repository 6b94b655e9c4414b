/** Time-window helpers of the bookings app (bookings/utils.py). Times are in seconds. */
module BookingUtils {

  /** The cancellation policy: 24 hours, in seconds. */
  const CancellationWindow := 24 * 60 * 60

  /** The last moment of the cancellation window of a session starting at `startTime`. */
  function CancellationDeadline(startTime: int): int {
    startTime - CancellationWindow
  }

  /** `validate_booking_time`: the moment lies within the session, both ends included. */
  function ValidateBookingTime(startTime: int, endTime: int, bookingTime: int): (ok: bool)
    ensures ok <==> startTime <= bookingTime && bookingTime <= endTime
  {
    startTime <= bookingTime <= endTime
  }

  /** `can_cancel_booking`: strictly before the deadline 24 hours ahead of the start. */
  function CanCancelBooking(startTime: int, currentTime: int): (ok: bool)
    ensures ok <==> currentTime + CancellationWindow < startTime
  {
    currentTime < CancellationDeadline(startTime)
  }

  /** If a booking may be cancelled at some moment, it may be cancelled at every earlier one. */
  lemma CanCancelMonotone(startTime: int, earlier: int, later: int)
    requires earlier <= later && CanCancelBooking(startTime, later)
    ensures CanCancelBooking(startTime, earlier)
  {
  }
}
