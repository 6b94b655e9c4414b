/** Capacity helpers of the classes app (classes/utils.py). */
module ClassUtils {

  /** The capacity range the session and class fields accept (their min/max validators). */
  const MinCapacity := 1
  const MaxCapacity := 1000

  /** `validate_class_capacity`: a positive capacity of at most 1000. */
  function ValidateClassCapacity(capacity: int): (ok: bool)
    ensures ok <==> MinCapacity <= capacity <= MaxCapacity
  {
    capacity > 0 && capacity <= 1000
  }

  /** `calculate_available_slots`: the free seats, never negative. */
  function CalculateAvailableSlots(totalCapacity: int, bookedSlots: int): (r: int)
    ensures r >= 0
    ensures bookedSlots <= totalCapacity ==> r == totalCapacity - bookedSlots
    ensures bookedSlots >= totalCapacity ==> r == 0
    ensures r == 0 <==> bookedSlots >= totalCapacity
  {
    if totalCapacity - bookedSlots > 0 then totalCapacity - bookedSlots else 0
  }

  /** More bookings never free a seat; more capacity never removes one. */
  lemma AvailableSlotsMonotone(total1: int, total2: int, booked1: int, booked2: int)
    requires total1 <= total2 && booked1 >= booked2
    ensures CalculateAvailableSlots(total1, booked1) <= CalculateAvailableSlots(total2, booked2)
  {
  }
}
