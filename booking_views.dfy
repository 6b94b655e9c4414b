/** The request-level rules of bookings/views.py: which bookings a user's list shows, which
    bookings the update and cancel views can find, the create message, and the rating
    distribution of a class's reviews. */
module BookingViews {
  import opened Wrappers
  import opened Strings
  import opened Seqs
  import opened BookingModels
  import opened Responses
  import opened Exceptions
  import opened Decorators

  /** One booking as the list query sees it: its owner, its session's start, the row. */
  datatype BookingRow = BookingRow(owner: UserId, scheduleStart: int, booking: Booking)

  /** The update and cancel querysets: the requesting user's bookings that are neither
      cancelled nor completed (ownership is the ledger's key). */
  predicate Modifiable(b: Booking) {
    b.status != BookingStatus.Cancelled && b.status != BookingStatus.Completed
  }

  /** A found booking is booked or waitlisted. */
  lemma ModifiableStatuses(b: Booking)
    ensures Modifiable(b) <==> b.status == Booked || b.status == Waitlisted
  {
  }

  /** Whether a row survives every filter of `UserBookingListView.get_queryset`. */
  predicate Listed(r: BookingRow, user: UserId, status: Option<string>,
                   upcomingOnly: Option<string>, pastOnly: Option<string>, now: int)
  {
    && r.owner == user
    && (Given(status) ==> StatusName(r.booking.status) == status.value)
    && (FlagOn(upcomingOnly) ==> r.scheduleStart >= now)
    && (FlagOn(pastOnly) ==> r.scheduleStart < now)
  }

  /** `UserBookingListView.get_queryset`: the user's rows, narrowed to one status when a
      status is given, then to upcoming and to past sessions when those flags are on. A row
      is listed exactly when it survives every filter; ordering is not modelled. */
  method ListUserBookings(rows: seq<BookingRow>, user: UserId, status: Option<string>,
                          upcomingOnly: Option<string>, pastOnly: Option<string>, now: int)
    returns (result: seq<BookingRow>)
    ensures |result| <= |rows|
    ensures forall r :: r in result <==> r in rows && Listed(r, user, status, upcomingOnly, pastOnly, now)
  {
    var byOwner := Filter(rows, (r: BookingRow) => r.owner == user);
    var queryset := byOwner;
    if Given(status) {
      queryset := Filter(byOwner, (r: BookingRow) => StatusName(r.booking.status) == status.value);
    }
    var afterStatus := queryset;
    if FlagOn(upcomingOnly) {
      queryset := Filter(afterStatus, (r: BookingRow) => r.scheduleStart >= now);
    }
    var afterUpcoming := queryset;
    if FlagOn(pastOnly) {
      queryset := Filter(afterUpcoming, (r: BookingRow) => r.scheduleStart < now);
    }
    result := queryset;
    forall r
      ensures r in result <==> r in rows && Listed(r, user, status, upcomingOnly, pastOnly, now)
    {
      FilterMembership(rows, (r: BookingRow) => r.owner == user, r);
      if Given(status) {
        FilterMembership(byOwner, (r: BookingRow) => StatusName(r.booking.status) == status.value, r);
      }
      if FlagOn(upcomingOnly) {
        FilterMembership(afterStatus, (r: BookingRow) => r.scheduleStart >= now, r);
      }
      if FlagOn(pastOnly) {
        FilterMembership(afterUpcoming, (r: BookingRow) => r.scheduleStart < now, r);
      }
    }
  }

  /** With both flags on no session qualifies, and a given status selects exactly the rows
      in that one status. */
  lemma ListingFilters(r: BookingRow, user: UserId, status: Option<string>,
                       upcomingOnly: Option<string>, pastOnly: Option<string>, now: int)
    ensures FlagOn(upcomingOnly) && FlagOn(pastOnly) ==> !Listed(r, user, status, upcomingOnly, pastOnly, now)
    ensures Given(status) && status.value == StatusName(Booked) && Listed(r, user, status, upcomingOnly, pastOnly, now)
      ==> r.booking.status == Booked
    ensures !Given(status) && !FlagOn(upcomingOnly) && !FlagOn(pastOnly) ==>
      (Listed(r, user, status, upcomingOnly, pastOnly, now) <==> r.owner == user)
  {
    if Given(status) && status.value == StatusName(Booked) && Listed(r, user, status, upcomingOnly, pastOnly, now) {
      StatusNameInjective(r.booking.status, Booked);
    }
  }

  const CreatedMsg := "Booking created successfully"
  const WaitlistMsgPrefix := "Booking added to waitlist (position: "

  /** `str()` of the stored position: its digits, or "None" when there is none. */
  function PositionText(p: Option<nat>): string {
    match p
    case Some(n) => NatToString(n)
    case None => "None"
  }

  /** The create view's message: the fixed text for a seat, the position for the waitlist. */
  function CreateMessage(b: Booking): (msg: string)
    ensures !b.isWaitlisted ==> msg == CreatedMsg
    ensures b.isWaitlisted ==> WaitlistMsgPrefix <= msg && msg[|msg| - 1] == ')'
  {
    if b.isWaitlisted then WaitlistMsgPrefix + PositionText(b.waitlistPosition) + ")"
    else CreatedMsg
  }

  /** Decimal rendering is one-to-one: two naturals with the same text are equal. */
  lemma NatToStringInjective(a: nat, b: nat)
    ensures NatToString(a) == NatToString(b) <==> a == b
  {
  }

  /** The waitlist message reports the position: the text between the prefix and the
      closing parenthesis reads back as the number, so different positions give
      different messages, and none of them is the confirmation message. */
  lemma CreateMessageReportsPosition(b: Booking, c: Booking)
    requires b.isWaitlisted && b.waitlistPosition.Some?
    ensures var msg := CreateMessage(b);
      ParseInt(msg[|WaitlistMsgPrefix|..|msg| - 1]) == Some(b.waitlistPosition.value as int)
    ensures CreateMessage(b) != CreatedMsg
    ensures c.isWaitlisted && c.waitlistPosition.Some? && c.waitlistPosition != b.waitlistPosition
      ==> CreateMessage(c) != CreateMessage(b)
  {
    var msg := CreateMessage(b);
    var digits := NatToString(b.waitlistPosition.value);
    assert msg[|WaitlistMsgPrefix|..|msg| - 1] == digits;
    ParseDigits(digits);
    assert msg[0] == 'B' && msg[8] == 'a' && CreatedMsg[8] == 'c';
    if c.isWaitlisted && c.waitlistPosition.Some? && c.waitlistPosition != b.waitlistPosition {
      var other := CreateMessage(c);
      assert other[|WaitlistMsgPrefix|..|other| - 1] == NatToString(c.waitlistPosition.value);
      NatToStringInjective(b.waitlistPosition.value, c.waitlistPosition.value);
    }
  }

  /** The number of reviews with the given rating (`queryset.filter(rating=rating).count()`). */
  function CountRating(ratings: seq<Rating>, rating: int): (n: nat)
    ensures n <= |ratings|
    ensures n == |Filter(ratings, (x: Rating) => x as int == rating)|
  {
    CountIsFilterLength(ratings, (x: Rating) => x as int == rating);
    Count(ratings, (x: Rating) => x as int == rating)
  }

  /** The counts of the five ratings add up to the number of reviews. */
  lemma {:induction false} RatingCountsCoverAll(ratings: seq<Rating>)
    ensures CountRating(ratings, 1) + CountRating(ratings, 2) + CountRating(ratings, 3)
          + CountRating(ratings, 4) + CountRating(ratings, 5) == |ratings|
  {
    if ratings != [] {
      RatingCountsCoverAll(ratings[..|ratings| - 1]);
    }
  }

  /** The keys "1" up to the decimal text of `n`. */
  function RatingKeys(n: nat): (keys: set<string>)
    ensures forall k :: 1 <= k <= n ==> NatToString(k) in keys
  {
    if n == 0 then {} else RatingKeys(n - 1) + {NatToString(n)}
  }

  /** ... and every key is one of them: the text of some rating from 1 to `n`. */
  lemma {:induction false} RatingKeysOnly(n: nat, key: string) returns (k: nat)
    requires key in RatingKeys(n)
    ensures 1 <= k <= n && key == NatToString(k)
  {
    assert n != 0;
    if key == NatToString(n) {
      k := n;
    } else {
      k := RatingKeysOnly(n - 1, key);
    }
  }

  /** `_get_rating_distribution`: for each rating 1 to 5, in turn, the number of reviews with
      that rating, keyed by the rating's decimal text. */
  method RatingDistribution(ratings: seq<Rating>) returns (distribution: map<string, nat>)
    ensures distribution.Keys == {"1", "2", "3", "4", "5"}
    ensures forall k :: 1 <= k <= 5 ==> distribution[NatToString(k)] == CountRating(ratings, k)
  {
    distribution := map[];
    for rating := 1 to 6
      invariant distribution.Keys == RatingKeys(rating - 1)
      invariant forall k :: 1 <= k < rating ==> distribution[NatToString(k)] == CountRating(ratings, k)
    {
      forall k | 1 <= k < rating ensures NatToString(k) != NatToString(rating) {
        NatToStringInjective(k, rating);
      }
      distribution := distribution[NatToString(rating) := CountRating(ratings, rating)];
    }
    RatingKeysFive();
  }

  lemma RatingKeysFive()
    ensures RatingKeys(5) == {"1", "2", "3", "4", "5"}
  {
    assert NatToString(1) == "1" && NatToString(2) == "2" && NatToString(3) == "3";
    assert NatToString(4) == "4" && NatToString(5) == "5";
  }

  // ---------------------------------------------------------------------------------------
  // The review create endpoint as written

  /** The request fields `ClassReviewSerializer` writes into its validated data: its declared
      fields that are not read-only. `class_schedule` is not among them. */
  const ReviewWritableFields: set<string> := {"rating", "review"}

  /** The validated data the serializer hands to `validate`: the writable fields of the request. */
  function ReviewValidatedAttrs(data: map<string, Value>): (attrs: map<string, Value>)
    ensures attrs.Keys == data.Keys * ReviewWritableFields
    ensures "class_schedule" !in attrs
  {
    map k | k in data && k in ReviewWritableFields :: data[k]
  }

  /** `attrs['class_schedule']`: the session, or the `KeyError` a missing key raises. */
  function ReviewScheduleLookup(attrs: map<string, Value>): (r: Result<Value, Exceptions.Raised>)
    ensures "class_schedule" in attrs <==> r.Ok?
    ensures r.Err? ==> r.error == Other("'class_schedule'")
  {
    if "class_schedule" in attrs then Ok(attrs["class_schedule"]) else Err(Other("'class_schedule'"))
  }

  /** `ClassReviewCreateView.create` as written, once the fields have parsed: `validate` reads
      the session from the validated data, and the rest of the request (`rest`) runs only if
      that read succeeds. */
  function ReviewCreateAsWritten(data: map<string, Value>, rest: Response): Response {
    match ReviewScheduleLookup(ReviewValidatedAttrs(data))
    case Ok(_) => rest
    case Err(e) => HandleApiExceptions(Raised(e))
  }

  /** As written, every review request whose fields parse fails with the generic 500, even
      one that names the session: the session never reaches `validate`. */
  lemma ReviewCreateAlwaysFails(data: map<string, Value>, rest: Response)
    ensures ReviewCreateAsWritten(data, rest) == InternalErrorResponse
    ensures ReviewCreateAsWritten(map["class_schedule" := Int(1), "rating" := Int(5)], rest).status == 500
  {
  }
}
